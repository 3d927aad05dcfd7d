/**
 The dead half of the Redis key space: one ZSET per lane and one hash per record.

 Rank matters here, so a dead ZSET is the sequence of its entries in rank order:
 by score, then by member.
 */
module RedisDead {
  import opened Types
  import opened Lists
  import opened Contract
  import opened RetentionLaws
  import opened DeadLanes
  import opened RedisLive

  datatype Entry = Entry(score: nat, member: Member)

  datatype DeadHash = DeadHash(
    env: Envelope, reason: Reason, lane: Lane, priority: nat, attempts: nat,
    deadAt: nat, member: Member, key: Option<Key>)

  type DeadHashes = map<JobId, DeadHash>
  type DeadSets = map<Lane, seq<Entry>>

  function DOf(dz: DeadSets, lane: Lane): seq<Entry> {
    if lane in dz then dz[lane] else []
  }

  predicate Below(a: Entry, b: Entry) {
    || a.score < b.score
    || (a.score == b.score && a.member.num < b.member.num)
    || (a.score == b.score && a.member.num == b.member.num && a.member.id < b.member.id)
  }

  /** How many entries sort below `e`. */
  function Rank(z: seq<Entry>, e: Entry): (r: nat)
    ensures r <= |z|
    ensures forall i :: 0 <= i < r ==> Below(z[i], e)
    ensures r < |z| ==> !Below(z[r], e)
  {
    if z == [] || !Below(z[0], e) then 0 else 1 + Rank(z[1..], e)
  }

  function ZInsert(z: seq<Entry>, e: Entry): seq<Entry> {
    InsertAt(z, Rank(z, e), e)
  }

  function MemberIds(z: seq<Entry>): set<JobId> {
    set i | 0 <= i < |z| :: z[i].member.id
  }

  // --------------------------------------------------------- index agreement

  ghost predicate Ranked(z: seq<Entry>) {
    forall i, k :: 0 <= i < k < |z| ==> Below(z[i], z[k])
  }

  ghost predicate Filed(dj: DeadHashes, lane: Lane, e: Entry) {
    && e.member.id in dj
    && var h := dj[e.member.id];
       && h.member == e.member && h.lane == lane && h.deadAt == e.score
       && h.env.id == e.member.id && h.env.lane == lane && h.env.priority == h.priority
  }

  ghost predicate LaneFiled(dj: DeadHashes, dz: DeadSets, lane: Lane) {
    && Ranked(DOf(dz, lane))
    && forall i :: 0 <= i < |DOf(dz, lane)| ==> Filed(dj, lane, DOf(dz, lane)[i])
  }

  ghost predicate Present(z: seq<Entry>, m: Member) {
    exists i :: 0 <= i < |z| && z[i].member == m
  }

  /** Dead members and dead hashes are in bijection, each member at its hash's lane and time. */
  ghost predicate DeadIndexed(dj: DeadHashes, dz: DeadSets) {
    && (forall lane :: LaneFiled(dj, dz, lane))
    && (forall id :: id in dj ==> Ranks(dj, dz, id))
  }

  ghost predicate Ranks(dj: DeadHashes, dz: DeadSets, id: JobId)
    requires id in dj
  {
    dj[id].member.id == id && Present(DOf(dz, dj[id].lane), dj[id].member)
  }

  function ToRec(h: DeadHash): DeadRec {
    DeadRec(h.env.(attempts := Capped(h.attempts)), h.reason, h.key, h.deadAt)
  }

  ghost predicate Mirrors(dj: DeadHashes, z: seq<Entry>, list: seq<DeadRec>) {
    && |z| == |list|
    && forall i :: 0 <= i < |z| ==> z[i].member.id in dj && list[i] == ToRec(dj[z[i].member.id])
  }

  /** Lane by lane, the ZSET in rank order is the contract's list of dead records. */
  ghost predicate Mirrored(dj: DeadHashes, dz: DeadSets, dead: seq<DeadRec>) {
    forall lane :: LaneMirrored(dj, dz, dead, lane)
  }

  ghost predicate LaneMirrored(dj: DeadHashes, dz: DeadSets, dead: seq<DeadRec>, lane: Lane) {
    Mirrors(dj, DOf(dz, lane), OfLane(dead, lane))
  }

  // ------------------------------------------------------------------ lemmas

  lemma IdsDiffer(dj: DeadHashes, dz: DeadSets, lane: Lane, i: nat, other: Lane, k: nat)
    requires DeadIndexed(dj, dz) && i < |DOf(dz, lane)| && k < |DOf(dz, other)|
    requires DOf(dz, lane)[i].member.id == DOf(dz, other)[k].member.id
    ensures lane == other && i == k
  {
    assert LaneFiled(dj, dz, lane) && LaneFiled(dj, dz, other);
  }

  lemma RankedInsert(z: seq<Entry>, e: Entry)
    requires Ranked(z) && forall i :: 0 <= i < |z| ==> z[i].member.id != e.member.id
    ensures Ranked(ZInsert(z, e))
  {
  }

  lemma PresentInsert(z: seq<Entry>, e: Entry, m: Member)
    requires Present(z, m) || m == e.member
    ensures Present(ZInsert(z, e), m)
  {
    var r, all := Rank(z, e), ZInsert(z, e);
    if m == e.member {
      assert all[r].member == m;
    } else {
      var i :| 0 <= i < |z| && z[i].member == m;
      assert all[if i < r then i else i + 1].member == m;
    }
  }

  /** At `pos` of the list the record is the `r`-th of its lane. */
  ghost predicate PlacedAt(dead: seq<DeadRec>, pos: nat, rec: DeadRec, r: nat) {
    && pos <= |dead| && r <= |OfLane(dead, rec.env.lane)|
    && OfLane(InsertAt(dead, pos, rec), rec.env.lane) == InsertAt(OfLane(dead, rec.env.lane), r, rec)
  }

  /** A new record: filed at its rank, and a place for it in the contract's list. */
  lemma DeadAdd(dj: DeadHashes, dz: DeadSets, dead: seq<DeadRec>, id: JobId, h: DeadHash) returns (pos: nat)
    requires DeadIndexed(dj, dz) && Mirrored(dj, dz, dead) && id !in dj
    requires h.member.id == id && h.env.id == id && h.env.lane == h.lane && h.env.priority == h.priority
    ensures pos <= |dead| && TiePosition(dead, h.lane, h.deadAt, pos)
    ensures PlacedAt(dead, pos, ToRec(h), Rank(DOf(dz, h.lane), Entry(h.deadAt, h.member)))
    ensures var dz' := dz[h.lane := ZInsert(DOf(dz, h.lane), Entry(h.deadAt, h.member))];
            && DeadIndexed(dj[id := h], dz')
            && Mirrored(dj[id := h], dz', InsertAt(dead, pos, ToRec(h)))
  {
    var e := Entry(h.deadAt, h.member);
    assert LaneMirrored(dj, dz, dead, h.lane);
    pos := CutAt(dead, h.lane, Rank(DOf(dz, h.lane), e));
    DeadAddPlace(dj, dz, dead, h.lane, e, pos);
    InsertOfLane(dead, pos, ToRec(h), Rank(DOf(dz, h.lane), e));
    DeadAddFiled(dj, dz, id, h);
    var dj', dz' := dj[id := h], dz[h.lane := ZInsert(DOf(dz, h.lane), e)];
    var dead' := InsertAt(dead, pos, ToRec(h));
    forall lane ensures LaneMirrored(dj', dz', dead', lane) {
      assert LaneMirrored(dj, dz, dead, lane);
      DeadAddMirrors(dj, dz, dead, id, h, pos, lane);
    }
  }

  lemma InsertOfLane(dead: seq<DeadRec>, pos: nat, d: DeadRec, r: nat)
    requires pos <= |dead| && r <= |OfLane(dead, d.env.lane)|
    requires OfLane(dead[..pos], d.env.lane) == OfLane(dead, d.env.lane)[..r]
    requires OfLane(dead[pos..], d.env.lane) == OfLane(dead, d.env.lane)[r..]
    ensures OfLane(InsertAt(dead, pos, d), d.env.lane) == InsertAt(OfLane(dead, d.env.lane), r, d)
  {
    OfLaneInsert(dead, pos, d, d.env.lane);
  }

  lemma DeadAddMirrors(dj: DeadHashes, dz: DeadSets, dead: seq<DeadRec>, id: JobId, h: DeadHash, pos: nat, lane: Lane)
    requires LaneMirrored(dj, dz, dead, lane) && id !in dj && pos <= |dead|
    requires h.member.id == id && h.env.lane == h.lane
    requires var r := Rank(DOf(dz, h.lane), Entry(h.deadAt, h.member));
             && r <= |OfLane(dead, h.lane)|
             && OfLane(dead[..pos], h.lane) == OfLane(dead, h.lane)[..r]
             && OfLane(dead[pos..], h.lane) == OfLane(dead, h.lane)[r..]
    ensures LaneMirrored(dj[id := h], dz[h.lane := ZInsert(DOf(dz, h.lane), Entry(h.deadAt, h.member))],
                         InsertAt(dead, pos, ToRec(h)), lane)
  {
    var z, e := DOf(dz, h.lane), Entry(h.deadAt, h.member);
    var r := Rank(z, e);
    if lane == h.lane {
      assert OfLane(InsertAt(dead, pos, ToRec(h)), lane) == InsertAt(OfLane(dead, lane), r, ToRec(h)) by {
        InsertOfLane(dead, pos, ToRec(h), r);
      }
      MirrorsInsert(dj, z, OfLane(dead, lane), r, e, h);
      assert DOf(dz[h.lane := ZInsert(z, e)], lane) == InsertAt(z, r, e);
    } else {
      assert OfLane(InsertAt(dead, pos, ToRec(h)), lane) == OfLane(dead, lane) by {
        OfLaneInsert(dead, pos, ToRec(h), lane);
      }
      MirrorsWiden(dj, DOf(dz, lane), OfLane(dead, lane), id, h);
    }
  }

  lemma MirrorsWiden(dj: DeadHashes, z: seq<Entry>, list: seq<DeadRec>, id: JobId, h: DeadHash)
    requires Mirrors(dj, z, list) && id !in dj
    ensures Mirrors(dj[id := h], z, list)
  {
  }

  lemma MirrorsInsert(dj: DeadHashes, z: seq<Entry>, list: seq<DeadRec>, r: nat, e: Entry, h: DeadHash)
    requires Mirrors(dj, z, list) && e.member.id !in dj && r <= |z|
    ensures Mirrors(dj[e.member.id := h], InsertAt(z, r, e), InsertAt(list, r, ToRec(h)))
  {
  }

  lemma MirrorsRemove(dj: DeadHashes, z: seq<Entry>, list: seq<DeadRec>, i: nat)
    requires Mirrors(dj, z, list) && i < |z|
    requires forall q :: 0 <= q < |z| && q != i ==> z[q].member.id != z[i].member.id
    ensures Mirrors(dj - {z[i].member.id}, RemoveAt(z, i), RemoveAt(list, i))
  {
  }

  lemma DeadAddPlace(dj: DeadHashes, dz: DeadSets, dead: seq<DeadRec>, lane: Lane, e: Entry, pos: nat)
    requires DeadIndexed(dj, dz) && Mirrored(dj, dz, dead) && pos <= |dead|
    requires Rank(DOf(dz, lane), e) <= |OfLane(dead, lane)|
    requires OfLane(dead[pos..], lane) == OfLane(dead, lane)[Rank(DOf(dz, lane), e)..]
    ensures TiePosition(dead, lane, e.score, pos)
  {
    var z, list, r := DOf(dz, lane), OfLane(dead, lane), Rank(DOf(dz, lane), e);
    assert LaneFiled(dj, dz, lane) && LaneMirrored(dj, dz, dead, lane);
    forall k | pos <= k < |dead| && dead[k].env.lane == lane ensures dead[k].deadAt >= e.score {
      OfLaneAt(dead[pos..], lane, k - pos);
      var q := r + |OfLane(dead[pos..][..k - pos], lane)|;
      assert list[q] == dead[k];
      assert z[q].score == list[q].deadAt;
      assert q > r ==> Below(z[r], z[q]);
    }
  }

  lemma DeadAddFiled(dj: DeadHashes, dz: DeadSets, id: JobId, h: DeadHash)
    requires DeadIndexed(dj, dz) && id !in dj
    requires h.member.id == id && h.env.id == id && h.env.lane == h.lane && h.env.priority == h.priority
    ensures DeadIndexed(dj[id := h], dz[h.lane := ZInsert(DOf(dz, h.lane), Entry(h.deadAt, h.member))])
  {
    var dj', dz' := dj[id := h], dz[h.lane := ZInsert(DOf(dz, h.lane), Entry(h.deadAt, h.member))];
    forall lane ensures LaneFiled(dj', dz', lane) {
      AddLane(dj, dz, id, h, lane);
    }
    forall x | x in dj' ensures Ranks(dj', dz', x) {
      AddRanks(dj, dz, id, h, x);
    }
  }

  lemma AddLane(dj: DeadHashes, dz: DeadSets, id: JobId, h: DeadHash, lane: Lane)
    requires DeadIndexed(dj, dz) && id !in dj
    requires h.member.id == id && h.env.id == id && h.env.lane == h.lane && h.env.priority == h.priority
    ensures LaneFiled(dj[id := h], dz[h.lane := ZInsert(DOf(dz, h.lane), Entry(h.deadAt, h.member))], lane)
  {
    assert LaneFiled(dj, dz, lane);
    if lane == h.lane {
      RankedInsert(DOf(dz, h.lane), Entry(h.deadAt, h.member));
    }
  }

  lemma AddRanks(dj: DeadHashes, dz: DeadSets, id: JobId, h: DeadHash, x: JobId)
    requires DeadIndexed(dj, dz) && h.member.id == id && x in dj[id := h]
    ensures Ranks(dj[id := h], dz[h.lane := ZInsert(DOf(dz, h.lane), Entry(h.deadAt, h.member))], x)
  {
    assert x in dj ==> Ranks(dj, dz, x);
    var g := dj[id := h][x];
    if g.lane == h.lane {
      PresentInsert(DOf(dz, h.lane), Entry(h.deadAt, h.member), g.member);
    }
  }

  /** Cutting `c` entries off the low end of a lane, with their hashes. */
  lemma DeadCut(dj: DeadHashes, dz: DeadSets, dead: seq<DeadRec>, dead': seq<DeadRec>, lane: Lane, c: nat)
    requires DeadIndexed(dj, dz) && Mirrored(dj, dz, dead) && c <= |DOf(dz, lane)|
    requires |OfLane(dead, lane)| >= c && OfLane(dead', lane) == OfLane(dead, lane)[c..]
    requires forall other :: other != lane ==> OfLane(dead', other) == OfLane(dead, other)
    ensures var z := DOf(dz, lane);
            var dj', dz' := dj - MemberIds(z[..c]), dz[lane := z[c..]];
            DeadIndexed(dj', dz') && Mirrored(dj', dz', dead')
  {
    var z := DOf(dz, lane);
    var dj', dz' := dj - MemberIds(z[..c]), dz[lane := z[c..]];
    forall other ensures LaneFiled(dj', dz', other) && LaneMirrored(dj', dz', dead', other) {
      if other == lane {
        CutOwnLane(dj, dz, dead, dead', lane, c);
      } else {
        CutOtherLane(dj, dz, dead, dead', lane, c, other);
      }
    }
    forall x | x in dj' ensures Ranks(dj', dz', x) {
      CutRanks(dj, dz, lane, c, x);
    }
  }

  lemma CutSpares(dj: DeadHashes, dz: DeadSets, lane: Lane, c: nat, other: Lane, k: nat)
    requires DeadIndexed(dj, dz) && c <= |DOf(dz, lane)| && k < |DOf(dz, other)| && (other == lane ==> c <= k)
    ensures DOf(dz, other)[k].member.id !in MemberIds(DOf(dz, lane)[..c])
  {
    if DOf(dz, other)[k].member.id in MemberIds(DOf(dz, lane)[..c]) {
      var i :| 0 <= i < c && DOf(dz, lane)[..c][i].member.id == DOf(dz, other)[k].member.id;
      IdsDiffer(dj, dz, lane, i, other, k);
    }
  }

  /** Entries whose hashes all stay are filed and mirrored as before. */
  lemma StillFiled(dj: DeadHashes, gone: set<JobId>, lane: Lane, z: seq<Entry>, list: seq<DeadRec>)
    requires Ranked(z) && Mirrors(dj, z, list) && forall k :: 0 <= k < |z| ==> Filed(dj, lane, z[k])
    requires forall k :: 0 <= k < |z| ==> z[k].member.id !in gone
    ensures Mirrors(dj - gone, z, list) && forall k :: 0 <= k < |z| ==> Filed(dj - gone, lane, z[k])
  {
  }

  lemma CutOwnLane(dj: DeadHashes, dz: DeadSets, dead: seq<DeadRec>, dead': seq<DeadRec>, lane: Lane, c: nat)
    requires DeadIndexed(dj, dz) && LaneMirrored(dj, dz, dead, lane) && c <= |DOf(dz, lane)|
    requires |OfLane(dead, lane)| >= c && OfLane(dead', lane) == OfLane(dead, lane)[c..]
    ensures var z := DOf(dz, lane);
            var dj', dz' := dj - MemberIds(z[..c]), dz[lane := z[c..]];
            LaneFiled(dj', dz', lane) && LaneMirrored(dj', dz', dead', lane)
  {
    var z := DOf(dz, lane);
    forall k | c <= k < |z| ensures z[k].member.id !in MemberIds(z[..c]) {
      CutSpares(dj, dz, lane, c, lane, k);
    }
    assert LaneFiled(dj, dz, lane);
    StillFiled(dj, MemberIds(z[..c]), lane, z[c..], OfLane(dead', lane));
  }

  lemma CutOtherLane(dj: DeadHashes, dz: DeadSets, dead: seq<DeadRec>, dead': seq<DeadRec>, lane: Lane, c: nat,
                     other: Lane)
    requires DeadIndexed(dj, dz) && LaneMirrored(dj, dz, dead, other) && c <= |DOf(dz, lane)|
    requires other != lane && OfLane(dead', other) == OfLane(dead, other)
    ensures var z := DOf(dz, lane);
            var dj', dz' := dj - MemberIds(z[..c]), dz[lane := z[c..]];
            LaneFiled(dj', dz', other) && LaneMirrored(dj', dz', dead', other)
  {
    var z, y := DOf(dz, lane), DOf(dz, other);
    forall k | 0 <= k < |y| ensures y[k].member.id !in MemberIds(z[..c]) {
      CutSpares(dj, dz, lane, c, other, k);
    }
    assert LaneFiled(dj, dz, other);
    StillFiled(dj, MemberIds(z[..c]), other, y, OfLane(dead', other));
  }

  lemma CutRanks(dj: DeadHashes, dz: DeadSets, lane: Lane, c: nat, x: JobId)
    requires DeadIndexed(dj, dz) && c <= |DOf(dz, lane)| && x in dj && x !in MemberIds(DOf(dz, lane)[..c])
    ensures var z := DOf(dz, lane); Ranks(dj - MemberIds(z[..c]), dz[lane := z[c..]], x)
  {
  }

  /** Taking one record out. */
  lemma DeadRemove(dj: DeadHashes, dz: DeadSets, dead: seq<DeadRec>, k: nat, lane: Lane, i: nat)
    requires DeadIndexed(dj, dz) && Mirrored(dj, dz, dead) && k < |dead|
    requires dead[k].env.lane == lane && i == |OfLane(dead[..k], lane)| && i < |DOf(dz, lane)|
    ensures var z := DOf(dz, lane);
            var dj', dz' := dj - {z[i].member.id}, dz[lane := RemoveAt(z, i)];
            DeadIndexed(dj', dz') && Mirrored(dj', dz', RemoveAt(dead, k))
  {
    var z := DOf(dz, lane);
    var dj', dz' := dj - {z[i].member.id}, dz[lane := RemoveAt(z, i)];
    var dead' := RemoveAt(dead, k);
    forall other ensures LaneFiled(dj', dz', other) && LaneMirrored(dj', dz', dead', other) {
      OfLaneRemove(dead, k, other);
      if other == lane {
        RemoveOwnLane(dj, dz, dead, dead', lane, i);
      } else {
        RemoveOtherLane(dj, dz, dead, dead', lane, i, other);
      }
    }
    forall x | x in dj' ensures Ranks(dj', dz', x) {
      RemoveRanks(dj, dz, lane, i, x);
    }
  }

  lemma RemoveSpares(dj: DeadHashes, dz: DeadSets, lane: Lane, i: nat, other: Lane, q: nat)
    requires DeadIndexed(dj, dz) && i < |DOf(dz, lane)| && q < |DOf(dz, other)| && (other == lane ==> q != i)
    ensures DOf(dz, other)[q].member.id != DOf(dz, lane)[i].member.id
  {
    if DOf(dz, other)[q].member.id == DOf(dz, lane)[i].member.id {
      IdsDiffer(dj, dz, lane, i, other, q);
    }
  }

  lemma RemoveOwnLane(dj: DeadHashes, dz: DeadSets, dead: seq<DeadRec>, dead': seq<DeadRec>, lane: Lane, i: nat)
    requires DeadIndexed(dj, dz) && LaneMirrored(dj, dz, dead, lane) && i < |DOf(dz, lane)|
    requires i < |OfLane(dead, lane)| && OfLane(dead', lane) == RemoveAt(OfLane(dead, lane), i)
    ensures var z := DOf(dz, lane);
            var dj', dz' := dj - {z[i].member.id}, dz[lane := RemoveAt(z, i)];
            LaneFiled(dj', dz', lane) && LaneMirrored(dj', dz', dead', lane)
  {
    var z := DOf(dz, lane);
    forall q | 0 <= q < |z| && q != i ensures z[q].member.id != z[i].member.id {
      RemoveSpares(dj, dz, lane, i, lane, q);
    }
    assert LaneFiled(dj, dz, lane);
    MirrorsRemove(dj, z, OfLane(dead, lane), i);
    FiledRemove(dj, lane, z, i);
  }

  lemma RemoveOtherLane(dj: DeadHashes, dz: DeadSets, dead: seq<DeadRec>, dead': seq<DeadRec>, lane: Lane, i: nat,
                        other: Lane)
    requires DeadIndexed(dj, dz) && LaneMirrored(dj, dz, dead, other) && i < |DOf(dz, lane)|
    requires other != lane && OfLane(dead', other) == OfLane(dead, other)
    ensures var z := DOf(dz, lane);
            var dj', dz' := dj - {z[i].member.id}, dz[lane := RemoveAt(z, i)];
            LaneFiled(dj', dz', other) && LaneMirrored(dj', dz', dead', other)
  {
    var z, y := DOf(dz, lane), DOf(dz, other);
    forall q | 0 <= q < |y| ensures y[q].member.id !in {z[i].member.id} {
      RemoveSpares(dj, dz, lane, i, other, q);
    }
    assert LaneFiled(dj, dz, other);
    StillFiled(dj, {z[i].member.id}, other, y, OfLane(dead', other));
  }

  lemma FiledRemove(dj: DeadHashes, lane: Lane, z: seq<Entry>, i: nat)
    requires Ranked(z) && i < |z| && forall q :: 0 <= q < |z| ==> Filed(dj, lane, z[q])
    requires forall q :: 0 <= q < |z| && q != i ==> z[q].member.id != z[i].member.id
    ensures Ranked(RemoveAt(z, i))
    ensures forall q :: 0 <= q < |RemoveAt(z, i)| ==> Filed(dj - {z[i].member.id}, lane, RemoveAt(z, i)[q])
  {
  }

  lemma PresentWithout(z: seq<Entry>, i: nat, m: Member)
    requires i < |z| && Present(z, m) && z[i].member != m
    ensures Present(RemoveAt(z, i), m)
  {
    var q :| 0 <= q < |z| && z[q].member == m;
    assert RemoveAt(z, i)[if q < i then q else q - 1].member == m;
  }

  lemma RemoveRanks(dj: DeadHashes, dz: DeadSets, lane: Lane, i: nat, x: JobId)
    requires DeadIndexed(dj, dz) && i < |DOf(dz, lane)| && x in dj && x != DOf(dz, lane)[i].member.id
    ensures var z := DOf(dz, lane); Ranks(dj - {z[i].member.id}, dz[lane := RemoveAt(z, i)], x)
  {
    assert Ranks(dj, dz, x);
    if dj[x].lane == lane {
      PresentWithout(DOf(dz, lane), i, dj[x].member);
    }
  }

  /** The record of `id` sits where its hash says. */
  lemma Locate(dj: DeadHashes, dz: DeadSets, dead: seq<DeadRec>, id: JobId) returns (k: nat, i: nat)
    requires DeadIndexed(dj, dz) && Mirrored(dj, dz, dead) && id in dj
    ensures k < |dead| && DeadIndex(dead, id) == Some(k) && dead[k] == ToRec(dj[id])
    ensures dead[k].env.lane == dj[id].lane && i == |OfLane(dead[..k], dj[id].lane)|
    ensures i < |DOf(dz, dj[id].lane)| && DOf(dz, dj[id].lane)[i].member == dj[id].member
  {
    var lane := dj[id].lane;
    var z := DOf(dz, lane);
    assert Ranks(dj, dz, id);
    i :| 0 <= i < |z| && z[i].member == dj[id].member;
    assert LaneFiled(dj, dz, lane) && LaneMirrored(dj, dz, dead, lane);
    k := OfLaneMember(dead, lane, i);
    var f := DeadIndex(dead, id).value;
    Appears(dj, dz, dead, f);
    IdsDiffer(dj, dz, lane, i, dead[f].env.lane, |OfLane(dead[..f], dead[f].env.lane)|);
    SameCut(dead, lane, f, k);
  }

  lemma SameCut(dead: seq<DeadRec>, lane: Lane, a: nat, b: nat)
    requires a < |dead| && b < |dead| && dead[a].env.lane == lane && dead[b].env.lane == lane
    requires |OfLane(dead[..a], lane)| == |OfLane(dead[..b], lane)|
    ensures a == b
  {
    if a < b {
      CutsGrow(dead, lane, a, b);
    } else if b < a {
      CutsGrow(dead, lane, b, a);
    }
  }

  lemma CutsGrow(dead: seq<DeadRec>, lane: Lane, a: nat, b: nat)
    requires a < b <= |dead| && dead[a].env.lane == lane
    ensures |OfLane(dead[..a], lane)| < |OfLane(dead[..b], lane)|
  {
    OfLaneAt(dead[..b], lane, a);
    assert dead[..b][..a] == dead[..a];
  }

  /** Every record of the list is filed under its own id. */
  lemma Appears(dj: DeadHashes, dz: DeadSets, dead: seq<DeadRec>, k: nat)
    requires DeadIndexed(dj, dz) && Mirrored(dj, dz, dead) && k < |dead|
    ensures var lane := dead[k].env.lane;
            var i := |OfLane(dead[..k], lane)|;
            i < |DOf(dz, lane)| && DOf(dz, lane)[i].member.id == dead[k].env.id
    ensures dead[k].env.id in dj
  {
    var lane := dead[k].env.lane;
    OfLaneAt(dead, lane, k);
    assert LaneFiled(dj, dz, lane) && LaneMirrored(dj, dz, dead, lane);
  }

  lemma HasDeadIff(dj: DeadHashes, dz: DeadSets, dead: seq<DeadRec>, id: JobId)
    requires DeadIndexed(dj, dz) && Mirrored(dj, dz, dead)
    ensures id in dj <==> HasDead(dead, id)
    ensures id in dj <==> DeadIndex(dead, id).Some?
  {
    if id in dj {
      var k, i := Locate(dj, dz, dead, id);
    }
    if DeadIndex(dead, id).Some? {
      Appears(dj, dz, dead, DeadIndex(dead, id).value);
    }
  }

  // ------------------------------------------------------------------- prune

  /** Entries below the cutoff; in rank order they come first. */
  function Aged(z: seq<Entry>, cutoff: int): (n: nat)
    ensures n <= |z|
    ensures forall i :: 0 <= i < n ==> z[i].score < cutoff
    ensures n < |z| ==> z[n].score >= cutoff
  {
    if z == [] || z[0].score >= cutoff then 0 else 1 + Aged(z[1..], cutoff)
  }

  /** The entries the age bound removes, given the flag that says whether there is one. */
  function AgedOut(ret: Retention, z: seq<Entry>, now: nat): (n: nat)
    ensures n <= |z|
  {
    if ret.maxAge.Some? then Aged(z, SignedCutoff(now, ret.maxAge.value)) else 0
  }

  lemma RecordTimes(dj: DeadHashes, dz: DeadSets, dead: seq<DeadRec>, lane: Lane)
    requires DeadIndexed(dj, dz) && Mirrored(dj, dz, dead)
    ensures Ranked(DOf(dz, lane)) && |DOf(dz, lane)| == |OfLane(dead, lane)|
    ensures forall k :: 0 <= k < |DOf(dz, lane)| ==> DOf(dz, lane)[k].score == OfLane(dead, lane)[k].deadAt
  {
    assert LaneFiled(dj, dz, lane) && LaneMirrored(dj, dz, dead, lane);
  }

  lemma AgedIsOld(ret: Retention, z: seq<Entry>, list: seq<DeadRec>, now: nat, k: nat)
    requires Ranked(z) && k < |z| == |list| && z[k].score == list[k].deadAt && now <= I64_MAX
    ensures Young(ret, list[k], now) == (AgedOut(ret, z, now) <= k)
  {
  }

  /** What a script prunes in all: the aged entries, then the excess over the count bound. */
  function CutOff(ret: Retention, z: seq<Entry>, now: nat): (c: nat)
    ensures c <= |z|
  {
    var n := AgedOut(ret, z, now);
    if ret.maxCount.Some? then n + Excess(|z| - n, ret.maxCount.value) else n
  }

  lemma PruneIsCut(ret: Retention, z: seq<Entry>, dead: seq<DeadRec>, lane: Lane, now: nat)
    requires Ranked(z) && |z| == |OfLane(dead, lane)| && now <= I64_MAX
    requires forall k :: 0 <= k < |z| ==> z[k].score == OfLane(dead, lane)[k].deadAt
    ensures OfLane(Prune(ret, dead, lane, now), lane) == OfLane(dead, lane)[CutOff(ret, z, now)..]
    ensures forall other :: other != lane ==> OfLane(Prune(ret, dead, lane, now), other) == OfLane(dead, other)
  {
    var list, n := OfLane(dead, lane), AgedOut(ret, z, now);
    forall k | 0 <= k < |list| ensures Young(ret, list[k], now) == (n <= k) {
      AgedIsOld(ret, z, list, now, k);
    }
    PruneOfLane(ret, dead, lane, now, lane, n);
    forall other | other != lane ensures OfLane(Prune(ret, dead, lane, now), other) == OfLane(dead, other) {
      PruneOfLane(ret, dead, lane, now, other, n);
    }
  }

  /** Pruning a lane's ZSET by score and rank is the contract's prune. */
  lemma DeadPrune(ret: Retention, dj: DeadHashes, dz: DeadSets, dead: seq<DeadRec>, lane: Lane, now: nat)
    requires DeadIndexed(dj, dz) && Mirrored(dj, dz, dead) && now <= I64_MAX
    ensures var z := DOf(dz, lane);
            var c := CutOff(ret, z, now);
            var dj', dz' := dj - MemberIds(z[..c]), dz[lane := z[c..]];
            DeadIndexed(dj', dz') && Mirrored(dj', dz', Prune(ret, dead, lane, now))
  {
    RecordTimes(dj, dz, dead, lane);
    PruneIsCut(ret, DOf(dz, lane), dead, lane, now);
    DeadCut(dj, dz, dead, Prune(ret, dead, lane, now), lane, CutOff(ret, DOf(dz, lane), now));
  }
}
