/**
 The Postgres batch protocol: every batch sorts and deduplicates its unique keys,
 takes one advisory lock per key in that order, and releases all of them at commit.
 The order is that of the key texts, while the lock is on their hash.

 Keys are integers compared as their texts compare. `hash` gives a key's lock.
 */
module Locks {
  import opened Types

  type Lock = int

  datatype Txn = Txn(keys: seq<Key>, held: nat, done: bool)

  ghost predicate Sorted(keys: seq<Key>) {
    forall i, k :: 0 <= i < k < |keys| ==> keys[i] < keys[k]
  }

  /** Sort and deduplicate. */
  method LockOrder(wanted: seq<Option<Key>>) returns (keys: seq<Key>)
    ensures Sorted(keys)
    ensures forall key :: key in keys <==> Some(key) in wanted
  {
    keys := [];
    for i := 0 to |wanted|
      invariant Sorted(keys)
      invariant forall key :: key in keys <==> Some(key) in wanted[..i]
    {
      if wanted[i].Some? {
        keys := InsertKey(keys, wanted[i].value);
      }
    }
    assert wanted[..|wanted|] == wanted;
  }

  method InsertKey(keys: seq<Key>, key: Key) returns (more: seq<Key>)
    requires Sorted(keys)
    ensures Sorted(more) && forall k :: k in more <==> k in keys || k == key
  {
    var n := 0;
    while n < |keys| && keys[n] < key
      invariant n <= |keys| && forall i :: 0 <= i < n ==> keys[i] < key
    {
      n := n + 1;
    }
    if n < |keys| && keys[n] == key {
      return keys;
    }
    more := keys[..n] + [key] + keys[n..];
    assert keys == keys[..n] + keys[n..];
  }

  // ------------------------------------------------------------------ steps

  ghost predicate Holds(hash: Key -> Lock, t: Txn, lock: Lock) {
    !t.done && t.held <= |t.keys| && exists m :: 0 <= m < t.held && hash(t.keys[m]) == lock
  }

  /** An advisory lock may be taken again by the transaction that has it. */
  ghost predicate Free(hash: Key -> Lock, s: seq<Txn>, i: nat, lock: Lock) {
    forall k :: 0 <= k < |s| && k != i ==> !Holds(hash, s[k], lock)
  }

  /** Batch `i` can take its next lock, or commit. */
  ghost predicate CanStep(hash: Key -> Lock, s: seq<Txn>, i: nat) {
    && i < |s| && !s[i].done && s[i].held <= |s[i].keys|
    && (s[i].held < |s[i].keys| ==> Free(hash, s, i, hash(s[i].keys[s[i].held])))
  }

  function Stepped(t: Txn): Txn {
    if t.held < |t.keys| then t.(held := t.held + 1) else t.(done := true)
  }

  ghost predicate Reaches(hash: Key -> Lock, s: seq<Txn>, schedule: seq<nat>)
    decreases |schedule|
  {
    schedule != [] ==>
      && CanStep(hash, s, schedule[0])
      && Reaches(hash, s[schedule[0] := Stepped(s[schedule[0]])], schedule[1..])
  }

  ghost function End(hash: Key -> Lock, s: seq<Txn>, schedule: seq<nat>): seq<Txn>
    requires Reaches(hash, s, schedule)
    decreases |schedule|
  {
    if schedule == [] then s
    else End(hash, s[schedule[0] := Stepped(s[schedule[0]])], schedule[1..])
  }

  ghost predicate Start(s: seq<Txn>) {
    forall i :: 0 <= i < |s| ==> Sorted(s[i].keys) && s[i].held == 0 && !s[i].done
  }

  // -------------------------------------------------------------- invariant

  ghost predicate InProgress(t: Txn) {
    Sorted(t.keys) && t.held <= |t.keys|
  }

  ghost predicate Exclusive(hash: Key -> Lock, a: Txn, b: Txn) {
    forall lock :: !(Holds(hash, a, lock) && Holds(hash, b, lock))
  }

  /** No lock is held twice. */
  ghost predicate Inv(hash: Key -> Lock, s: seq<Txn>) {
    && (forall i :: 0 <= i < |s| ==> InProgress(s[i]))
    && (forall i, k :: 0 <= i < |s| && 0 <= k < |s| && i != k ==> Exclusive(hash, s[i], s[k]))
  }

  lemma StepKeepsInv(hash: Key -> Lock, s: seq<Txn>, i: nat)
    requires Inv(hash, s) && CanStep(hash, s, i)
    ensures Inv(hash, s[i := Stepped(s[i])])
  {
  }

  lemma {:induction false} ReachedInv(hash: Key -> Lock, s: seq<Txn>, schedule: seq<nat>)
    requires Inv(hash, s) && Reaches(hash, s, schedule)
    ensures Inv(hash, End(hash, s, schedule))
    decreases |schedule|
  {
    if schedule != [] {
      StepKeepsInv(hash, s, schedule[0]);
      ReachedInv(hash, s[schedule[0] := Stepped(s[schedule[0]])], schedule[1..]);
    }
  }

  // --------------------------------------------------------------- progress

  /** Among the keys in use, those with the same lock are neighbours in key order. */
  ghost predicate Convex(hash: Key -> Lock, ks: iset<Key>) {
    forall a, b, c :: a in ks && b in ks && c in ks && a < b < c && hash(a) == hash(c) ==> hash(b) == hash(a)
  }

  /** Every key of the batches is in use. */
  ghost predicate Within(s: seq<Txn>, ks: iset<Key>) {
    forall i, m :: 0 <= i < |s| && 0 <= m < |s[i].keys| ==> s[i].keys[m] in ks
  }

  lemma {:induction false} ReachedWithin(hash: Key -> Lock, s: seq<Txn>, schedule: seq<nat>, ks: iset<Key>)
    requires Within(s, ks) && Reaches(hash, s, schedule)
    ensures Within(End(hash, s, schedule), ks)
    decreases |schedule|
  {
    if schedule != [] {
      ReachedWithin(hash, s[schedule[0] := Stepped(s[schedule[0]])], schedule[1..], ks);
    }
  }

  ghost predicate Unfinished(s: seq<Txn>) {
    exists i :: 0 <= i < |s| && !s[i].done
  }

  ghost predicate SomeCanStep(hash: Key -> Lock, s: seq<Txn>) {
    exists i :: CanStep(hash, s, i)
  }

  ghost predicate Wants(t: Txn) {
    !t.done && t.held < |t.keys|
  }

  /** The batch whose next key is largest. */
  lemma {:induction false} LargestWanted(s: seq<Txn>) returns (i: nat)
    requires exists k :: 0 <= k < |s| && Wants(s[k])
    ensures i < |s| && Wants(s[i])
    ensures forall k :: 0 <= k < |s| && Wants(s[k]) ==> s[k].keys[s[k].held] <= s[i].keys[s[i].held]
  {
    var n := |s| - 1;
    if exists k :: 0 <= k < n && Wants(s[..n][k]) {
      i := LargestWanted(s[..n]);
      assert forall k :: 0 <= k < n ==> s[..n][k] == s[k];
      if Wants(s[n]) && s[n].keys[s[n].held] > s[i].keys[s[i].held] {
        i := n;
      }
    } else {
      assert forall k :: 0 <= k < n ==> s[..n][k] == s[k];
      i := n;
    }
  }

  /** If the batch with the largest wanted key is blocked, its blocker can step. */
  lemma Progress(hash: Key -> Lock, s: seq<Txn>, ks: iset<Key>)
    requires Convex(hash, ks) && Within(s, ks) && Inv(hash, s) && Unfinished(s)
    ensures SomeCanStep(hash, s)
  {
    var u :| 0 <= u < |s| && !s[u].done;
    assert InProgress(s[u]);
    if !Wants(s[u]) {
      assert CanStep(hash, s, u);
      return;
    }
    var i := LargestWanted(s);
    assert InProgress(s[i]);
    var want := s[i].keys[s[i].held];
    if Free(hash, s, i, hash(want)) {
      assert CanStep(hash, s, i);
      return;
    }
    var j :| 0 <= j < |s| && j != i && Holds(hash, s[j], hash(want));
    assert InProgress(s[j]);
    if Wants(s[j]) {
      var m :| 0 <= m < s[j].held && hash(s[j].keys[m]) == hash(want);
      var next := s[j].keys[s[j].held];
      assert s[j].keys[m] < next <= want;
      assert hash(next) == hash(want);
      forall k | 0 <= k < |s| && k != j ensures !Holds(hash, s[k], hash(next)) {
        assert Exclusive(hash, s[j], s[k]);
      }
    }
    assert CanStep(hash, s, j);
  }

  /** No reachable state of any set of batches over the keys in use is stuck. */
  ghost predicate NeverStuck(hash: Key -> Lock, ks: iset<Key>) {
    forall s, schedule ::
      Start(s) && Within(s, ks) && Reaches(hash, s, schedule) && Unfinished(End(hash, s, schedule)) ==>
        SomeCanStep(hash, End(hash, s, schedule))
  }

  lemma StartInv(hash: Key -> Lock, s: seq<Txn>)
    requires Start(s)
    ensures Inv(hash, s)
  {
  }

  // ------------------------------------------------- where the promise breaks

  /** Two batches that share a lock across an interleaved key, each holding what the other wants. */
  lemma CrossedStuck(hash: Key -> Lock, a: Key, b: Key, c: Key)
    requires a < b < c && hash(a) == hash(c) != hash(b)
    ensures var s := [Txn([a, b], 0, false), Txn([b, c], 0, false)];
            && Start(s) && Reaches(hash, s, [0, 1])
            && Unfinished(End(hash, s, [0, 1])) && !SomeCanStep(hash, End(hash, s, [0, 1]))
  {
    var s0 := [Txn([a, b], 0, false), Txn([b, c], 0, false)];
    var s1 := [Txn([a, b], 1, false), Txn([b, c], 0, false)];
    var s2 := [Txn([a, b], 1, false), Txn([b, c], 1, false)];
    assert s0[0 := Stepped(s0[0])] == s1 && s1[1 := Stepped(s1[1])] == s2;
    assert [0, 1][1..] == [1] && [1][1..] == [];
    assert CanStep(hash, s0, 0);
    assert CanStep(hash, s1, 1);
    assert Reaches(hash, s2, []) && Reaches(hash, s1, [1]) && End(hash, s1, [1]) == s2;
    assert !s2[0].done;
    assert hash(s2[0].keys[0]) == hash(a) && hash(s2[1].keys[0]) == hash(b);
    assert Holds(hash, s2[0], hash(c)) && Holds(hash, s2[1], hash(b));
    forall i ensures !CanStep(hash, s2, i) {
    }
  }

  /** Batches over the keys in use are free of deadlock exactly when those of them that share a lock are neighbours. */
  lemma NeverStuckIff(hash: Key -> Lock, ks: iset<Key>)
    ensures NeverStuck(hash, ks) <==> Convex(hash, ks)
  {
    if Convex(hash, ks) {
      forall s, schedule | Start(s) && Within(s, ks) && Reaches(hash, s, schedule) && Unfinished(End(hash, s, schedule))
        ensures SomeCanStep(hash, End(hash, s, schedule))
      {
        StartInv(hash, s);
        ReachedInv(hash, s, schedule);
        ReachedWithin(hash, s, schedule, ks);
        Progress(hash, End(hash, s, schedule), ks);
      }
    } else {
      var a, b, c :| a in ks && b in ks && c in ks && a < b < c && hash(a) == hash(c) && hash(b) != hash(a);
      CrossedStuck(hash, a, b, c);
      assert Within([Txn([a, b], 0, false), Txn([b, c], 0, false)], ks);
    }
  }

  /** In particular, batches never deadlock when the keys in use have distinct locks. */
  lemma DistinctLocksNeverStuck(hash: Key -> Lock, ks: iset<Key>)
    requires forall a, b :: a in ks && b in ks && hash(a) == hash(b) ==> a == b
    ensures NeverStuck(hash, ks)
  {
    NeverStuckIff(hash, ks);
  }

  // ------------------------------------------------------------- completion

  /** Steps left until every batch has committed. */
  function Left(s: seq<Txn>): nat {
    if s == [] then 0
    else
      var t := s[|s| - 1];
      Left(s[..|s| - 1]) + (if t.done || t.held > |t.keys| then 0 else |t.keys| - t.held + 1)
  }

  /** Every step brings the end nearer. */
  lemma {:induction false} StepShrinks(s: seq<Txn>, i: nat)
    requires i < |s| && !s[i].done && s[i].held <= |s[i].keys|
    ensures Left(s[i := Stepped(s[i])]) + 1 == Left(s)
  {
    var n := |s| - 1;
    if i == n {
      assert s[i := Stepped(s[i])][..n] == s[..n];
    } else {
      StepShrinks(s[..n], i);
      assert s[i := Stepped(s[i])][..n] == s[..n][i := Stepped(s[i])];
    }
  }

  /** From every reachable state, stepping whoever can step ends with every batch committed. */
  lemma {:induction false} AllCommit(hash: Key -> Lock, s: seq<Txn>, ks: iset<Key>) returns (schedule: seq<nat>)
    requires Convex(hash, ks) && Within(s, ks) && Inv(hash, s)
    ensures Reaches(hash, s, schedule) && !Unfinished(End(hash, s, schedule)) && |schedule| == Left(s)
    decreases Left(s)
  {
    if Unfinished(s) {
      Progress(hash, s, ks);
      var i: nat :| CanStep(hash, s, i);
      var t := s[i := Stepped(s[i])];
      StepShrinks(s, i);
      StepKeepsInv(hash, s, i);
      var rest := AllCommit(hash, t, ks);
      schedule := [i] + rest;
      assert schedule[1..] == rest;
    } else {
      schedule := [];
      NothingLeft(s);
    }
  }

  lemma {:induction false} NothingLeft(s: seq<Txn>)
    requires !Unfinished(s)
    ensures Left(s) == 0
  {
    if s != [] {
      var n := |s| - 1;
      assert forall k :: 0 <= k < n ==> s[..n][k] == s[k];
      NothingLeft(s[..n]);
    }
  }
}
