/** Sequence surgery shared by the broker models. */
module Lists {

  function RemoveAt<T>(s: seq<T>, i: nat): seq<T>
    requires i < |s|
  {
    s[..i] + s[i + 1..]
  }

  function InsertAt<T>(s: seq<T>, i: nat, x: T): seq<T>
    requires i <= |s|
  {
    s[..i] + [x] + s[i..]
  }

  /** The elements whose flag is set, in order. */
  function Pick<T>(s: seq<T>, keep: seq<bool>): (r: seq<T>)
    requires |s| == |keep|
  {
    if s == [] then []
    else Pick(s[..|s| - 1], keep[..|s| - 1]) + (if keep[|s| - 1] then [s[|s| - 1]] else [])
  }

  /** How many flags are set: the length of every picked list. */
  function Tally(keep: seq<bool>): nat {
    if keep == [] then 0
    else Tally(keep[..|keep| - 1]) + (if keep[|keep| - 1] then 1 else 0)
  }

  lemma {:induction false} PickLength<T>(s: seq<T>, keep: seq<bool>)
    requires |s| == |keep|
    ensures |Pick(s, keep)| == Tally(keep)
  {
    if s != [] {
      PickLength(s[..|s| - 1], keep[..|s| - 1]);
    }
  }

  /** Where the `k`-th element lands in the picked list, if it is kept. */
  function Slot(keep: seq<bool>, k: nat): nat
    requires k <= |keep|
  {
    Tally(keep[..k])
  }

  lemma {:induction false} TallySplit(keep: seq<bool>, k: nat, m: nat)
    requires k <= m <= |keep|
    ensures Slot(keep, k) <= Slot(keep, m)
    ensures k < m && keep[k] ==> Slot(keep, k) < Slot(keep, m)
  {
    if k < m {
      assert keep[..m][..m - 1] == keep[..m - 1];
      TallySplit(keep, k, m - 1);
    }
  }

  /** Kept elements survive at their slot. */
  lemma {:induction false} PickKeeps<T>(s: seq<T>, keep: seq<bool>, k: nat)
    requires |s| == |keep| && k < |s| && keep[k]
    ensures Slot(keep, k) < |Pick(s, keep)|
    ensures Pick(s, keep)[Slot(keep, k)] == s[k]
  {
    var n := |s| - 1;
    PickLength(s, keep);
    PickLength(s[..n], keep[..n]);
    if k == n {
      assert keep[..k] == keep[..n];
    } else {
      PickKeeps(s[..n], keep[..n], k);
      assert keep[..n][..k] == keep[..k];
    }
  }

  /** Every picked element comes from a kept position, whose slot is where it sits. */
  lemma {:induction false} PickFrom<T>(s: seq<T>, keep: seq<bool>, i: nat) returns (k: nat)
    requires |s| == |keep| && i < |Pick(s, keep)|
    ensures k < |s| && keep[k] && Slot(keep, k) == i && Pick(s, keep)[i] == s[k]
  {
    var n := |s| - 1;
    PickLength(s, keep);
    PickLength(s[..n], keep[..n]);
    if i < |Pick(s[..n], keep[..n])| {
      k := PickFrom(s[..n], keep[..n], i);
      assert keep[..n][..k] == keep[..k];
    } else {
      k := n;
      assert keep[..k] == keep[..n];
    }
  }

  lemma {:induction false} PickFront<T>(s: seq<T>, keep: seq<bool>)
    requires |s| == |keep| && s != []
    ensures Pick(s, keep) == (if keep[0] then [s[0]] else []) + Pick(s[1..], keep[1..])
  {
    var n := |s| - 1;
    if n > 0 {
      PickFront(s[..n], keep[..n]);
      assert s[..n][1..] == s[1..][..n - 1];
      assert keep[..n][1..] == keep[1..][..n - 1];
    }
  }

  lemma {:induction false} PickAll<T>(s: seq<T>, keep: seq<bool>)
    requires |s| == |keep| && forall k :: 0 <= k < |keep| ==> keep[k]
    ensures Pick(s, keep) == s
  {
    if s != [] {
      PickAll(s[..|s| - 1], keep[..|s| - 1]);
    }
  }
}
