/** The list shape shared by the lesson and quiz stores: a built-in catalog
    prefix followed by user-authored entries, the positional rule that guards
    the prefix against deletion, and `remove(atOffsets:)`. */
module ContentList {

  /** The deletion guard of `deleteLesson` and `deleteQuiz`: every offset below
      the built-in count is mapped to 0, and the request is refused when the
      mapped set contains 0. */
  predicate DeletionRejected(offsets: set<nat>, builtInCount: nat) {
    0 in (set i | i in offsets :: if i < builtInCount then 0 else i)
  }

  /** The guard refuses exactly the requests that touch the built-in prefix or
      name position 0; with an empty catalog, position 0 is still refused. */
  lemma DeletionRejectedExactly(offsets: set<nat>, builtInCount: nat)
    ensures DeletionRejected(offsets, builtInCount) <==>
            exists i :: i in offsets && (i < builtInCount || i == 0)
  {
    var adjusted := set i | i in offsets :: if i < builtInCount then 0 else i;
    if exists i :: i in offsets && (i < builtInCount || i == 0) {
      var i :| i in offsets && (i < builtInCount || i == 0);
      assert (if i < builtInCount then 0 else i) in adjusted;
    }
  }

  /** `remove(atOffsets:)`: the elements whose positions are not in `offsets`,
      in their original order. */
  function RemoveOffsets<T>(s: seq<T>, offsets: set<nat>): (r: seq<T>)
    ensures |r| <= |s|
    ensures multiset(r) <= multiset(s)
    decreases |s|
  {
    assert s != [] ==> s == s[..|s| - 1] + [s[|s| - 1]];
    if s == [] then []
    else RemoveOffsets(s[..|s| - 1], offsets) + (if |s| - 1 in offsets then [] else [s[|s| - 1]])
  }

  /** The positions of `s` named in `offsets`. */
  function Hit(s: nat, offsets: set<nat>): set<nat> {
    set i | i in offsets && i < s
  }

  /** Exactly the named positions go: the length drops by the number of them. */
  lemma {:induction false} RemoveOffsetsLength<T>(s: seq<T>, offsets: set<nat>)
    ensures |RemoveOffsets(s, offsets)| == |s| - |Hit(|s|, offsets)|
    decreases |s|
  {
    if s != [] {
      var n := |s| - 1;
      RemoveOffsetsLength(s[..n], offsets);
      assert |RemoveOffsets(s, offsets)| == |RemoveOffsets(s[..n], offsets)| + (if n in offsets then 0 else 1);
      HitStep(n, offsets);
    }
  }

  /** Exactly the unnamed positions survive, in order: the element at an
      unnamed position `i` moves down by the number of named positions
      before it. */
  lemma {:induction false} RemoveOffsetsAt<T>(s: seq<T>, offsets: set<nat>, i: nat)
    requires i < |s| && i !in offsets
    ensures |Hit(i, offsets)| <= i
    ensures i - |Hit(i, offsets)| < |RemoveOffsets(s, offsets)|
    ensures RemoveOffsets(s, offsets)[i - |Hit(i, offsets)|] == s[i]
    decreases |s|
  {
    var n := |s| - 1;
    var prefix := s[..n];
    var kept := RemoveOffsets(prefix, offsets);
    var last: seq<T> := if n in offsets then [] else [s[n]];
    assert RemoveOffsets(s, offsets) == kept + last;
    HitBound(i, offsets);
    if i < n {
      RemoveOffsetsAt(prefix, offsets, i);
      assert prefix[i] == s[i];
      RemoveOffsetsLength(prefix, offsets);
      HitGrowth(i, n, offsets);
      assert |Hit(n, offsets)| == |Hit(|prefix|, offsets)|;
      assert i - |Hit(i, offsets)| < |kept|;
      assert (kept + last)[i - |Hit(i, offsets)|] == kept[i - |Hit(i, offsets)|];
    } else {
      RemoveOffsetsLength(prefix, offsets);
      assert last == [s[i]];
      assert |kept| == i - |Hit(i, offsets)|;
    }
  }

  /** At most all of the first `n` positions are named. */
  lemma {:induction false} HitBound(n: nat, offsets: set<nat>)
    ensures |Hit(n, offsets)| <= n
    decreases n
  {
    if n > 0 {
      HitBound(n - 1, offsets);
      HitStep(n - 1, offsets);
    }
  }

  /** Past an unnamed position `i`, at most the positions strictly between
      `i` and `n` are named. */
  lemma {:induction false} HitGrowth(i: nat, n: nat, offsets: set<nat>)
    requires i < n && i !in offsets
    ensures |Hit(n, offsets)| <= |Hit(i, offsets)| + (n - i - 1)
    decreases n
  {
    HitStep(n - 1, offsets);
    if n - 1 > i {
      HitGrowth(i, n - 1, offsets);
    }
  }

  /** One more position: it is named or it is not. */
  lemma HitStep(n: nat, offsets: set<nat>)
    ensures |Hit(n + 1, offsets)| == |Hit(n, offsets)| + (if n in offsets then 1 else 0)
  {
    if n in offsets {
      assert Hit(n + 1, offsets) == Hit(n, offsets) + {n};
    } else {
      assert Hit(n + 1, offsets) == Hit(n, offsets);
    }
  }

  /** When no offset falls below `k`, the first `k` elements survive in place. */
  lemma {:induction false} RemoveOffsetsKeepsPrefix<T>(s: seq<T>, offsets: set<nat>, k: nat)
    requires k <= |s|
    requires forall i :: i in offsets ==> i >= k
    ensures k <= |RemoveOffsets(s, offsets)|
    ensures RemoveOffsets(s, offsets)[..k] == s[..k]
    decreases |s|
  {
    if |s| > k {
      var n := |s| - 1;
      RemoveOffsetsKeepsPrefix(s[..n], offsets, k);
      assert s[..n][..k] == s[..k];
    } else {
      RemoveOffsetsNone(s, offsets);
    }
  }

  /** Offsets at or past the end remove nothing. */
  lemma {:induction false} RemoveOffsetsNone<T>(s: seq<T>, offsets: set<nat>)
    requires forall i :: i in offsets ==> i >= |s|
    ensures RemoveOffsets(s, offsets) == s
    decreases |s|
  {
    if s != [] {
      var n := |s| - 1;
      RemoveOffsetsNone(s[..n], offsets);
      assert n !in offsets;
      assert RemoveOffsets(s, offsets) == s[..n] + [s[n]];
      LastSplit(s);
    }
  }

  /** A non-empty list is its front followed by its last element. */
  lemma LastSplit<T>(s: seq<T>)
    requires s != []
    ensures s[..|s| - 1] + [s[|s| - 1]] == s
  {
  }

  /** Every surviving element was in the list before. */
  lemma {:induction false} RemoveOffsetsSubset<T>(s: seq<T>, offsets: set<nat>, x: T)
    requires x in RemoveOffsets(s, offsets)
    ensures exists i :: 0 <= i < |s| && i !in offsets && s[i] == x
    decreases |s|
  {
    var n := |s| - 1;
    if x in RemoveOffsets(s[..n], offsets) {
      RemoveOffsetsSubset(s[..n], offsets, x);
      var i :| 0 <= i < n && i !in offsets && s[..n][i] == x;
      assert s[i] == x;
    } else {
      assert n !in offsets && s[n] == x;
    }
  }

  /** Removing positions at or past the catalog length leaves the catalog
      prefix in place and removes only from the custom suffix. */
  lemma DeletionKeepsCatalog<T>(s: seq<T>, offsets: set<nat>, catalog: seq<T>)
    requires |catalog| <= |s| && s[..|catalog|] == catalog
    requires !DeletionRejected(offsets, |catalog|)
    ensures |catalog| <= |RemoveOffsets(s, offsets)|
    ensures RemoveOffsets(s, offsets)[..|catalog|] == catalog
  {
    DeletionRejectedExactly(offsets, |catalog|);
    RemoveOffsetsKeepsPrefix(s, offsets, |catalog|);
  }
}
