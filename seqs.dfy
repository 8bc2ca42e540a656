/**
 * Order-preserving selection from a sequence.
 *
 * Python's `list(filter(f, xs))`, SQL `WHERE` clauses over a table and the
 * list comprehensions of the booking application all keep some elements of a
 * sequence, in their original order. Here the decision for each position is
 * given as a mask `keep`, so that a predicate that reads the clock afresh for
 * every element can be written down as well as a plain one.
 */
module Seqs {

  /** The elements `s[i]` with `keep[i]`, in their original order (built by appending, as filter does). */
  function Pick<T>(s: seq<T>, keep: seq<bool>): (r: seq<T>)
    requires |keep| == |s|
    ensures |r| <= |s|
  {
    if s == [] then []
    else Pick(s[..|s| - 1], keep[..|s| - 1]) + (if keep[|s| - 1] then [s[|s| - 1]] else [])
  }

  /** The positions `i` with `keep[i]`, ascending: an independent description of what Pick keeps. */
  function Kept(keep: seq<bool>): (idx: seq<nat>)
    ensures forall k :: 0 <= k < |idx| ==> idx[k] < |keep|
  {
    if keep == [] then []
    else Kept(keep[..|keep| - 1]) + (if keep[|keep| - 1] then [|keep| - 1] else [])
  }

  /** The positions `i` with `keep[i]`, as a set. */
  ghost function IndexSet(keep: seq<bool>): set<nat>
  {
    set i: nat | i < |keep| && keep[i]
  }

  ghost predicate Increasing(idx: seq<nat>)
  {
    forall a, b :: 0 <= a < b < |idx| ==> idx[a] < idx[b]
  }

  /** Pointwise "neither mask holds". */
  function Neither(k1: seq<bool>, k2: seq<bool>): (n: seq<bool>)
    requires |k1| == |k2|
    ensures |n| == |k1|
  {
    seq(|k1|, i requires 0 <= i < |k1| => !k1[i] && !k2[i])
  }

  /** Kept lists every selected position exactly once, in ascending order, and nothing else. */
  lemma {:induction false} KeptExactly(keep: seq<bool>)
    ensures Increasing(Kept(keep))
    ensures forall i :: 0 <= i < |keep| ==> (keep[i] <==> i in Kept(keep))
  {
    if keep != [] {
      var n := |keep| - 1;
      KeptExactly(keep[..n]);
      forall i | 0 <= i < n ensures keep[i] == keep[..n][i] { }
    }
  }

  /** The k-th element Pick returns is the input element at the k-th selected position. */
  lemma {:induction false} PickAt<T>(s: seq<T>, keep: seq<bool>)
    requires |keep| == |s|
    ensures |Pick(s, keep)| == |Kept(keep)|
    ensures forall k :: 0 <= k < |Kept(keep)| ==> Pick(s, keep)[k] == s[Kept(keep)[k]]
  {
    if s != [] {
      var n := |s| - 1;
      PickAt(s[..n], keep[..n]);
    }
  }

  /** An element is returned by Pick exactly when it sits at some selected position. */
  lemma PickMember<T>(s: seq<T>, keep: seq<bool>, x: T)
    requires |keep| == |s|
    ensures x in Pick(s, keep) <==> exists i :: 0 <= i < |s| && keep[i] && s[i] == x
  {
    PickAt(s, keep);
    KeptExactly(keep);
    var r, idx := Pick(s, keep), Kept(keep);
    if x in r {
      var k :| 0 <= k < |r| && r[k] == x;
      assert keep[idx[k]] && s[idx[k]] == x;
    }
    if i :| 0 <= i < |s| && keep[i] && s[i] == x {
      var k :| 0 <= k < |idx| && idx[k] == i;
      assert r[k] == x;
    }
  }

  /** With every position selected, Pick is the identity. */
  lemma {:induction false} PickAll<T>(s: seq<T>, keep: seq<bool>)
    requires |keep| == |s|
    requires forall i :: 0 <= i < |keep| ==> keep[i]
    ensures Pick(s, keep) == s
  {
    if s != [] {
      var n := |s| - 1;
      PickAll(s[..n], keep[..n]);
      assert s[..n] + [s[n]] == s;
    }
  }

  /** The number of selected positions is the size of the set of selected positions. */
  lemma {:induction false} KeptCount(keep: seq<bool>)
    ensures |Kept(keep)| == |IndexSet(keep)|
  {
    if keep != [] {
      var n := |keep| - 1;
      KeptCount(keep[..n]);
      var before := IndexSet(keep[..n]);
      assert n !in before;
      if keep[n] {
        assert IndexSet(keep) == before + {n};
      } else {
        assert IndexSet(keep) == before;
      }
    }
  }

  /** No position selected iff nothing kept. */
  lemma KeptNone(keep: seq<bool>)
    ensures |Kept(keep)| == 0 <==> forall i :: 0 <= i < |keep| ==> !keep[i]
  {
    KeptExactly(keep);
  }

  /**
   * Two masks that never both hold split the positions three ways: the
   * selections of each mask and the positions that neither selects.
   */
  lemma {:induction false} KeptSplit(k1: seq<bool>, k2: seq<bool>)
    requires |k1| == |k2|
    requires forall i :: 0 <= i < |k1| ==> !(k1[i] && k2[i])
    ensures |Kept(k1)| + |Kept(k2)| + |Kept(Neither(k1, k2))| == |k1|
  {
    if k1 != [] {
      var n := |k1| - 1;
      KeptSplit(k1[..n], k2[..n]);
      assert Neither(k1, k2)[..n] == Neither(k1[..n], k2[..n]);
    }
  }
}
