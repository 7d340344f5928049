/**
 `Array.prototype.filter` with a pure predicate: the kept elements, in their
 original order. The search screens are all instances of it.
 */
module Filtering {

  function Filter<T>(xs: seq<T>, keep: T -> bool): (r: seq<T>)
    ensures |r| <= |xs|
    ensures forall k :: 0 <= k < |r| ==> r[k] in xs && keep(r[k])
    ensures forall j :: 0 <= j < |xs| && keep(xs[j]) ==> xs[j] in r
  {
    if |xs| == 0 then []
    else if keep(xs[0]) then [xs[0]] + Filter(xs[1..], keep)
    else Filter(xs[1..], keep)
  }

  /** The positions `idx` of `xs` that were kept, strictly increasing, exactly those whose element passes. */
  ghost predicate SelectsPositions<T>(xs: seq<T>, keep: T -> bool, r: seq<T>, idx: seq<nat>) {
    && |idx| == |r|
    && (forall k :: 0 <= k < |idx| ==> idx[k] < |xs| && r[k] == xs[idx[k]])
    && (forall k, l :: 0 <= k < l < |idx| ==> idx[k] < idx[l])
    && (forall j :: 0 <= j < |xs| ==> (keep(xs[j]) <==> j in idx))
  }

  function Shift(idx: seq<nat>): seq<nat> {
    seq(|idx|, k requires 0 <= k < |idx| => idx[k] + 1)
  }

  /** Where `r` is `xs` at positions `idx`, in increasing order. */
  ghost predicate PicksInOrder<T>(xs: seq<T>, r: seq<T>, idx: seq<nat>) {
    && |idx| == |r|
    && (forall k :: 0 <= k < |idx| ==> idx[k] < |xs| && r[k] == xs[idx[k]])
    && (forall k, l :: 0 <= k < l < |idx| ==> idx[k] < idx[l])
  }

  /** Picking from the tail of a list, one position further on, is picking from the list. */
  lemma ShiftPicks<T>(xs: seq<T>, rt: seq<T>, tail: seq<nat>, off: nat)
    requires |xs| > 0 && off <= 1
    requires PicksInOrder(xs[1..], rt, tail)
    ensures PicksInOrder(xs, if off == 1 then [xs[0]] + rt else rt, if off == 1 then [0] + Shift(tail) else Shift(tail))
  {
    var sh := Shift(tail);
    var idx := if off == 1 then [0] + sh else sh;
    var r := if off == 1 then [xs[0]] + rt else rt;
    forall k | 0 <= k < |idx|
      ensures idx[k] < |xs| && r[k] == xs[idx[k]]
    {
      if k >= off {
        assert idx[k] == tail[k - off] + 1 && r[k] == rt[k - off];
        assert rt[k - off] == xs[1..][tail[k - off]];
      }
    }
    forall k, l | 0 <= k < l < |idx|
      ensures idx[k] < idx[l]
    {
      if k >= off {
        assert idx[k] == tail[k - off] + 1 && idx[l] == tail[l - off] + 1;
      }
    }
  }

  /** The shifted positions of the tail are the positions after the head whose tail position was picked. */
  lemma ShiftMembers<T>(xs: seq<T>, keep: T -> bool, tail: seq<nat>)
    requires |xs| > 0
    requires forall j :: 0 <= j < |xs| - 1 ==> (keep(xs[1..][j]) <==> j in tail)
    ensures var idx := if keep(xs[0]) then [0] + Shift(tail) else Shift(tail);
            forall j :: 0 <= j < |xs| ==> (keep(xs[j]) <==> j in idx)
  {
    var idx := if keep(xs[0]) then [0] + Shift(tail) else Shift(tail);
    var off := if keep(xs[0]) then 1 else 0;
    forall j | 0 <= j < |xs|
      ensures keep(xs[j]) <==> j in idx
    {
      if j > 0 {
        assert xs[j] == xs[1..][j - 1];
        if j - 1 in tail {
          var k :| 0 <= k < |tail| && tail[k] == j - 1;
          assert idx[k + off] == j;
        }
        if j in idx {
          var k :| 0 <= k < |idx| && idx[k] == j;
          assert k >= off;
          assert Shift(tail)[k - off] == j;
        }
      }
    }
  }

  /**
   The result is an order-preserving selection: it is `xs` at a strictly
   increasing list of positions, and those are exactly the positions whose
   element passes.
   */
  lemma {:induction false} FilterSelects<T>(xs: seq<T>, keep: T -> bool) returns (idx: seq<nat>)
    ensures SelectsPositions(xs, keep, Filter(xs, keep), idx)
  {
    if |xs| == 0 {
      idx := [];
    } else {
      var tail := FilterSelects(xs[1..], keep);
      var off: nat := if keep(xs[0]) then 1 else 0;
      ShiftPicks(xs, Filter(xs[1..], keep), tail, off);
      ShiftMembers(xs, keep, tail);
      idx := if keep(xs[0]) then [0] + Shift(tail) else Shift(tail);
    }
  }

  /** A predicate every element passes keeps the whole list. */
  lemma {:induction false} FilterKeepsAll<T>(xs: seq<T>, keep: T -> bool)
    requires forall j :: 0 <= j < |xs| ==> keep(xs[j])
    ensures Filter(xs, keep) == xs
  {
    if |xs| > 0 {
      FilterKeepsAll(xs[1..], keep);
      assert [xs[0]] + xs[1..] == xs;
    }
  }

  /**
   Filtering with a stricter predicate is filtering the result of the looser
   one: the stricter result is an order-preserving part of the looser result.
   */
  lemma {:induction false} FilterNarrows<T>(xs: seq<T>, wide: T -> bool, narrow: T -> bool)
    requires forall j :: 0 <= j < |xs| && narrow(xs[j]) ==> wide(xs[j])
    ensures Filter(xs, narrow) == Filter(Filter(xs, wide), narrow)
    ensures |Filter(xs, narrow)| <= |Filter(xs, wide)|
  {
    if |xs| > 0 {
      assert forall j :: 0 <= j < |xs| - 1 ==> xs[1..][j] == xs[j + 1];
      FilterNarrows(xs[1..], wide, narrow);
      if wide(xs[0]) {
        var w := Filter(xs[1..], wide);
        assert Filter(xs, wide) == [xs[0]] + w;
        assert ([xs[0]] + w)[1..] == w;
      }
    }
  }
}
