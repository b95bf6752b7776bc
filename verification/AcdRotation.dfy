/** Round-robin among the listed seats, remembering only the id of the last pick. */
module AcdRotation {

  /** Where the scan for `last` stops: the first listed id that is `last` or above it. */
  function Stop(ids: seq<nat>, last: nat): (i: nat)
    ensures i <= |ids|
    ensures forall k :: 0 <= k < i ==> ids[k] < last
    ensures i < |ids| ==> ids[i] >= last
  {
    if ids == [] || ids[0] >= last then 0 else 1 + Stop(ids[1..], last)
  }

  function NextIndex(ids: seq<nat>, last: nat): (i: nat)
    requires ids != []
    ensures i < |ids|
  {
    var stop := Stop(ids, last);
    if last == 0 || stop == |ids| then 0
    else if ids[stop] == last then Following(ids, stop)
    else stop
  }

  /** The index after `i`, going round. */
  function Following(ids: seq<nat>, i: nat): (next: nat)
    requires i < |ids|
    ensures next < |ids|
  {
    if i + 1 == |ids| then 0 else i + 1
  }

  method PickIndex(ids: seq<nat>, last: nat) returns (pick: nat)
    requires ids != []
    ensures pick == NextIndex(ids, last)
  {
    hide Stop;
    pick := 0;
    if last != 0 {
      for i := 0 to |ids|
        invariant pick == 0
        invariant forall k :: 0 <= k < i ==> ids[k] < last
      {
        if ids[i] == last {
          StopIsFirst(ids, last, i);
          WrapsRound(i, |ids|);
          pick := (i + 1) % |ids|;
          return;
        }
        if ids[i] > last {
          StopIsFirst(ids, last, i);
          pick := i;
          return;
        }
      }
      assert Stop(ids, last) == |ids|;
    }
  }

  lemma WrapsRound(i: nat, n: nat)
    requires i < n
    ensures (i + 1) % n == if i + 1 == n then 0 else i + 1
  {
  }

  lemma StopIsFirst(ids: seq<nat>, last: nat, i: nat)
    requires i < |ids| && ids[i] >= last && forall k :: 0 <= k < i ==> ids[k] < last
    ensures Stop(ids, last) == i
  {
    var stop := Stop(ids, last);
  }

  // ---- Lists whose ids ascend ----

  ghost predicate Ascending(ids: seq<nat>) {
    forall i, j :: 0 <= i < j < |ids| ==> ids[i] < ids[j]
  }

  /** Walking up from just above `from` and wrapping round, `x` is met before `y`. */
  predicate Before(from: nat, x: nat, y: nat) {
    if (x > from) == (y > from) then x < y else x > from
  }

  /** On an ascending list the pick is the cyclic successor of the last one, whether or not that one is still listed. */
  lemma PickIsCyclicSuccessor(ids: seq<nat>, last: nat, y: nat)
    requires ids != [] && Ascending(ids) && y in ids && 0 !in ids
    ensures var p := ids[NextIndex(ids, last)]; y == p || Before(last, p, y)
  {
    hide Stop;
    var p := NextIndex(ids, last);
    var k :| 0 <= k < |ids| && ids[k] == y;
    assert k != p ==> ids[k] != ids[p];
    var stop := Stop(ids, last);
    if last != 0 && stop < |ids| && ids[stop] == last && stop + 1 == |ids| {
      assert p == 0;
    }
  }

  // ---- Bounded bypass ----

  /** Picks made one after another while the list may change between them. */
  datatype Round = Round(ids: seq<nat>, pick: nat)

  ghost predicate Rotates(last: nat, rounds: seq<Round>) {
    forall i :: 0 <= i < |rounds| ==>
      && rounds[i].ids != [] && 0 !in rounds[i].ids && Ascending(rounds[i].ids)
      && rounds[i].pick == rounds[i].ids[NextIndex(rounds[i].ids, if i == 0 then last else rounds[i - 1].pick)]
  }

  /** Seat `x` is listed in every round and passed over in every round. */
  ghost predicate PassedOver(x: nat, rounds: seq<Round>) {
    forall i :: 0 <= i < |rounds| ==> x in rounds[i].ids && rounds[i].pick != x
  }

  lemma {:induction false} PicksAdvance(last: nat, rounds: seq<Round>, x: nat, i: nat, j: nat)
    requires Rotates(last, rounds) && PassedOver(x, rounds) && i < j < |rounds|
    ensures Before(x, rounds[i].pick, rounds[j].pick)
    decreases j
  {
    hide NextIndex;
    PickIsCyclicSuccessor(rounds[j].ids, rounds[j - 1].pick, x);
    if i < j - 1 {
      PicksAdvance(last, rounds, x, i, j - 1);
    }
  }

  /** While a listed seat waits, no other seat is picked twice, however the list changes. */
  lemma BoundedBypass(last: nat, rounds: seq<Round>, x: nat)
    requires Rotates(last, rounds) && PassedOver(x, rounds)
    ensures forall i, j :: 0 <= i < j < |rounds| ==> rounds[i].pick != rounds[j].pick
  {
    forall i, j | 0 <= i < j < |rounds| ensures rounds[i].pick != rounds[j].pick {
      PicksAdvance(last, rounds, x, i, j);
    }
  }

  lemma {:induction false} DistinctFit(s: seq<nat>, u: set<nat>)
    requires forall i, j :: 0 <= i < j < |s| ==> s[i] != s[j]
    requires forall i :: 0 <= i < |s| ==> s[i] in u
    ensures |s| <= |u|
  {
    if s != [] {
      DistinctFit(s[1..], u - {s[0]});
    }
  }

  /** With at most |seats| seats ever listed, a seat that stays listed is picked within |seats| rounds. */
  lemma WaitIsBounded(last: nat, rounds: seq<Round>, x: nat, seats: set<nat>)
    requires Rotates(last, rounds) && |rounds| >= |seats| && rounds != []
    requires forall i :: 0 <= i < |rounds| ==> x in rounds[i].ids && forall y :: y in rounds[i].ids ==> y in seats
    ensures exists i :: 0 <= i < |rounds| && rounds[i].pick == x
  {
    if forall i :: 0 <= i < |rounds| ==> rounds[i].pick != x {
      BoundedBypass(last, rounds, x);
      var picks := seq(|rounds|, i requires 0 <= i < |rounds| => rounds[i].pick);
      assert x in rounds[0].ids;
      forall i | 0 <= i < |picks| ensures picks[i] in seats - {x} {
        var before := if i == 0 then last else rounds[i - 1].pick;
        assert rounds[i].pick == rounds[i].ids[NextIndex(rounds[i].ids, before)];
        assert rounds[i].pick in rounds[i].ids;
      }
      DistinctFit(picks, seats - {x});
    }
  }

  // ---- A fixed list, in any order ----

  ghost predicate Distinct(ids: seq<nat>) {
    forall i, j :: 0 <= i < j < |ids| ==> ids[i] != ids[j]
  }

  /** Index of the pick number k (from 0) on a list that never changes, starting with nothing remembered. */
  function Walk(ids: seq<nat>, k: nat): (i: nat)
    requires ids != []
    ensures i < |ids|
  {
    NextIndex(ids, if k == 0 then 0 else ids[Walk(ids, k - 1)])
  }

  /** Every |ids| picks in a row include every seat. */
  ghost predicate Fair(ids: seq<nat>)
    requires ids != []
  {
    forall x, k: nat :: 0 <= x < |ids| ==> PickedWithin(ids, x, k)
  }

  ghost predicate PickedWithin(ids: seq<nat>, x: nat, k: nat)
    requires ids != []
  {
    exists m :: k <= m < k + |ids| && Walk(ids, m) == x
  }

  /** All but the last id ascend, and the last id is either above them all or below the first. */
  ghost predicate FairOrder(ids: seq<nat>)
    requires ids != []
  {
    Ascending(ids[..|ids| - 1]) && (Ascending(ids) || ids[|ids| - 1] < ids[0])
  }

  lemma InFairOrderStepIsShift(ids: seq<nat>, j: nat)
    requires ids != [] && 0 !in ids && Distinct(ids) && FairOrder(ids) && j < |ids|
    ensures NextIndex(ids, ids[j]) == Following(ids, j)
  {
    var first := ids[..|ids| - 1];
    assert forall k :: 0 <= k < |first| ==> first[k] == ids[k];
    if j == |ids| - 1 && !Ascending(ids) {
      StopIsFirst(ids, ids[j], 0);
    } else {
      assert forall k :: 0 <= k < j ==> ids[k] < ids[j];
      StopIsFirst(ids, ids[j], j);
    }
  }

  lemma {:induction false} InFairOrderWalkGoesRound(ids: seq<nat>, k: nat, d: nat)
    requires ids != [] && 0 !in ids && Distinct(ids) && FairOrder(ids) && d <= |ids|
    ensures Walk(ids, k + d) == (if Walk(ids, k) + d < |ids| then Walk(ids, k) + d else Walk(ids, k) + d - |ids|)
  {
    hide NextIndex, Distinct, FairOrder;
    if d != 0 {
      InFairOrderWalkGoesRound(ids, k, d - 1);
      InFairOrderStepIsShift(ids, Walk(ids, k + d - 1));
    }
  }

  lemma NextIndexIs(ids: seq<nat>, last: nat, i: nat)
    requires i < |ids| && last != 0 && ids[i] >= last && forall k :: 0 <= k < i ==> ids[k] < last
    ensures NextIndex(ids, last) == if ids[i] == last then Following(ids, i) else i
  {
    hide Stop;
    StopIsFirst(ids, last, i);
  }

  /** Everything before `j` ascends. */
  ghost predicate AscendsTo(ids: seq<nat>, j: nat)
    requires j <= |ids|
  {
    forall a, b :: 0 <= a < b < j ==> ids[a] < ids[b]
  }

  lemma {:induction false} FirstDescent(ids: seq<nat>, j: nat) returns (d: nat, i: nat)
    requires j <= |ids| && AscendsTo(ids, j) && !Ascending(ids)
    ensures i < d < |ids| && AscendsTo(ids, d) && ids[i] >= ids[d]
    ensures forall k :: 0 <= k < i ==> ids[k] < ids[d]
    decreases |ids| - j
  {
    if j == |ids| {
      assert false;
    } else {
      hide Stop;
      i := Stop(ids, ids[j]);
      if i >= j {
        d, i := FirstDescent(ids, j + 1);
      } else {
        d := j;
      }
    }
  }

  /** Out of fair order, some index steps down instead of on; the least such index. */
  lemma OutOfOrderSomeStepGoesBack(ids: seq<nat>) returns (j: nat)
    requires ids != [] && 0 !in ids && Distinct(ids) && !FairOrder(ids)
    ensures j < |ids| && NextIndex(ids, ids[j]) < j
    ensures forall k :: 0 <= k < j ==> NextIndex(ids, ids[k]) == k + 1
    ensures j == |ids| - 1 ==> NextIndex(ids, ids[j]) > 0
  {
    hide NextIndex, Stop;
    var i;
    j, i := FirstDescent(ids, 0);
    NextIndexIs(ids, ids[j], i);
    forall k | 0 <= k < j ensures NextIndex(ids, ids[k]) == k + 1 {
      NextIndexIs(ids, ids[k], k);
    }
    assert j == |ids| - 1 ==> i != 0;
  }

  /** The picks from number `from` on stay between `lo` and `hi`. */
  lemma {:induction false} WalkStays(ids: seq<nat>, lo: nat, hi: nat, from: nat, k: nat)
    requires ids != [] && from <= k && hi < |ids|
    requires lo <= Walk(ids, from) <= hi
    requires forall i :: lo <= i <= hi ==> lo <= NextIndex(ids, ids[i]) <= hi
    ensures lo <= Walk(ids, k) <= hi
  {
    hide NextIndex;
    if from < k {
      WalkStays(ids, lo, hi, from, k - 1);
    }
  }

  lemma FirstPick(ids: seq<nat>)
    requires ids != []
    ensures NextIndex(ids, 0) == 0
  {
  }

  lemma {:induction false} WalkReaches(ids: seq<nat>, j: nat, k: nat)
    requires ids != [] && k <= j < |ids| && forall i :: 0 <= i < j ==> NextIndex(ids, ids[i]) == i + 1
    ensures Walk(ids, k) == k
  {
    hide NextIndex;
    if k == 0 {
      FirstPick(ids);
    } else {
      WalkReaches(ids, j, k - 1);
    }
  }

  /** From some pick on, the seat is never picked again. */
  ghost predicate Starved(ids: seq<nat>, x: nat, from: nat)
    requires ids != []
  {
    forall m :: m >= from ==> Walk(ids, m) != x
  }

  /** Out of fair order the rotation ends up going round a part of the list, and some seat is starved. */
  lemma SomeSeatStarves(ids: seq<nat>) returns (x: nat, from: nat)
    requires ids != [] && 0 !in ids && Distinct(ids) && !FairOrder(ids)
    ensures x < |ids| && Starved(ids, x, from)
  {
    hide NextIndex, Distinct, FairOrder;
    var j := OutOfOrderSomeStepGoesBack(ids);
    if j < |ids| - 1 {
      x, from := |ids| - 1, 0;
      WalkReaches(ids, j, 0);
      forall m: nat ensures Walk(ids, m) != |ids| - 1 { WalkStays(ids, 0, j, 0, m); }
    } else {
      x, from := 0, j;
      WalkReaches(ids, j, j);
      forall m | j <= m ensures Walk(ids, m) != 0 { WalkStays(ids, 1, j, j, m); }
    }
  }

  /** The rotation is fair exactly in fair order; otherwise a seat is starved for ever. */
  lemma FairIff(ids: seq<nat>)
    requires ids != [] && 0 !in ids && Distinct(ids)
    ensures Fair(ids) <==> FairOrder(ids)
    ensures !FairOrder(ids) ==> exists x: nat, from: nat :: x < |ids| && Starved(ids, x, from)
  {
    hide NextIndex, Distinct, FairOrder;
    var n := |ids|;
    if FairOrder(ids) {
      forall x, k: nat | 0 <= x < n ensures PickedWithin(ids, x, k) {
        var at := Walk(ids, k);
        var d := if x >= at then x - at else x - at + n;
        InFairOrderWalkGoesRound(ids, k, d);
        assert Walk(ids, k + d) == x;
      }
    } else {
      var x, from := SomeSeatStarves(ids);
      assert !PickedWithin(ids, x, from);
    }
  }

  /** Seats ordered 5, 1, 2: the first two take turns and the third is never picked. */
  lemma LaterSeatStarves(k: nat)
    ensures Walk([5, 1, 2], k) != 2
  {
    var ids: seq<nat> := [5, 1, 2];
    assert Stop(ids, 5) == 0;
    assert Stop(ids, 1) == 0;
    WalkStays(ids, 0, 1, 0, k);
  }
}
