/** The periodic repair of seat states, in three passes, and the reordering of one number's seats. */
module AcdSweep {
  import opened Text
  import opened AcdPool

  // ---- One seat ----

  predicate Stale(s: Seat, clock: Clock) {
    s.lastSeen.None? || s.lastSeen.value <= clock.now - WEB_SEAT_STALE_AFTER
  }

  predicate SeenRecently(s: Seat, clock: Clock) {
    s.lastSeen.Some? && clock.now - s.lastSeen.value <= WEB_SEAT_STALE_AFTER
  }

  predicate LeavesOffShift(w: WorkState) {
    w == Available || w == Ringing || w == Break || w == Acw
  }

  function AfterStale(s: Seat, clock: Clock): Seat {
    if s.route == Web && s.workState != Offline && Stale(s, clock) then s.(workState := Offline) else s
  }

  function ApplyShift(s: Seat, clock: Clock): Seat {
    var w := Normalized(s.workState);
    if !InShift(s.schedule, clock) then if LeavesOffShift(w) then s.(workState := Offline) else s
    else if w != Offline || (s.route == Web && !SeenRecently(s, clock)) then s
    else s.(workState := Available)
  }

  function AfterOffShift(s: Seat, clock: Clock): Seat {
    if s.schedule != Always && LeavesOffShift(s.workState) && !InShift(s.schedule, clock) then ApplyShift(s, clock)
    else s
  }

  function AfterRestore(s: Seat, clock: Clock): Seat {
    if s.workState == Offline then ApplyShift(s, clock) else s
  }

  function SweepSeat(s: Seat, clock: Clock): Seat {
    AfterRestore(AfterOffShift(AfterStale(s, clock), clock), clock)
  }

  /** Nothing left to repair: no stale web seat is on, nobody is reachable off shift, nobody reachable is off during
      a shift. */
  predicate Settled(s: Seat, clock: Clock) {
    && (s.route == Web && (s.lastSeen.None? || clock.now - s.lastSeen.value >= 90) ==> s.workState == Offline)
    && (!InShift(s.schedule, clock) ==> s.workState in {Offline, Busy} || s.workState.OtherState?)
    && (InShift(s.schedule, clock) && (s.route == Web ==> s.lastSeen.Some? && clock.now - s.lastSeen.value <= 90) ==>
          s.workState != Offline)
  }

  /** The one seat a sweep leaves wrong: a web seat on shift whose heartbeat is exactly at the cutoff is stale for
      the first pass and recent for the last one. */
  predicate AtCutoff(s: Seat, clock: Clock) {
    s.route == Web && s.lastSeen == Some(clock.now - 90) && InShift(s.schedule, clock)
  }

  lemma SweepSettlesIff(s: Seat, clock: Clock)
    ensures Settled(SweepSeat(s, clock), clock) <==> !AtCutoff(s, clock)
    ensures AtCutoff(s, clock) ==> SweepSeat(s, clock).workState == Available
  {
    assert s.schedule.Always? ==> InShift(s.schedule, clock);
    hide InShift, StateOfText;
  }

  /** A sweep leaves every settled seat alone, and puts any other offline if it is off shift or stopped reporting, and
      back to available otherwise. */
  lemma SweepRepairs(s: Seat, clock: Clock)
    requires !AtCutoff(s, clock)
    ensures SweepSeat(s, clock) ==
      if Settled(s, clock) then s
      else if !InShift(s.schedule, clock)
        || (s.route == Web && (s.lastSeen.None? || clock.now - s.lastSeen.value >= 90))
      then s.(workState := Offline)
      else s.(workState := Available)
  {
    assert s.schedule.Always? ==> InShift(s.schedule, clock);
    hide InShift, Normalized;
    assert !s.workState.OtherState? ==> Normalized(s.workState) == s.workState by { PlainIsNormal(s.workState); }
    assert Normalized(Offline) == Offline by { PlainIsNormal(Offline); }
  }

  lemma PlainIsNormal(w: WorkState)
    ensures !w.OtherState? ==> Normalized(w) == w
  {
  }

  /** A sweep touches nothing but the work state, and a second one at the same time touches nothing. */
  lemma SweepIsIdempotent(s: Seat, clock: Clock)
    ensures SweepSeat(SweepSeat(s, clock), clock) == SweepSeat(s, clock)
    ensures SweepSeat(s, clock) == s.(workState := SweepSeat(s, clock).workState)
  {
    hide InShift, StateOfText;
  }

  /** A seat in a call keeps its state, unless it is a web seat that stopped reporting. */
  lemma BusySeatIsLeftAlone(s: Seat, clock: Clock)
    requires s.workState == Busy && !(s.route == Web && Stale(s, clock))
    ensures SweepSeat(s, clock) == s
  {
    hide InShift, StateOfText;
  }

  /** The seat left wrong is put right by the next sweep, if no heartbeat came. */
  lemma CutoffIsPassing(s: Seat, clock: Clock, later: Clock)
    requires AtCutoff(s, clock) && later.now > clock.now
    ensures Settled(SweepSeat(SweepSeat(s, clock), later), later)
    ensures SweepSeat(SweepSeat(s, clock), later).workState == Offline
  {
    hide InShift, StateOfText;
    SweepSettlesIff(SweepSeat(s, clock), later);
  }

  /** After a sweep the picker's own time conditions hold of every available seat, save the one at the cutoff. */
  lemma SweptAvailableIsEligible(s: Seat, clock: Clock)
    requires s.weight > 0 && (s.route == Sip || s.route == Web)
    ensures var t := SweepSeat(s, clock);
      Eligible(t, Query(t.tenant, t.trunkNumber, {}, clock)) <==> t.workState == Available && !AtCutoff(s, clock)
  {
    hide InShift, StateOfText;
    SweepSettlesIff(s, clock);
  }

  // ---- The table ----

  ghost predicate Mapped(before: seq<Seat>, after: seq<Seat>, f: Seat -> Seat) {
    |after| == |before| && forall i :: 0 <= i < |before| ==> after[i] == f(before[i])
  }

  function Changed(before: seq<Seat>, after: seq<Seat>): nat
    requires |before| == |after|
  {
    if before == [] then 0
    else
      (if before[|before| - 1] != after[|after| - 1] then 1 else 0)
      + Changed(before[..|before| - 1], after[..|after| - 1])
  }

  lemma ChangedNext(before: seq<Seat>, after: seq<Seat>, i: nat)
    requires |before| == |after| && i < |before|
    ensures Changed(before[..i + 1], after[..i + 1]) ==
      Changed(before[..i], after[..i]) + (if before[i] != after[i] then 1 else 0)
  {
    assert before[..i + 1][..i] == before[..i];
    assert after[..i + 1][..i] == after[..i];
  }

  class SeatTable {
    var seats: seq<Seat>

    constructor (rows: seq<Seat>)
      ensures seats == rows
    {
      seats := rows;
    }

    method MarkStaleWebOffline(clock: Clock) returns (n: nat)
      modifies this
      ensures Mapped(old(seats), seats, s => AfterStale(s, clock))
      ensures n == Changed(old(seats), seats)
    {
      n := 0;
      ghost var before := seats;
      for i := 0 to |seats|
        invariant |seats| == |before|
        invariant forall k :: 0 <= k < i ==> seats[k] == AfterStale(before[k], clock)
        invariant seats[i..] == before[i..]
        invariant n == Changed(before[..i], seats[..i])
      {
        var s := seats[i];
        assert s == before[i];
        ghost var was := seats;
        if s.route == Web && s.workState != Offline && Stale(s, clock) {
          seats := seats[i := s.(workState := Offline)];
          n := n + 1;
        }
        assert seats[..i] == was[..i] && seats[i + 1..] == was[i + 1..];
        assert was[i..][1..] == before[i..][1..];
        ChangedNext(before, seats, i);
      }
      assert before[..|seats|] == before && seats[..|seats|] == seats;
    }

    method ApplyShiftAt(i: nat, clock: Clock) returns (changed: bool)
      requires i < |seats|
      modifies this
      ensures seats == old(seats)[i := ApplyShift(old(seats)[i], clock)]
      ensures changed == (seats[i] != old(seats)[i])
      ensures
        var s, w := old(seats)[i], Normalized(old(seats)[i].workState);
        seats[i].workState ==
          if !InShift(s.schedule, clock) && w in {Available, Ringing, Break, Acw} then Offline
          else if InShift(s.schedule, clock) && w == Offline
            && (s.route == Web ==> s.lastSeen.Some? && clock.now - s.lastSeen.value <= 90) then Available
          else s.workState
    {
      var s := seats[i];
      var inShift := ACDFitsShiftSchedule(s.schedule, clock);
      var w := Normalized(s.workState);
      changed := false;
      if !inShift {
        if LeavesOffShift(w) {
          seats := seats[i := s.(workState := Offline)];
          changed := true;
        }
        return;
      }
      if w != Offline || (s.route == Web && !SeenRecently(s, clock)) {
        return;
      }
      seats := seats[i := s.(workState := Available)];
      changed := true;
    }

    method MarkOfflineOutsideSchedule(clock: Clock) returns (n: nat)
      modifies this
      ensures Mapped(old(seats), seats, s => AfterOffShift(s, clock))
      ensures n == Changed(old(seats), seats)
    {
      hide InShift, StateOfText, Normalized;
      n := 0;
      ghost var before := seats;
      for i := 0 to |seats|
        invariant |seats| == |before|
        invariant forall k :: 0 <= k < i ==> seats[k] == AfterOffShift(before[k], clock)
        invariant seats[i..] == before[i..]
        invariant n == Changed(before[..i], seats[..i])
      {
        var s := seats[i];
        assert s == before[i];
        ghost var was := seats;
        if s.schedule != Always && LeavesOffShift(s.workState) {
          var fits := ACDFitsShiftSchedule(s.schedule, clock);
          if !fits {
            var changed := ApplyShiftAt(i, clock);
            if changed {
              n := n + 1;
            }
          }
        }
        assert seats[..i] == was[..i] && seats[i + 1..] == was[i + 1..];
        assert was[i..][1..] == before[i..][1..];
        ChangedNext(before, seats, i);
      }
      assert before[..|seats|] == before && seats[..|seats|] == seats;
    }

    method MarkAvailableInsideSchedule(clock: Clock) returns (n: nat)
      modifies this
      ensures Mapped(old(seats), seats, s => AfterRestore(s, clock))
      ensures n == Changed(old(seats), seats)
    {
      hide InShift, StateOfText, Normalized;
      n := 0;
      ghost var before := seats;
      for i := 0 to |seats|
        invariant |seats| == |before|
        invariant forall k :: 0 <= k < i ==> seats[k] == AfterRestore(before[k], clock)
        invariant seats[i..] == before[i..]
        invariant n == Changed(before[..i], seats[..i])
      {
        assert seats[i] == before[i];
        ghost var was := seats;
        if seats[i].workState == Offline {
          var changed := ApplyShiftAt(i, clock);
          if changed {
            n := n + 1;
          }
        }
        assert seats[..i] == was[..i] && seats[i + 1..] == was[i + 1..];
        assert was[i..][1..] == before[i..][1..];
        ChangedNext(before, seats, i);
      }
      assert before[..|seats|] == before && seats[..|seats|] == seats;
    }

    /** One clock reading for the three passes. Every seat ends settled, except those at the cutoff. */
    method Sweep(clock: Clock)
      modifies this
      ensures Mapped(old(seats), seats, s => SweepSeat(s, clock))
      ensures forall i :: 0 <= i < |seats| ==> (Settled(seats[i], clock) <==> !AtCutoff(old(seats)[i], clock))
    {
      ghost var before := seats;
      var stale := MarkStaleWebOffline(clock);
      var off := MarkOfflineOutsideSchedule(clock);
      var back := MarkAvailableInsideSchedule(clock);
      forall i | 0 <= i < |seats|
        ensures seats[i] == SweepSeat(before[i], clock)
        ensures Settled(seats[i], clock) <==> !AtCutoff(before[i], clock)
      {
        SweepSettlesIff(before[i], clock);
      }
    }

    /** Gives the listed seats of one number the orders 10, 20, 30, …, or changes nothing. */
    method Reorder(tenant: nat, trunkNumber: nat, ids: seq<nat>) returns (ok: bool)
      requires DistinctIds(seats)
      modifies this
      ensures ok <==> Reorderable(old(seats), tenant, trunkNumber, ids)
      ensures !ok ==> seats == old(seats)
      ensures ok ==> Mapped(old(seats), seats, s => Reordered(s, tenant, trunkNumber, ids))
      ensures ok ==>
        forall k, i :: 0 <= k < |ids| && 0 <= i < |seats| && IsSeat(old(seats)[i], tenant, trunkNumber, ids[k]) ==>
          seats[i] == old(seats)[i].(sortOrder := 10 * (k + 1))
      ensures forall i :: 0 <= i < |seats| && seats[i] != old(seats)[i] ==>
        old(seats)[i].id in ids && IsSeat(old(seats)[i], tenant, trunkNumber, old(seats)[i].id)
    {
      hide Reordered, IsSeat;
      if tenant == 0 || trunkNumber == 0 || |ids| == 0 {
        return false;
      }
      var seen: set<nat> := {};
      for i := 0 to |ids|
        invariant forall a :: 0 <= a < i ==> ids[a] != 0 && ids[a] in seen
        invariant forall id :: id in seen ==> id in ids[..i]
        invariant forall a, b :: 0 <= a < b < i ==> ids[a] != ids[b]
      {
        if ids[i] == 0 {
          return false;
        }
        if ids[i] in seen {
          return false;
        }
        seen := seen + {ids[i]};
      }
      if exists i :: 0 <= i < |ids| && !InScope(seats, tenant, trunkNumber, ids[i]) {
        return false;
      }
      ghost var before := seats;
      NoneIsReordered(before, tenant, trunkNumber);
      for i := 0 to |ids|
        invariant Mapped(before, seats, s => Reordered(s, tenant, trunkNumber, ids[..i]))
      {
        var was := seats;
        seats := seq(|was|, k requires 0 <= k < |was| =>
          if was[k].id == ids[i] && was[k].tenant == tenant && was[k].trunkNumber == trunkNumber
          then was[k].(sortOrder := (i + 1) * 10) else was[k]);
        forall k | 0 <= k < |seats| ensures seats[k] == Reordered(before[k], tenant, trunkNumber, ids[..i + 1]) {
          ReorderedNext(before[k], tenant, trunkNumber, ids, i);
        }
      }
      assert ids[..|ids|] == ids;
      ListedAreNumbered(before, seats, tenant, trunkNumber, ids);
      ok := true;
    }
  }

  // ---- Reordering ----

  predicate IsSeat(s: Seat, tenant: nat, trunkNumber: nat, id: nat) {
    s.id == id && s.tenant == tenant && s.trunkNumber == trunkNumber
  }

  predicate InScope(seats: seq<Seat>, tenant: nat, trunkNumber: nat, id: nat) {
    exists k ::
      0 <= k < |seats| && seats[k].id == id && seats[k].tenant == tenant && seats[k].trunkNumber == trunkNumber
  }

  ghost predicate Reorderable(seats: seq<Seat>, tenant: nat, trunkNumber: nat, ids: seq<nat>) {
    && tenant != 0 && trunkNumber != 0 && ids != []
    && (forall i :: 0 <= i < |ids| ==> ids[i] != 0 && InScope(seats, tenant, trunkNumber, ids[i]))
    && (forall i, j :: 0 <= i < j < |ids| ==> ids[i] != ids[j])
  }

  function IndexIn(ids: seq<nat>, id: nat): (i: nat)
    ensures i <= |ids| && (i < |ids| <==> id in ids) && (i < |ids| ==> ids[i] == id)
    ensures forall k :: 0 <= k < i ==> ids[k] != id
  {
    if ids == [] then 0 else if ids[|ids| - 1] == id && id !in ids[..|ids| - 1] then |ids| - 1
    else if id in ids[..|ids| - 1] then IndexIn(ids[..|ids| - 1], id) else |ids|
  }

  function Reordered(s: Seat, tenant: nat, trunkNumber: nat, ids: seq<nat>): Seat {
    if s.tenant == tenant && s.trunkNumber == trunkNumber && s.id in ids
    then s.(sortOrder := (IndexIn(ids, s.id) + 1) * 10) else s
  }

  lemma NoneIsReordered(seats: seq<Seat>, tenant: nat, trunkNumber: nat)
    ensures forall i :: 0 <= i < |seats| ==> seats[i] == Reordered(seats[i], tenant, trunkNumber, [])
  {
  }

  lemma ListedAreNumbered(before: seq<Seat>, after: seq<Seat>, tenant: nat, trunkNumber: nat, ids: seq<nat>)
    requires forall x, y :: 0 <= x < y < |ids| ==> ids[x] != ids[y]
    requires |after| == |before|
    requires forall i :: 0 <= i < |before| ==> after[i] == Reordered(before[i], tenant, trunkNumber, ids)
    ensures forall k, i :: 0 <= k < |ids| && 0 <= i < |before| && IsSeat(before[i], tenant, trunkNumber, ids[k]) ==>
      after[i] == before[i].(sortOrder := 10 * (k + 1))
    ensures forall i :: 0 <= i < |before| && after[i] != before[i] ==>
      before[i].id in ids && IsSeat(before[i], tenant, trunkNumber, before[i].id)
  {
    forall k | 0 <= k < |ids| ensures IndexIn(ids, ids[k]) == k {}
  }

  lemma ReorderedNext(s: Seat, tenant: nat, trunkNumber: nat, ids: seq<nat>, i: nat)
    requires i < |ids| && forall a, b :: 0 <= a < b < |ids| ==> ids[a] != ids[b]
    ensures Reordered(s, tenant, trunkNumber, ids[..i + 1]) ==
      if s.tenant == tenant && s.trunkNumber == trunkNumber && s.id == ids[i] then s.(sortOrder := (i + 1) * 10)
      else Reordered(s, tenant, trunkNumber, ids[..i])
    ensures var r := Reordered(s, tenant, trunkNumber, ids[..i]);
      && r.id == s.id && r.tenant == s.tenant && r.trunkNumber == s.trunkNumber
      && r.(sortOrder := (i + 1) * 10) == s.(sortOrder := (i + 1) * 10)
  {
    var next := ids[..i + 1];
    assert next[..i] == ids[..i] && next == ids[..i] + [ids[i]];
    assert ids[i] !in ids[..i];
  }

  /** The listed seats then stand in the pool in the given order. */
  lemma ReorderedFollowsTheList(a: Seat, b: Seat, tenant: nat, trunkNumber: nat, ids: seq<nat>, i: nat, j: nat)
    requires i < j < |ids| && forall x, y :: 0 <= x < y < |ids| ==> ids[x] != ids[y]
    requires a.id == ids[i] && b.id == ids[j]
    requires a.tenant == b.tenant == tenant && a.trunkNumber == b.trunkNumber == trunkNumber
    ensures Precedes(Reordered(a, tenant, trunkNumber, ids), Reordered(b, tenant, trunkNumber, ids))
  {
    assert IndexIn(ids, a.id) == i && IndexIn(ids, b.id) == j;
  }
}
