/** The audit of transfer candidates, a second statement of eligibility, compared with the list the picker works
    from. */
module AcdAudit {
  import opened Text
  import opened AcdPool

  datatype Reason =
    | AlreadyAttempted
    | TrunkNumberMismatch
    | OnlyTenantWidePool
    | NoWeight
    | NotAvailable
    | UnknownRoute
    | NeverSeen
    | StaleSeat
    | OutsideShift

  function When(condition: bool, reason: Reason): seq<Reason> {
    if condition then [reason] else []
  }

  /** Reasons that concern the call and the row's settings. */
  function SettingReasons(r: Seat, inbound: nat, exclude: set<nat>): seq<Reason> {
    When(r.id in exclude, AlreadyAttempted)
    + When(inbound > 0 && r.trunkNumber != 0 && r.trunkNumber != inbound, TrunkNumberMismatch)
    + When(inbound == 0 && r.trunkNumber != 0, OnlyTenantWidePool)
    + When(r.weight <= 0, NoWeight)
  }

  /** Reasons that concern the seat's present state. */
  function StateReasons(r: Seat, clock: Clock): seq<Reason> {
    var route := NormalizedRoute(r.route);
    When(Normalized(r.workState) != Available, NotAvailable)
    + When(route != Sip && route != Web, UnknownRoute)
    + When(route == Web && r.lastSeen.None?, NeverSeen)
    + When(route == Web && r.lastSeen.Some? && r.lastSeen.value < clock.now - WEB_SEAT_STALE_AFTER, StaleSeat)
    + When(!InShift(r.schedule, clock), OutsideShift)
  }

  function RejectReasons(r: Seat, inbound: nat, exclude: set<nat>, clock: Clock): seq<Reason> {
    SettingReasons(r, inbound, exclude) + StateReasons(r, clock)
  }

  lemma WhenIs(reasons: seq<Reason>, condition: bool, reason: Reason)
    ensures reasons + When(condition, reason) == if condition then reasons + [reason] else reasons
    ensures [] + When(condition, reason) == When(condition, reason)
  {
  }

  method ACDPoolTransferRejectReasons(r: Seat, inbound: nat, exclude: set<nat>, clock: Clock)
    returns (reasons: seq<Reason>)
    ensures reasons == RejectReasons(r, inbound, exclude, clock)
  {
    hide StateReasons, When;
    reasons := [];
    WhenIs(reasons, r.id in exclude, AlreadyAttempted);
    if r.id in exclude {
      reasons := reasons + [AlreadyAttempted];
    }
    ghost var mismatch := inbound > 0 && r.trunkNumber != 0 && r.trunkNumber != inbound;
    WhenIs(reasons, mismatch, TrunkNumberMismatch);
    WhenIs(reasons + When(mismatch, TrunkNumberMismatch), inbound == 0 && r.trunkNumber != 0, OnlyTenantWidePool);
    if inbound > 0 {
      if r.trunkNumber != 0 && r.trunkNumber != inbound {
        reasons := reasons + [TrunkNumberMismatch];
      }
    } else if r.trunkNumber != 0 {
      reasons := reasons + [OnlyTenantWidePool];
    }
    WhenIs(reasons, r.weight <= 0, NoWeight);
    if r.weight <= 0 {
      reasons := reasons + [NoWeight];
    }
    reasons := AddStateReasons(reasons, r, clock);
  }

  lemma WhenHas()
    ensures forall condition, reason, x :: x in When(condition, reason) <==> condition && x == reason
  {
  }

  lemma SettingReasonsAre(r: Seat, inbound: nat, exclude: set<nat>, x: Reason)
    ensures x in SettingReasons(r, inbound, exclude) <==>
      || (x == AlreadyAttempted && r.id in exclude)
      || (x == TrunkNumberMismatch && inbound > 0 && r.trunkNumber != 0 && r.trunkNumber != inbound)
      || (x == OnlyTenantWidePool && inbound == 0 && r.trunkNumber != 0)
      || (x == NoWeight && r.weight <= 0)
  {
    hide When;
    WhenHas();
  }

  lemma StateReasonsAre(r: Seat, clock: Clock, x: Reason)
    ensures x in StateReasons(r, clock) <==>
      || (x == NotAvailable && Normalized(r.workState) != Available)
      || (x == UnknownRoute && NormalizedRoute(r.route) !in {Sip, Web})
      || (x == NeverSeen && NormalizedRoute(r.route) == Web && r.lastSeen.None?)
      || (x == StaleSeat && NormalizedRoute(r.route) == Web && r.lastSeen.Some? && clock.now - r.lastSeen.value > 90)
      || (x == OutsideShift && !InShift(r.schedule, clock))
  {
    hide When, InShift, Normalized, NormalizedRoute;
    WhenHas();
  }

  lemma ReasonsAre(r: Seat, inbound: nat, exclude: set<nat>, clock: Clock, x: Reason)
    ensures x in RejectReasons(r, inbound, exclude, clock) <==>
      || (x == AlreadyAttempted && r.id in exclude)
      || (x == TrunkNumberMismatch && inbound > 0 && r.trunkNumber != 0 && r.trunkNumber != inbound)
      || (x == OnlyTenantWidePool && inbound == 0 && r.trunkNumber != 0)
      || (x == NoWeight && r.weight <= 0)
      || (x == NotAvailable && Normalized(r.workState) != Available)
      || (x == UnknownRoute && NormalizedRoute(r.route) !in {Sip, Web})
      || (x == NeverSeen && NormalizedRoute(r.route) == Web && r.lastSeen.None?)
      || (x == StaleSeat && NormalizedRoute(r.route) == Web && r.lastSeen.Some? && clock.now - r.lastSeen.value > 90)
      || (x == OutsideShift && !InShift(r.schedule, clock))
  {
    hide SettingReasons, StateReasons, InShift, Normalized, NormalizedRoute;
    SettingReasonsAre(r, inbound, exclude, x);
    StateReasonsAre(r, clock, x);
  }

  method AddStateReasons(before: seq<Reason>, r: Seat, clock: Clock) returns (reasons: seq<Reason>)
    ensures reasons == before + StateReasons(r, clock)
  {
    hide InShift, Normalized, NormalizedRoute, When;
    reasons := before;
    ghost var own: seq<Reason> := [];
    var state := Normalized(r.workState);
    AddWhen(before, own, state != Available, NotAvailable);
    if state != Available {
      reasons := reasons + [NotAvailable];
    }
    own := own + When(state != Available, NotAvailable);
    var route := NormalizedRoute(r.route);
    AddWhen(before, own, route != Sip && route != Web, UnknownRoute);
    if route != Sip && route != Web {
      reasons := reasons + [UnknownRoute];
    }
    own := own + When(route != Sip && route != Web, UnknownRoute);
    ghost var never := route == Web && r.lastSeen.None?;
    ghost var stale := route == Web && r.lastSeen.Some? && r.lastSeen.value < clock.now - WEB_SEAT_STALE_AFTER;
    AddWhen(before, own, never, NeverSeen);
    AddWhen(before, own + When(never, NeverSeen), stale, StaleSeat);
    if route == Web {
      if r.lastSeen.None? {
        reasons := reasons + [NeverSeen];
      } else if r.lastSeen.value < clock.now - WEB_SEAT_STALE_AFTER {
        reasons := reasons + [StaleSeat];
      }
    }
    own := own + When(never, NeverSeen) + When(stale, StaleSeat);
    var fits := ACDFitsShiftSchedule(r.schedule, clock);
    AddWhen(before, own, !fits, OutsideShift);
    if !fits {
      reasons := reasons + [OutsideShift];
    }
  }

  lemma AddWhen(before: seq<Reason>, own: seq<Reason>, condition: bool, reason: Reason)
    ensures before + (own + When(condition, reason)) ==
      if condition then before + own + [reason] else before + own
    ensures before + [] == before && [] + When(condition, reason) == When(condition, reason)
  {
    assert condition ==> before + (own + [reason]) == before + own + [reason];
    assert own + [] == own;
  }

  datatype Audited = Audited(row: Seat, eligible: bool, reasons: seq<Reason>)

  function TenantRows(rows: seq<Seat>, tenant: nat): seq<Seat> {
    if rows == [] then []
    else (if tenant == 0 || rows[0].tenant == tenant then [rows[0]] else []) + TenantRows(rows[1..], tenant)
  }

  lemma {:induction false} TenantRowsAre(rows: seq<Seat>, tenant: nat, r: Seat)
    ensures r in TenantRows(rows, tenant) <==> r in rows && (tenant != 0 ==> r.tenant == tenant)
  {
    if rows != [] { TenantRowsAre(rows[1..], tenant, r); }
  }

  lemma {:induction false} TenantRowsKeepOrder(rows: seq<Seat>, tenant: nat)
    requires InPoolOrder(rows)
    ensures InPoolOrder(TenantRows(rows, tenant))
  {
    if rows != [] {
      TenantRowsKeepOrder(rows[1..], tenant);
      forall s | s in TenantRows(rows[1..], tenant) ensures Precedes(rows[0], s) {
        TenantRowsAre(rows[1..], tenant, s);
      }
    }
  }

  /** The audited rows are the tenant's, each once, in the order of sort order and id. */
  lemma AuditedRowsAre(pool: seq<Seat>, tenant: nat, r: Seat)
    requires DistinctIds(pool)
    ensures r in TenantRows(Sort(pool), tenant) <==> r in pool && (tenant != 0 ==> r.tenant == tenant)
    ensures var rows := TenantRows(Sort(pool), tenant);
      forall i, j :: 0 <= i < j < |rows| ==>
        rows[i].sortOrder < rows[j].sortOrder || (rows[i].sortOrder == rows[j].sortOrder && rows[i].id < rows[j].id)
  {
    hide Sort, TenantRows, DistinctIds;
    SortIsSorted(pool);
    SortKeepsRows(pool, r);
    TenantRowsAre(Sort(pool), tenant, r);
    TenantRowsKeepOrder(Sort(pool), tenant);
  }

  /** Every row of the tenant, in pool order, with its reasons; id 0 in the exclude list is ignored. */
  method AuditACDPoolTransferCandidates(pool: seq<Seat>, tenant: nat, inbound: nat, exclude: set<nat>, clock: Clock)
    returns (out: seq<Audited>)
    ensures |out| == |TenantRows(Sort(pool), tenant)|
    ensures forall i :: 0 <= i < |out| ==>
      && out[i].row == TenantRows(Sort(pool), tenant)[i]
      && out[i].reasons == RejectReasons(out[i].row, inbound, exclude - {0}, clock)
      && out[i].eligible == (out[i].reasons == [])
  {
    hide RejectReasons;
    var rows := TenantRows(Sort(pool), tenant);
    out := [];
    for i := 0 to |rows|
      invariant |out| == i
      invariant forall k :: 0 <= k < i ==>
        && out[k].row == rows[k]
        && out[k].reasons == RejectReasons(rows[k], inbound, exclude - {0}, clock)
        && out[k].eligible == (out[k].reasons == [])
    {
      var reasons := ACDPoolTransferRejectReasons(rows[i], inbound, exclude - {0}, clock);
      out := out + [Audited(rows[i], |reasons| == 0, reasons)];
    }
  }

  /** The scope the list comes from: the dialled number's rows, or the tenant-wide ones when that list is empty. */
  function ScopeUsed(pool: seq<Seat>, tenant: nat, inbound: nat, exclude: set<nat>, clock: Clock): nat {
    if inbound > 0 && ListScoped(pool, Query(tenant, inbound, exclude, clock)) != [] then inbound else 0
  }

  /** No reasons, in terms of the picker's conditions. */
  lemma NoReasonsIff(r: Seat, tenant: nat, inbound: nat, exclude: set<nat>, clock: Clock)
    requires tenant == 0 || r.tenant == tenant
    requires r.workState == Available && (r.route == Sip || r.route == Web)
    ensures RejectReasons(r, inbound, exclude, clock) == [] <==>
      && (r.trunkNumber == 0 || r.trunkNumber == inbound)
      && (Eligible(r, Query(tenant, r.trunkNumber, exclude, clock))
        || (r.route == Web && r.lastSeen == Some(clock.now - WEB_SEAT_STALE_AFTER)
          && r.weight > 0 && r.id !in exclude && InShift(r.schedule, clock)))
  {
    hide InShift, StateOfText;
  }

  /** The audit and the picker agree on every row, up to four things: the audit also accepts both scopes, ill-spelt
      states and routes, and a heartbeat exactly at the cutoff. */
  lemma AuditAgreesWithPicker(pool: seq<Seat>, tenant: nat, inbound: nat, exclude: set<nat>, clock: Clock, r: Seat)
    requires DistinctIds(pool) && r in pool && (tenant == 0 || r.tenant == tenant)
    requires UnderLimit(pool, Query(tenant, inbound, exclude, clock))
      && UnderLimit(pool, Query(tenant, 0, exclude, clock))
    ensures r in ListEligible(pool, tenant, inbound, exclude, clock) <==>
      && RejectReasons(r, inbound, exclude, clock) == []
      && r.trunkNumber == ScopeUsed(pool, tenant, inbound, exclude, clock)
      && r.workState == Available && (r.route == Sip || r.route == Web)
      && !(r.route == Web && r.lastSeen == Some(clock.now - 90))
  {
    var q := Query(tenant, ScopeUsed(pool, tenant, inbound, exclude, clock), exclude, clock);
    assert ListEligible(pool, tenant, inbound, exclude, clock) == ListScoped(pool, q);
    ListScopedIsEligible(pool, q, r);
    if r.workState == Available && (r.route == Sip || r.route == Web) {
      NoReasonsIff(r, tenant, inbound, exclude, clock);
    }
  }

  /** Without any limit on the pool: whatever the picker lists, the audit lets through. */
  lemma ListedHasNoReasons(pool: seq<Seat>, tenant: nat, inbound: nat, exclude: set<nat>, clock: Clock, r: Seat)
    requires DistinctIds(pool) && r in ListEligible(pool, tenant, inbound, exclude, clock)
    ensures RejectReasons(r, inbound, exclude, clock) == []
  {
    var q := Query(tenant, ScopeUsed(pool, tenant, inbound, exclude, clock), exclude, clock);
    assert ListEligible(pool, tenant, inbound, exclude, clock) == ListScoped(pool, q);
    ListScopedIsEligible(pool, q, r);
    NoReasonsIff(r, tenant, inbound, exclude, clock);
  }

  /** A seat last heard of exactly 90 seconds ago: the audit reports it eligible, the picker does not list it. */
  lemma CutoffDisagreement(clock: Clock)
    ensures var r := Seat(1, 7, 0, Web, 10, 0, Available, Some(clock.now - WEB_SEAT_STALE_AFTER), Always);
      RejectReasons(r, 0, {}, clock) == [] && ListEligible([r], 7, 0, {}, clock) == []
  {
    var r := Seat(1, 7, 0, Web, 10, 0, Available, Some(clock.now - WEB_SEAT_STALE_AFTER), Always);
    var list := ListEligible([r], 7, 0, {}, clock);
    NoReasonsIff(r, 7, 0, {}, clock);
    if list != [] {
      ListScopedIsEligible([r], Query(7, 0, {}, clock), list[0]);
    }
  }
}
