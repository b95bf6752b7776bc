/** Seats of the transfer pool: work states, shift windows and the eligibility queries. */
module AcdPool {
  import opened Text

  // ---- Rows ----

  datatype WorkState = Offline | Available | Ringing | Busy | Acw | Break | OtherState(raw: string)
  datatype Route = Sip | Web | OtherRoute(raw: string)

  function LowerChar(c: char): char {
    if 'A' <= c <= 'Z' then c - 'A' + 'a' else c
  }

  function Lower(s: string): string {
    seq(|s|, i requires 0 <= i < |s| => LowerChar(s[i]))
  }

  /** The state a column text stands for once trimmed and lower-cased; anything unknown is offline. */
  function StateOfText(raw: string): WorkState {
    var s := Lower(TrimSpace(raw));
    if s == "available" then Available
    else if s == "ringing" then Ringing
    else if s == "busy" then Busy
    else if s == "acw" then Acw
    else if s == "break" then Break
    else Offline
  }

  function NameOf(w: WorkState): string {
    match w
    case Offline => "offline"
    case Available => "available"
    case Ringing => "ringing"
    case Busy => "busy"
    case Acw => "acw"
    case Break => "break"
    case OtherState(raw) => raw
  }

  /** A state is recognised by its name, however it is capitalised and whatever blanks surround it; any other text
      counts as offline. */
  lemma StateIsRecognised(raw: string, w: WorkState)
    requires !w.OtherState?
    ensures StateOfText(raw) == w <==>
      Lower(TrimSpace(raw)) == NameOf(w) ||
      (w == Offline && Lower(TrimSpace(raw)) !in ["available", "ringing", "busy", "acw", "break"])
  {
    hide Lower, TrimSpace;
  }

  function Normalized(w: WorkState): WorkState {
    if w.OtherState? then StateOfText(w.raw) else w
  }

  function NormalizedRoute(r: Route): Route {
    if r.OtherRoute? then
      var s := Lower(TrimSpace(r.raw));
      if s == "sip" then Sip else if s == "web" then Web else r
    else r
  }

  /** A local clock reading: seconds since some epoch, minute of the day, weekday, and the calendar's verdict on the
      day. */
  datatype Clock = Clock(now: int, minute: int, weekday: int, holiday: bool, workday: bool)

  datatype Calendar = AnyDay | Holidays | Workdays | Weekends
  datatype Window = Window(weekdays: seq<int>, start: string, end: string, calendar: Calendar)

  /** A missing, unreadable or empty schedule is `Always`. */
  datatype Schedule = Always | Windows(windows: seq<Window>)

  datatype Seat = Seat(
    id: nat, tenant: nat, trunkNumber: nat, route: Route, weight: int, sortOrder: int,
    workState: WorkState, lastSeen: Option<int>, schedule: Schedule)

  const WEB_SEAT_STALE_AFTER := 90

  // ---- Shift windows ----

  /** `strconv.Atoi` */
  function Atoi(s: string): Option<int> {
    var digits := if s != [] && (s[0] == '-' || s[0] == '+') then s[1..] else s;
    if digits == [] || DigitRun(digits) != |digits| then None
    else
      assert digits[..|digits|] == digits;
      Some(if s[0] == '-' then 0 - NumeralValue(digits) else NumeralValue(digits))
  }

  /** `HH:MM` as a minute of the day. */
  function ParseHHMM(s: string): (m: Option<int>)
    ensures m.Some? ==> 0 <= m.value < 1440
  {
    var parts := Split(s, ':');
    if |parts| != 2 then None
    else
      var h, m := Atoi(parts[0]), Atoi(parts[1]);
      if h.None? || m.None? || h.value < 0 || h.value > 23 || m.value < 0 || m.value > 59 then None
      else Some(h.value * 60 + m.value)
  }

  predicate CalendarMatches(c: Calendar, clock: Clock) {
    match c
    case AnyDay => true
    case Holidays => clock.holiday
    case Workdays => clock.workday
    case Weekends => clock.weekday == 0 || clock.weekday == 6
  }

  predicate Between(minute: int, start: int, end: int) {
    if start <= end then start <= minute < end else minute >= start || minute < end
  }

  predicate WindowMatches(w: Window, clock: Clock) {
    && CalendarMatches(w.calendar, clock)
    && (w.weekdays == [] || clock.weekday in w.weekdays)
    && ParseHHMM(TrimSpace(w.start)).Some? && ParseHHMM(TrimSpace(w.end)).Some?
    && Between(clock.minute, ParseHHMM(TrimSpace(w.start)).value, ParseHHMM(TrimSpace(w.end)).value)
  }

  predicate InShift(s: Schedule, clock: Clock) {
    s.Always? || s.windows == [] || exists i :: 0 <= i < |s.windows| && WindowMatches(s.windows[i], clock)
  }

  /** A window is the stretch of the day that starts at `start` and runs, past midnight if need be, to just before
      `end`. */
  lemma WindowIsCyclic(minute: int, start: int, end: int)
    requires 0 <= minute < 1440 && 0 <= start < 1440 && 0 <= end < 1440
    ensures Between(minute, start, end) <==> (minute - start) % 1440 < (end - start) % 1440
  {
    assert (minute - start) % 1440 == if minute >= start then minute - start else minute - start + 1440;
    assert (end - start) % 1440 == if end >= start then end - start else end - start + 1440;
  }

  predicate IsNumeral(s: string) {
    s != [] && forall c <- s :: IsDigit(c)
  }

  lemma NumeralIsRead(s: string)
    requires IsNumeral(s)
    ensures Atoi(s) == Some(NumeralValue(s) as int)
  {
    DigitRunOfNumeral(s, []);
    assert s + [] == s && s[0] in s;
  }

  /** Two numerals around a colon are a time of day exactly when they are an hour and a minute. */
  lemma ClockTimeIs(h: string, m: string)
    requires IsNumeral(h) && IsNumeral(m)
    ensures ParseHHMM(h + ":" + m) ==
      if NumeralValue(h) <= 23 && NumeralValue(m) <= 59 then Some(60 * NumeralValue(h) + NumeralValue(m)) else None
  {
    hide NumeralValue, Atoi;
    SplitAtSeparator(h, ':', m);
    SplitWithoutSeparator(m, ':');
    NumeralIsRead(h);
    NumeralIsRead(m);
  }

  /** A window whose ends can be read matches exactly on its kind of day, on its weekdays, and within its stretch of the
      day, round midnight. */
  lemma WindowMatchesIff(w: Window, clock: Clock, h1: string, m1: string, h2: string, m2: string)
    requires IsNumeral(h1) && IsNumeral(m1) && NumeralValue(h1) < 24 && NumeralValue(m1) < 60
    requires IsNumeral(h2) && IsNumeral(m2) && NumeralValue(h2) < 24 && NumeralValue(m2) < 60
    requires TrimSpace(w.start) == h1 + ":" + m1 && TrimSpace(w.end) == h2 + ":" + m2
    requires 0 <= clock.minute < 1440
    ensures
      var start, end := 60 * NumeralValue(h1) + NumeralValue(m1), 60 * NumeralValue(h2) + NumeralValue(m2);
      WindowMatches(w, clock) <==>
        && (w.calendar == Holidays ==> clock.holiday) && (w.calendar == Workdays ==> clock.workday)
        && (w.calendar == Weekends ==> clock.weekday in {0, 6})
        && (w.weekdays != [] ==> clock.weekday in w.weekdays)
        && (clock.minute - start) % 1440 < (end - start) % 1440
  {
    hide ParseHHMM, NumeralValue, TrimSpace, Between;
    ClockTimeIs(h1, m1);
    ClockTimeIs(h2, m2);
    WindowIsCyclic(clock.minute, 60 * NumeralValue(h1) + NumeralValue(m1), 60 * NumeralValue(h2) + NumeralValue(m2));
  }

  method ACDFitsShiftSchedule(s: Schedule, clock: Clock) returns (fits: bool)
    ensures fits <==> InShift(s, clock)
  {
    if s.Always? || |s.windows| == 0 {
      return true;
    }
    for i := 0 to |s.windows|
      invariant forall k :: 0 <= k < i ==> !WindowMatches(s.windows[k], clock)
    {
      var w := s.windows[i];
      if !CalendarMatches(w.calendar, clock) {
        continue;
      }
      if !(|w.weekdays| == 0 || clock.weekday in w.weekdays) {
        continue;
      }
      var start, end := ParseHHMM(TrimSpace(w.start)), ParseHHMM(TrimSpace(w.end));
      if start.None? || end.None? {
        continue;
      }
      if start.value <= end.value {
        if clock.minute >= start.value && clock.minute < end.value {
          return true;
        }
      } else if clock.minute >= start.value || clock.minute < end.value {
        return true;
      }
    }
    fits := false;
  }

  // ---- Order ----

  predicate Precedes(a: Seat, b: Seat) {
    a.sortOrder < b.sortOrder || (a.sortOrder == b.sortOrder && a.id < b.id)
  }

  ghost predicate InPoolOrder(rows: seq<Seat>) {
    forall i, j :: 0 <= i < j < |rows| ==> Precedes(rows[i], rows[j])
  }

  ghost predicate DistinctIds(rows: seq<Seat>) {
    forall i, j :: 0 <= i < j < |rows| ==> rows[i].id != rows[j].id
  }

  function Insert(row: Seat, rows: seq<Seat>): seq<Seat> {
    if rows == [] || Precedes(row, rows[0]) then [row] + rows else [rows[0]] + Insert(row, rows[1..])
  }

  /** `ORDER BY sort_order ASC, id ASC` */
  function Sort(rows: seq<Seat>): seq<Seat> {
    if rows == [] then [] else Insert(rows[0], Sort(rows[1..]))
  }

  lemma {:induction false} InsertKeepsRows(row: Seat, rows: seq<Seat>)
    ensures multiset(Insert(row, rows)) == multiset(rows) + multiset{row}
    ensures forall r :: r in Insert(row, rows) ==> r == row || r in rows
  {
    hide Precedes;
    if rows != [] {
      assert rows == [rows[0]] + rows[1..];
      InsertKeepsRows(row, rows[1..]);
    }
  }

  lemma {:induction false} InsertKeepsOrder(row: Seat, rows: seq<Seat>)
    requires InPoolOrder(rows) && forall r :: r in rows ==> r.id != row.id
    ensures InPoolOrder(Insert(row, rows))
  {
    if rows != [] && !Precedes(row, rows[0]) {
      InsertKeepsOrder(row, rows[1..]);
      InsertKeepsRows(row, rows[1..]);
      forall r | r in Insert(row, rows[1..]) ensures Precedes(rows[0], r) {
        assert r == row || r in rows[1..];
      }
    }
  }

  lemma {:induction false} SortIsSorted(rows: seq<Seat>)
    requires DistinctIds(rows)
    ensures InPoolOrder(Sort(rows))
    ensures forall i, j :: 0 <= i < j < |Sort(rows)| ==>
      var a, b := Sort(rows)[i], Sort(rows)[j]; a.sortOrder < b.sortOrder || (a.sortOrder == b.sortOrder && a.id < b.id)
    ensures multiset(Sort(rows)) == multiset(rows)
  {
    if rows != [] {
      assert rows == [rows[0]] + rows[1..];
      SortIsSorted(rows[1..]);
      forall r | r in Sort(rows[1..]) ensures r.id != rows[0].id {
        assert r in multiset(Sort(rows[1..]));
        assert r in rows[1..];
      }
      InsertKeepsOrder(rows[0], Sort(rows[1..]));
      InsertKeepsRows(rows[0], Sort(rows[1..]));
    }
  }

  lemma SortKeepsRows(rows: seq<Seat>, r: Seat)
    requires DistinctIds(rows)
    ensures r in Sort(rows) <==> r in rows
  {
    SortIsSorted(rows);
    assert r in rows <==> r in multiset(rows);
    assert r in Sort(rows) <==> r in multiset(Sort(rows));
  }

  lemma OrderedIsDistinct(rows: seq<Seat>)
    requires InPoolOrder(rows) && forall r, s :: r in rows && s in rows && r.id == s.id ==> r == s
    ensures DistinctIds(rows)
  {
  }

  // ---- Eligibility ----

  /** One query: tenant 0 means any tenant; `scope` is a trunk number row id, or 0 for the tenant-wide pool. */
  datatype Query = Query(tenant: nat, scope: nat, exclude: set<nat>, clock: Clock)

  const QUERY_LIMIT := 64

  /** The conditions the database checks. */
  predicate DbEligible(r: Seat, q: Query) {
    && (q.tenant == 0 || r.tenant == q.tenant)
    && r.trunkNumber == q.scope
    && r.weight > 0 && r.workState == Available && (r.route == Sip || r.route == Web)
    && (r.route == Web ==> r.lastSeen.Some? && r.lastSeen.value > q.clock.now - WEB_SEAT_STALE_AFTER)
    && r.id !in q.exclude
  }

  function Select(rows: seq<Seat>, q: Query): seq<Seat> {
    if rows == [] then []
    else (if DbEligible(rows[0], q) then [rows[0]] else []) + Select(rows[1..], q)
  }

  function Take(rows: seq<Seat>, limit: nat): seq<Seat> {
    if |rows| <= limit then rows else rows[..limit]
  }

  function OnShift(rows: seq<Seat>, clock: Clock): seq<Seat> {
    if rows == [] then []
    else (if InShift(rows[0].schedule, clock) then [rows[0]] else []) + OnShift(rows[1..], clock)
  }

  /** The shift filter runs on what the limited query returned. */
  function ListScoped(pool: seq<Seat>, q: Query): seq<Seat> {
    OnShift(Take(Select(Sort(pool), q), QUERY_LIMIT), q.clock)
  }

  /** Rows of the dialled number first; the tenant-wide rows only when there are none. */
  function ListEligible(pool: seq<Seat>, tenant: nat, inbound: nat, exclude: set<nat>, clock: Clock): seq<Seat> {
    var specific := if inbound > 0 then ListScoped(pool, Query(tenant, inbound, exclude, clock)) else [];
    if specific != [] then specific else ListScoped(pool, Query(tenant, 0, exclude, clock))
  }

  predicate Eligible(r: Seat, q: Query) {
    DbEligible(r, q) && InShift(r.schedule, q.clock)
  }

  method FilterByShift(rows: seq<Seat>, clock: Clock) returns (out: seq<Seat>)
    ensures out == OnShift(rows, clock)
  {
    hide InShift, OnShift;
    out := [];
    assert rows[0..] == rows && [] + OnShift(rows, clock) == OnShift(rows, clock);
    for i := 0 to |rows|
      invariant OnShift(rows, clock) == out + OnShift(rows[i..], clock)
    {
      OnShiftFrom(rows, clock, i, out);
      var fits := ACDFitsShiftSchedule(rows[i].schedule, clock);
      if fits {
        out := out + [rows[i]];
      }
    }
    OnShiftOfNone(clock);
    assert rows[|rows|..] == [] && out + [] == out;
  }

  lemma OnShiftFrom(rows: seq<Seat>, clock: Clock, i: nat, out: seq<Seat>)
    requires i < |rows|
    ensures out + OnShift(rows[i..], clock) ==
      (if InShift(rows[i].schedule, clock) then out + [rows[i]] else out) + OnShift(rows[i + 1..], clock)
  {
    hide InShift;
    assert rows[i..][1..] == rows[i + 1..];
  }

  lemma OnShiftOfNone(clock: Clock)
    ensures OnShift([], clock) == []
  {
  }

  lemma {:induction false} SelectMembers(rows: seq<Seat>, q: Query, r: Seat)
    ensures r in Select(rows, q) <==> r in rows && DbEligible(r, q)
  {
    if rows != [] { SelectMembers(rows[1..], q, r); }
  }

  lemma {:induction false} OnShiftMembers(rows: seq<Seat>, clock: Clock, r: Seat)
    ensures r in OnShift(rows, clock) <==> r in rows && InShift(r.schedule, clock)
  {
    if rows != [] { OnShiftMembers(rows[1..], clock, r); }
  }

  lemma {:induction false} SelectKeepsOrder(rows: seq<Seat>, q: Query)
    requires InPoolOrder(rows)
    ensures InPoolOrder(Select(rows, q))
  {
    if rows != [] {
      SelectKeepsOrder(rows[1..], q);
      forall r | r in Select(rows[1..], q) ensures Precedes(rows[0], r) { SelectMembers(rows[1..], q, r); }
    }
  }

  lemma {:induction false} OnShiftKeepsOrder(rows: seq<Seat>, clock: Clock)
    requires InPoolOrder(rows)
    ensures InPoolOrder(OnShift(rows, clock))
  {
    if rows != [] {
      OnShiftKeepsOrder(rows[1..], clock);
      forall r | r in OnShift(rows[1..], clock) ensures Precedes(rows[0], r) { OnShiftMembers(rows[1..], clock, r); }
    }
  }

  /** No scope holds more rows than one query returns. */
  ghost predicate UnderLimit(pool: seq<Seat>, q: Query) {
    |Select(Sort(pool), q)| <= QUERY_LIMIT
  }

  /** A scoped list holds eligible rows only, in pool order; below the limit it holds all of them. */
  lemma ListScopedIsEligible(pool: seq<Seat>, q: Query, r: Seat)
    requires DistinctIds(pool)
    ensures r in ListScoped(pool, q) ==> r in pool && Eligible(r, q)
    ensures UnderLimit(pool, q) && r in pool && Eligible(r, q) ==> r in ListScoped(pool, q)
    ensures InPoolOrder(ListScoped(pool, q))
  {
    SortIsSorted(pool);
    SortKeepsRows(pool, r);
    var selected := Select(Sort(pool), q);
    SelectMembers(Sort(pool), q, r);
    SelectKeepsOrder(Sort(pool), q);
    OnShiftMembers(Take(selected, QUERY_LIMIT), q.clock, r);
    OnShiftKeepsOrder(Take(selected, QUERY_LIMIT), q.clock);
  }

  /** The rows that pass the database's checks and stand before `r`. */
  ghost function Ahead(pool: seq<Seat>, q: Query, r: Seat): set<Seat> {
    set s | s in pool && DbEligible(s, q) && (s.sortOrder < r.sortOrder || (s.sortOrder == r.sortOrder && s.id < r.id))
  }

  lemma {:induction false} PrefixSize(rows: seq<Seat>, i: nat, first: set<Seat>)
    requires i <= |rows| && InPoolOrder(rows) && forall s :: s in first <==> s in rows[..i]
    ensures |first| == i
  {
    if i == 0 {
      assert first == {};
    } else {
      assert rows[..i] == rows[..i - 1] + [rows[i - 1]];
      assert rows[i - 1] !in rows[..i - 1];
      PrefixSize(rows, i - 1, first - {rows[i - 1]});
    }
  }

  /** The rows before place `i` of the selected ones are the ones ahead of it. */
  lemma AheadIsAPrefix(pool: seq<Seat>, q: Query, i: nat)
    requires DistinctIds(pool) && i < |Select(Sort(pool), q)|
    ensures |Ahead(pool, q, Select(Sort(pool), q)[i])| == i
  {
    hide Select, Sort, DbEligible, DistinctIds;
    var rows := Select(Sort(pool), q);
    SortIsSorted(pool);
    SelectKeepsOrder(Sort(pool), q);
    var first := Ahead(pool, q, rows[i]);
    forall s ensures s in first <==> s in rows[..i] {
      SelectMembers(Sort(pool), q, s);
      SortKeepsRows(pool, s);
      if s in first {
        var k :| 0 <= k < |rows| && rows[k] == s;
        assert k < i;
      }
    }
    PrefixSize(rows, i, first);
  }

  /** For every pool, and every seat: it is listed exactly when it is of the tenant and the scope, takes calls, is
      available, of a known kind, heard of within 90 seconds if it is a web seat, not excluded, on shift, and fewer than
      64 rows that pass the database's checks stand before it. */
  lemma ListScopedIff(pool: seq<Seat>, q: Query, r: Seat)
    requires DistinctIds(pool) && r in pool
    ensures r in ListScoped(pool, q) <==>
      && (q.tenant != 0 ==> r.tenant == q.tenant) && r.trunkNumber == q.scope
      && r.weight > 0 && r.workState == Available
      && (r.route == Sip || (r.route == Web && r.lastSeen.Some? && q.clock.now - r.lastSeen.value < 90))
      && r.id !in q.exclude && InShift(r.schedule, q.clock)
      && |Ahead(pool, q, r)| < 64
  {
    hide InShift, Sort, Select, OnShift, Ahead, DistinctIds;
    var rows := Select(Sort(pool), q);
    SelectMembers(Sort(pool), q, r);
    SortKeepsRows(pool, r);
    OnShiftMembers(Take(rows, QUERY_LIMIT), q.clock, r);
    if r in rows {
      var i :| 0 <= i < |rows| && rows[i] == r;
      AheadIsAPrefix(pool, q, i);
      if r in Take(rows, QUERY_LIMIT) {
        var k :| 0 <= k < |Take(rows, QUERY_LIMIT)| && Take(rows, QUERY_LIMIT)[k] == r;
        assert rows[k] == r;
        AheadIsAPrefix(pool, q, k);
      } else {
        assert i >= QUERY_LIMIT;
      }
    }
  }

  /** What every listed row is. */
  lemma ListedRowIs(pool: seq<Seat>, tenant: nat, inbound: nat, exclude: set<nat>, clock: Clock, r: Seat)
    requires DistinctIds(pool) && r in ListEligible(pool, tenant, inbound, exclude, clock)
    ensures r in pool && (tenant != 0 ==> r.tenant == tenant) && (r.trunkNumber == inbound || r.trunkNumber == 0)
    ensures r.weight > 0 && r.workState == Available && r.id !in exclude && InShift(r.schedule, clock)
    ensures r.route == Sip || (r.route == Web && r.lastSeen.Some? && clock.now - r.lastSeen.value < 90)
    ensures inbound > 0 && r.trunkNumber == 0 ==> forall s :: s in pool ==>
      s !in ListScoped(pool, Query(tenant, inbound, exclude, clock))
  {
    hide InShift, ListScoped, DistinctIds;
    var own, wide := Query(tenant, inbound, exclude, clock), Query(tenant, 0, exclude, clock);
    ListScopedIsEligible(pool, own, r);
    ListScopedIsEligible(pool, wide, r);
    ListScopedIff(pool, own, r);
    ListScopedIff(pool, wide, r);
  }

  /** Because the limit is applied first, a list is empty exactly when the first 64 rows that pass the database's
      checks are all off shift, even if a later one is on shift. */
  lemma ListIsEmptyIff(pool: seq<Seat>, q: Query)
    ensures ListScoped(pool, q) == [] <==>
      forall i :: 0 <= i < |Select(Sort(pool), q)| && i < QUERY_LIMIT ==>
        !InShift(Select(Sort(pool), q)[i].schedule, q.clock)
  {
    var first := Take(Select(Sort(pool), q), QUERY_LIMIT);
    if ListScoped(pool, q) == [] {
      forall i | 0 <= i < |first| ensures !InShift(first[i].schedule, q.clock) {
        OnShiftMembers(first, q.clock, first[i]);
      }
    } else {
      var r := ListScoped(pool, q)[0];
      OnShiftMembers(first, q.clock, r);
      var i :| 0 <= i < |first| && first[i] == r;
      assert Select(Sort(pool), q)[i] == r;
    }
  }
}
