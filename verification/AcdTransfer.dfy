/** The transfer loop: it asks for one eligible seat at a time, leaving out the ones it has already tried. */
module AcdTransfer {
  import opened Text
  import opened AcdPool
  import opened AcdRotation

  datatype Mode = Weight | RoundRobin

  const MAX_ROUNDS := 32

  /** A transfer in progress: the inbound call's tenant and dialled number, the seats already attempted for this
      call, the clock, and the ids of SIP rows whose target the trunk or the registry can dial right now. */
  datatype Request = Request(tenant: nat, inbound: nat, exclude: set<nat>, clock: Clock, dialable: set<nat>)

  function Ids(rows: seq<Seat>): (ids: seq<nat>)
    ensures |ids| == |rows|
    ensures forall i :: 0 <= i < |rows| ==> ids[i] == rows[i].id
  {
    seq(|rows|, i requires 0 <= i < |rows| => rows[i].id)
  }

  function IdSet(rows: seq<Seat>): set<nat> {
    set r | r in rows :: r.id
  }

  function Tried(attempts: seq<nat>): set<nat> {
    set id | id in attempts
  }

  predicate Connects(r: Seat, q: Request) {
    r.route == Web || r.id in q.dialable
  }

  function Scope(q: Request, scope: nat): Query {
    Query(q.tenant, scope, q.exclude, q.clock)
  }

  /** Rows of the dialled number, then tenant-wide rows. */
  function Candidates(pool: seq<Seat>, q: Request): seq<Seat> {
    (if q.inbound > 0 then ListScoped(pool, Scope(q, q.inbound)) else []) + ListScoped(pool, Scope(q, 0))
  }

  ghost predicate PoolsUnderLimit(pool: seq<Seat>, q: Request) {
    UnderLimit(pool, Scope(q, q.inbound)) && UnderLimit(pool, Scope(q, 0))
  }

  /** Row `i` connects, as a web seat or as one that can be dialled, and none before it does. */
  ghost predicate FirstAt(rows: seq<Seat>, q: Request, i: nat) {
    && i < |rows| && (rows[i].route == Web || rows[i].id in q.dialable)
    && forall k :: 0 <= k < i ==> rows[k].route != Web && rows[k].id !in q.dialable
  }

  function FirstConnecting(rows: seq<Seat>, q: Request): Option<Seat> {
    if rows == [] then None
    else if Connects(rows[0], q) then Some(rows[0])
    else FirstConnecting(rows[1..], q)
  }

  lemma {:induction false} FirstConnectingIsFirst(rows: seq<Seat>, q: Request) returns (i: nat)
    ensures FirstConnecting(rows, q).None? ==>
      forall k :: 0 <= k < |rows| ==> rows[k].route != Web && rows[k].id !in q.dialable
    ensures FirstConnecting(rows, q).Some? ==> FirstAt(rows, q, i) && FirstConnecting(rows, q).value == rows[i]
  {
    i := 0;
    if rows != [] && !Connects(rows[0], q) {
      var j := FirstConnectingIsFirst(rows[1..], q);
      i := j + 1;
      assert forall k :: 0 < k < |rows| ==> rows[k] == rows[1..][k - 1];
    }
  }

  // ---- Leaving out what was tried ----

  function Without(rows: seq<Seat>, ids: set<nat>): (kept: seq<Seat>)
    ensures |kept| <= |rows|
  {
    if rows == [] then []
    else (if rows[0].id in ids then [] else [rows[0]]) + Without(rows[1..], ids)
  }

  lemma {:induction false} SelectWithout(rows: seq<Seat>, q: Query, ids: set<nat>)
    ensures Select(rows, q.(exclude := q.exclude + ids)) == Without(Select(rows, q), ids)
  {
    if rows != [] {
      SelectWithout(rows[1..], q, ids);
      var rest := Select(rows[1..], q);
      if DbEligible(rows[0], q) {
        assert Select(rows, q) == [rows[0]] + rest && ([rows[0]] + rest)[1..] == rest;
      } else {
        assert Select(rows, q) == rest;
      }
    }
  }

  lemma {:induction false} OnShiftWithout(rows: seq<Seat>, clock: Clock, ids: set<nat>)
    ensures OnShift(Without(rows, ids), clock) == Without(OnShift(rows, clock), ids)
  {
    if rows != [] {
      OnShiftWithout(rows[1..], clock, ids);
      var kept, rest := Without(rows[1..], ids), OnShift(rows[1..], clock);
      if rows[0].id in ids {
        assert Without(rows, ids) == kept;
      } else {
        assert Without(rows, ids) == [rows[0]] + kept && ([rows[0]] + kept)[1..] == kept;
      }
      if InShift(rows[0].schedule, clock) {
        assert OnShift(rows, clock) == [rows[0]] + rest && ([rows[0]] + rest)[1..] == rest;
      } else {
        assert OnShift(rows, clock) == rest;
      }
    }
  }

  /** Below the limit, excluding more ids only removes them from the list. */
  lemma ListScopedWithout(pool: seq<Seat>, q: Query, ids: set<nat>)
    requires UnderLimit(pool, q)
    ensures ListScoped(pool, q.(exclude := q.exclude + ids)) == Without(ListScoped(pool, q), ids)
  {
    SelectWithout(Sort(pool), q, ids);
    OnShiftWithout(Select(Sort(pool), q), q.clock, ids);
  }

  lemma {:induction false} WithoutPrefix(rows: seq<Seat>, ids: set<nat>, k: nat)
    requires k <= |rows|
    requires forall i :: 0 <= i < |rows| ==> (rows[i].id in ids <==> i < k)
    ensures Without(rows, ids) == rows[k..]
  {
    if rows != [] {
      if k == 0 {
        WithoutPrefix(rows[1..], ids, 0);
      } else {
        WithoutPrefix(rows[1..], ids, k - 1);
      }
    }
  }

  lemma CandidateFacts(pool: seq<Seat>, q: Request)
    requires DistinctIds(pool)
    ensures DistinctIds(Candidates(pool, q))
    ensures forall r :: r in Candidates(pool, q) ==> r in pool && r.id !in q.exclude
  {
    hide ListScoped, DistinctIds;
    var wide := ListScoped(pool, Scope(q, 0));
    var specific := if q.inbound > 0 then ListScoped(pool, Scope(q, q.inbound)) else [];
    forall r | r in wide || r in specific ensures r in pool && r.id !in q.exclude {
      ListedFacts(pool, Scope(q, q.inbound), r);
      ListedFacts(pool, Scope(q, 0), r);
    }
    ListIsDistinct(pool, Scope(q, 0));
    ListIsDistinct(pool, Scope(q, q.inbound));
    forall i, j | 0 <= i < |specific| && 0 <= j < |wide| ensures specific[i].id != wide[j].id {
      ListedFacts(pool, Scope(q, q.inbound), specific[i]);
      ListedFacts(pool, Scope(q, 0), wide[j]);
      SameRow(pool, specific[i], wide[j]);
    }
    JoinedIsDistinct(specific, wide);
  }

  lemma ListedFacts(pool: seq<Seat>, q: Query, r: Seat)
    requires DistinctIds(pool)
    ensures r in ListScoped(pool, q) ==> r in pool && r.id !in q.exclude && r.trunkNumber == q.scope
  {
    hide ListScoped, DistinctIds, InShift;
    ListScopedIsEligible(pool, q, r);
  }

  lemma SameRow(pool: seq<Seat>, r: Seat, s: Seat)
    requires DistinctIds(pool) && r in pool && s in pool
    ensures r.id == s.id ==> r == s
  {
  }

  lemma JoinedIsDistinct(a: seq<Seat>, b: seq<Seat>)
    requires DistinctIds(a) && DistinctIds(b)
    requires forall i, j :: 0 <= i < |a| && 0 <= j < |b| ==> a[i].id != b[j].id
    ensures DistinctIds(if a == [] then b else a + b) && DistinctIds(a + b)
  {
    assert [] + b == b;
    var c := a + b;
    forall i, j | 0 <= i < j < |c| ensures c[i].id != c[j].id {
      if i < |a| && j >= |a| {
        assert c[i] == a[i] && c[j] == b[j - |a|];
      } else if i >= |a| {
        assert c[i] == b[i - |a|] && c[j] == b[j - |a|];
      }
    }
  }

  lemma ListIsDistinct(pool: seq<Seat>, q: Query)
    requires DistinctIds(pool)
    ensures DistinctIds(ListScoped(pool, q))
  {
    var rows := ListScoped(pool, q);
    forall r, s | r in rows && s in rows && r.id == s.id ensures r == s {
      ListScopedIsEligible(pool, q, r);
      ListScopedIsEligible(pool, q, s);
    }
    if rows != [] {
      ListScopedIsEligible(pool, q, rows[0]);
    }
    OrderedIsDistinct(rows);
  }

  /** Once the first k candidates are excluded, the list is what remains of the dialled number's rows or, those used up,
      what remains of the tenant-wide rows; either way it starts with candidate k. */
  lemma ListStartsWithNextCandidate(pool: seq<Seat>, q: Request, k: nat)
    requires DistinctIds(pool) && PoolsUnderLimit(pool, q) && k <= |Candidates(pool, q)|
    ensures var list := ListEligible(pool, q.tenant, q.inbound, q.exclude + IdSet(Candidates(pool, q)[..k]), q.clock);
      && (list == [] <==> k == |Candidates(pool, q)|)
      && (list != [] ==> list[0] == Candidates(pool, q)[k])
  {
    hide InShift, DbEligible, Sort, Select, OnShift, ListScoped, DistinctIds, UnderLimit, IdSet, Without;
    var all := Candidates(pool, q);
    var tried := IdSet(all[..k]);
    CandidateFacts(pool, q);
    TriedIsAPrefix(all, k);
    ListScopedWithout(pool, Scope(q, q.inbound), tried);
    ListScopedWithout(pool, Scope(q, 0), tried);
    var specific := if q.inbound > 0 then ListScoped(pool, Scope(q, q.inbound)) else [];
    HeadOfRest(specific, ListScoped(pool, Scope(q, 0)), tried, k);
    assert Without([], tried) == [] by { WithoutPrefix([], tried, 0); }
  }

  lemma HeadOfRest(a: seq<Seat>, b: seq<Seat>, tried: set<nat>, k: nat)
    requires k <= |a + b|
    requires forall i :: 0 <= i < |a + b| ==> ((a + b)[i].id in tried <==> i < k)
    ensures var list := if Without(a, tried) != [] then Without(a, tried) else Without(b, tried);
      && (list == [] <==> k == |a + b|)
      && (list != [] ==> list[0] == (a + b)[k])
  {
    hide Without;
    var s := |a|;
    assert forall i :: 0 <= i < s ==> a[i] == (a + b)[i];
    assert forall i :: 0 <= i < |b| ==> b[i] == (a + b)[s + i];
    WithoutPrefix(a, tried, if k <= s then k else s);
    WithoutPrefix(b, tried, if k <= s then 0 else k - s);
  }

  lemma TriedIsAPrefix(rows: seq<Seat>, k: nat)
    requires DistinctIds(rows) && k <= |rows|
    ensures forall i :: 0 <= i < |rows| ==> (rows[i].id in IdSet(rows[..k]) <==> i < k)
  {
    forall i | 0 <= i < |rows| ensures rows[i].id in IdSet(rows[..k]) <==> i < k {
      if i < k {
        assert rows[..k][i] == rows[i];
      } else {
        assert forall r :: r in rows[..k] ==> r.id != rows[i].id;
      }
    }
  }

  // ---- The desk ----

  lemma {:induction false} SortOfSorted(rows: seq<Seat>)
    requires InPoolOrder(rows)
    ensures Sort(rows) == rows
  {
    if rows != [] {
      SortOfSorted(rows[1..]);
    }
  }

  function SetWorkState(pool: seq<Seat>, id: nat, w: WorkState): (after: seq<Seat>)
    ensures |after| == |pool|
    ensures forall i :: 0 <= i < |pool| ==> after[i] == if pool[i].id == id then pool[i].(workState := w) else pool[i]
  {
    seq(|pool|, i requires 0 <= i < |pool| => if pool[i].id == id then pool[i].(workState := w) else pool[i])
  }

  /** A web seat handed to one call is offered to no other while it rings. */
  lemma HandedOutSeatIsHeld(pool: seq<Seat>, id: nat, tenant: nat, inbound: nat, exclude: set<nat>, clock: Clock)
    requires DistinctIds(pool)
    ensures var after := SetWorkState(pool, id, Ringing);
      DistinctIds(after) && forall r :: r in ListEligible(after, tenant, inbound, exclude, clock) ==> r.id != id
  {
    var after := SetWorkState(pool, id, Ringing);
    assert forall i :: 0 <= i < |pool| ==> after[i].id == pool[i].id;
    forall r | r in ListEligible(after, tenant, inbound, exclude, clock) ensures r.id != id {
      ListedRowIs(after, tenant, inbound, exclude, clock, r);
    }
  }

  class TransferDesk {
    var pool: seq<Seat>
    /** Last pick per tenant and dialled number. */
    var lastPicked: map<(nat, nat), nat>

    constructor (rows: seq<Seat>)
      ensures pool == rows && lastPicked == map[]
    {
      pool, lastPicked := rows, map[];
    }

    method PickEligible(q: Request, tried: set<nat>, mode: Mode) returns (row: Option<Seat>)
      requires DistinctIds(pool)
      modifies this`lastPicked
      ensures var list := ListEligible(pool, q.tenant, q.inbound, tried, q.clock);
        && (row.None? <==> list == [])
        && (row.None? ==> lastPicked == old(lastPicked))
        && (row.Some? && mode == Weight ==> row.value == list[0] && lastPicked == old(lastPicked))
        && (row.Some? && mode == RoundRobin ==>
          var key := (q.tenant, q.inbound);
          && row.value == list[NextIndex(Ids(list), if key in old(lastPicked) then old(lastPicked)[key] else 0)]
          && lastPicked == old(lastPicked)[key := row.value.id])
    {
      var list := ListEligible(pool, q.tenant, q.inbound, tried, q.clock);
      if |list| == 0 {
        return None;
      }
      if mode == Weight {
        return Some(list[0]);
      }
      ListScopedIsEligible(pool, Query(q.tenant, q.inbound, tried, q.clock), list[0]);
      ListScopedIsEligible(pool, Query(q.tenant, 0, tried, q.clock), list[0]);
      SortOfSorted(list);
      var rows := Sort(list);
      var key := (q.tenant, q.inbound);
      var last := if key in lastPicked then lastPicked[key] else 0;
      var pick := PickIndex(Ids(rows), last);
      lastPicked := lastPicked[key := rows[pick].id];
      row := Some(rows[pick]);
    }

    /** `attempts` lists the ids tried, in order. With a known call, the web seat handed out is left ringing. */
    method PickTransferDialTarget(q: Request, mode: Mode, callKnown: bool)
      returns (target: Option<Seat>, attempts: seq<nat>)
      requires DistinctIds(pool)
      modifies this
      ensures |attempts| <= 32 && AllDifferent(attempts) && NoneExcluded(attempts, q)
      ensures target.Some? ==>
        var r := target.value;
        && r in old(pool) && (q.tenant != 0 ==> r.tenant == q.tenant)
        && (r.trunkNumber == q.inbound || r.trunkNumber == 0)
        && r.weight > 0 && r.workState == Available && InShift(r.schedule, q.clock)
        && ((r.route == Web && r.lastSeen.Some? && q.clock.now - r.lastSeen.value < 90) ||
            (r.route == Sip && r.id in q.dialable))
        && attempts != [] && r.id == attempts[|attempts| - 1]
      ensures target.None? && |attempts| < 32 ==>
        ListEligible(old(pool), q.tenant, q.inbound, q.exclude + Tried(attempts), q.clock) == []
      ensures forall r :: r in old(pool) && r.id in attempts && (r.route == Web || r.id in q.dialable) ==>
        target == Some(r)
      ensures mode == Weight && PoolsUnderLimit(old(pool), q) ==>
        target == FirstConnecting(Take(Candidates(old(pool), q), 32), q)
      ensures pool == if target.Some? && target.value.route == Web && callKnown
        then SetWorkState(old(pool), target.value.id, Ringing) else old(pool)
      ensures mode == Weight ==> lastPicked == old(lastPicked)
    {
      hide InShift, Candidates, ListEligible, FirstConnecting, PoolsUnderLimit, Take, Ids, DistinctIds, SetWorkState;
      hide AllDifferent, NoneExcluded, InCandidateOrder, Tried;
      var tried := q.exclude;
      attempts := [];
      ghost var rows := pool;
      NothingTried(rows, q);
      ghost var simple := mode == Weight && PoolsUnderLimit(rows, q);
      for attempt := 0 to MAX_ROUNDS
        invariant pool == rows && (mode == Weight ==> lastPicked == old(lastPicked))
        invariant |attempts| == attempt && tried == q.exclude + Tried(attempts)
        invariant AllDifferent(attempts) && NoneExcluded(attempts, q) && OnlyConnects(rows, q, attempts, None)
        invariant simple ==> InCandidateOrder(rows, q, attempts)
      {
        if simple {
          NextCandidate(rows, q, attempts);
        }
        var row := PickEligible(q, tried, mode);
        if row.None? {
          target := None;
          if simple {
            NoneConnects(rows, q, attempts);
          }
          return;
        }
        var r := row.value;
        ListedRowIs(rows, q.tenant, q.inbound, tried, q.clock, r);
        TryOne(rows, q, attempts, r);
        ghost var before := attempts;
        attempts := attempts + [r.id];
        if r.route == Web {
          if callKnown {
            pool := SetWorkState(pool, r.id, Ringing);
          }
          target := Some(r);
          if simple {
            FirstIsHere(rows, q, before, r);
          }
          return;
        }
        if r.id in q.dialable {
          target := Some(r);
          if simple {
            FirstIsHere(rows, q, before, r);
          }
          return;
        }
        tried := tried + {r.id};
      }
      target := None;
      if simple {
        NoneConnects(rows, q, attempts);
      }
    }
  }

  // ---- The loop's bookkeeping ----

  predicate AllDifferent(attempts: seq<nat>) {
    forall i, j :: 0 <= i < j < |attempts| ==> attempts[i] != attempts[j]
  }

  predicate NoneExcluded(attempts: seq<nat>, q: Request) {
    forall i :: 0 <= i < |attempts| ==> attempts[i] !in q.exclude
  }

  /** Of the rows tried, none connects but the target. */
  ghost predicate OnlyConnects(pool: seq<Seat>, q: Request, attempts: seq<nat>, target: Option<Seat>) {
    forall r :: r in pool && r.id in attempts && Connects(r, q) ==> target == Some(r)
  }

  /** The rows tried so far are the first candidates. */
  ghost predicate InCandidateOrder(pool: seq<Seat>, q: Request, attempts: seq<nat>) {
    |attempts| <= |Candidates(pool, q)| && attempts == Ids(Candidates(pool, q)[..|attempts|])
  }

  lemma NothingTried(pool: seq<Seat>, q: Request)
    ensures AllDifferent([]) && NoneExcluded([], q) && OnlyConnects(pool, q, [], None) && InCandidateOrder(pool, q, [])
    ensures q.exclude == q.exclude + Tried([])
  {
    hide Candidates;
  }

  lemma TryOne(pool: seq<Seat>, q: Request, attempts: seq<nat>, r: Seat)
    requires DistinctIds(pool) && r in pool && r.id !in q.exclude + Tried(attempts)
    requires AllDifferent(attempts) && NoneExcluded(attempts, q) && OnlyConnects(pool, q, attempts, None)
    ensures var more := attempts + [r.id];
      && AllDifferent(more) && NoneExcluded(more, q) && Tried(more) == Tried(attempts) + {r.id}
      && OnlyConnects(pool, q, more, if Connects(r, q) then Some(r) else None)
      && (InCandidateOrder(pool, q, attempts) && |attempts| < |Candidates(pool, q)| ==>
            r == Candidates(pool, q)[|attempts|] ==> InCandidateOrder(pool, q, more))
  {
    hide Connects, Candidates, DistinctIds;
    var more := attempts + [r.id];
    forall s | s in pool && s.id == r.id ensures s == r { SameRow(pool, r, s); }
    if InCandidateOrder(pool, q, attempts) && |attempts| < |Candidates(pool, q)|
      && r == Candidates(pool, q)[|attempts|] {
      var all := Candidates(pool, q);
      assert all[..|attempts| + 1] == all[..|attempts|] + [r];
    }
  }

  lemma NextCandidate(pool: seq<Seat>, q: Request, attempts: seq<nat>)
    requires DistinctIds(pool) && PoolsUnderLimit(pool, q)
    requires InCandidateOrder(pool, q, attempts)
    ensures var list := ListEligible(pool, q.tenant, q.inbound, q.exclude + Tried(attempts), q.clock);
      && |attempts| <= |Candidates(pool, q)| && (list == [] <==> |attempts| == |Candidates(pool, q)|)
      && (list != [] ==> list[0] == Candidates(pool, q)[|attempts|])
  {
    var k := |attempts|;
    var done := Candidates(pool, q)[..k];
    forall id ensures id in IdSet(done) <==> id in attempts {
      if id in attempts {
        var i :| 0 <= i < k && attempts[i] == id;
        assert done[i].id == id;
      }
    }
    assert IdSet(done) == Tried(attempts);
    ListStartsWithNextCandidate(pool, q, k);
  }

  lemma {:induction false} FirstConnectingAt(rows: seq<Seat>, q: Request, k: nat)
    requires k <= |rows| && forall i :: 0 <= i < k ==> !Connects(rows[i], q)
    ensures k < |rows| && Connects(rows[k], q) ==> FirstConnecting(rows, q) == Some(rows[k])
    ensures k == |rows| ==> FirstConnecting(rows, q) == None
  {
    if k > 0 {
      FirstConnectingAt(rows[1..], q, k - 1);
    }
  }

  lemma EarlierDoNotConnect(pool: seq<Seat>, q: Request, attempts: seq<nat>)
    requires DistinctIds(pool)
    requires InCandidateOrder(pool, q, attempts)
    requires OnlyConnects(pool, q, attempts, None)
    ensures forall i :: 0 <= i < |attempts| ==> !Connects(Candidates(pool, q)[i], q)
  {
    hide Candidates, DistinctIds;
    CandidateFacts(pool, q);
    forall i | 0 <= i < |attempts| ensures !Connects(Candidates(pool, q)[i], q) {
      assert attempts[i] == Candidates(pool, q)[i].id;
    }
  }

  lemma NoneConnects(pool: seq<Seat>, q: Request, attempts: seq<nat>)
    requires DistinctIds(pool)
    requires InCandidateOrder(pool, q, attempts)
    requires OnlyConnects(pool, q, attempts, None)
    requires |attempts| == |Candidates(pool, q)| <= MAX_ROUNDS || |attempts| == MAX_ROUNDS
    ensures FirstConnecting(Take(Candidates(pool, q), MAX_ROUNDS), q) == None
  {
    hide Candidates, DistinctIds, OnlyConnects;
    EarlierDoNotConnect(pool, q, attempts);
    FirstConnectingAt(Take(Candidates(pool, q), MAX_ROUNDS), q, |attempts|);
  }

  lemma FirstIsHere(pool: seq<Seat>, q: Request, attempts: seq<nat>, r: Seat)
    requires DistinctIds(pool) && |attempts| < MAX_ROUNDS
    requires |attempts| < |Candidates(pool, q)| && InCandidateOrder(pool, q, attempts)
    requires OnlyConnects(pool, q, attempts, None)
    requires r == Candidates(pool, q)[|attempts|] && Connects(r, q)
    ensures FirstConnecting(Take(Candidates(pool, q), MAX_ROUNDS), q) == Some(r)
  {
    hide Candidates, DistinctIds, OnlyConnects;
    EarlierDoNotConnect(pool, q, attempts);
    FirstConnectingAt(Take(Candidates(pool, q), MAX_ROUNDS), q, |attempts|);
  }
}
