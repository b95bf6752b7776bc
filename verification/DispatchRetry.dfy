/**
 A waiting contact's next attempt can always be made, and at the very time it is due: the service finishes what it has
 begun, then takes the listed contacts one after another until it is this one's turn.
 */
module DispatchRetry {
  import opened Text
  import opened Lifecycle
  import opened LifecycleRuns
  import opened Dispatch
  import opened DispatchReady
  import opened DispatchRefinement
  import opened DispatchInvariant
  import opened DispatchRuns
  import opened DispatchProgress
  import opened DispatchSlots
  import Correlation

  // ---- Runs of the service's own steps ----

  ghost predicate OwnRun(s: State, steps: seq<Step>, u: State) {
    IsRun(s, steps) && After(s, steps) == u && forall i :: 0 <= i < |steps| ==> OwnStep(steps[i])
  }

  /** The service can get from one state to the other by itself. */
  ghost predicate Reaches(s: State, u: State) {
    exists steps :: OwnRun(s, steps, u)
  }

  lemma ReachesItself(s: State)
    ensures Reaches(s, s)
  {
    assert OwnRun(s, [], s);
  }

  lemma ReachesByStep(s: State, step: Step)
    requires Enabled(s, step) && OwnStep(step)
    ensures Reaches(s, Apply(s, step))
  {
    hide Enabled, Apply;
    OneStep(s, step);
    assert OwnRun(s, [step], Apply(s, step));
  }

  lemma ReachesOn(s: State, u: State, v: State)
    requires Reaches(s, u) && Reaches(u, v)
    ensures Reaches(s, v)
  {
    hide IsRun, After;
    var first :| OwnRun(s, first, u);
    var second :| OwnRun(u, second, v);
    RunsCompose(s, first, second);
    assert OwnRun(s, first + second, v);
  }

  lemma ReachedKeepsInv(s: State, u: State)
    requires Inv(s) && Reaches(s, u)
    ensures Inv(u) && Extends(s.tables, u.tables)
  {
    hide IsRun, After, Inv, Extends;
    var steps :| OwnRun(s, steps, u);
    RunKeepsInv(s, steps);
  }

  // ---- States that are in order ----

  ghost predicate Good(s: State) {
    Inv(s) && forall campaign :: Bounded(s, campaign)
  }

  lemma StepKeepsGood(s: State, step: Step)
    requires Good(s) && Enabled(s, step)
    ensures Good(Apply(s, step))
  {
    hide Inv, Bounded, Enabled, Apply;
    InvKept(s, step);
    forall campaign ensures Bounded(Apply(s, step), campaign) { BoundedKept(s, step, campaign); }
  }

  lemma ReachableIsGood(s: State, past: seq<Step>)
    requires Initial(s) && IsRun(s, past)
    ensures Good(After(s, past))
  {
    hide Inv, Bounded, IsRun, After, Initial;
    ReachableInv(s, past);
    forall campaign ensures Bounded(After(s, past), campaign) {
      InitialSlots(s, campaign);
      BoundedAlongRun(s, past, campaign);
    }
  }

  /** No time passes, and no contact but the dialing ones changes; those stay dialing or are suppressed. */
  ghost predicate Still(s: State, u: State) {
    && u.tables.now == s.tables.now && u.limits == s.limits && u.tables.contacts.Keys == s.tables.contacts.Keys
    && forall id :: id in s.tables.contacts ==>
      if s.tables.contacts[id].status != Dialing then u.tables.contacts[id] == s.tables.contacts[id]
      else u.tables.contacts[id].status == Dialing || u.tables.contacts[id].status == Lifecycle.Suppressed
  }

  lemma StillOn(s: State, u: State, v: State)
    requires Still(s, u) && Still(u, v)
    ensures Still(s, v)
  {
  }

  ghost function DueNow(s: State): set<Id> {
    set id | id in s.tables.contacts && Due(s.tables, id)
  }

  lemma StillKeepsDue(s: State, u: State)
    requires Still(s, u)
    ensures DueNow(u) == DueNow(s)
  {
    assert forall id :: id in s.tables.contacts ==> (Due(u.tables, id) <==> Due(s.tables, id));
  }

  // ---- Finishing the tasks ----

  /** What the handler and the waiter do next with a task. */
  ghost function NextOf(s: State, task: nat): Step
    requires task in s.tasks
  {
    var n := s.tasks[task].snap;
    match s.tasks[task].phase
    case Queued => Start(task)
    case Started => if Duplicate(s.tables, n.id, n.phone, n.campaign) then Step.Suppress(task) else Step.Open(task)
    case Opened(_) => Send(task)
    case Sent(_) => Dispatched(task)
    case Finished => Wake(task)
    case Cancelled => Wake(task)
  }

  function Rank(phase: Phase): nat {
    match phase
    case Queued => 4
    case Started => 3
    case Opened(_) => 2
    case Sent(_) => 1
    case Finished => 0
    case Cancelled => 0
  }

  lemma NextIsEnabled(s: State, task: nat)
    requires task in s.tasks
    ensures Enabled(s, NextOf(s, task)) && OwnStep(NextOf(s, task))
  {
    hide Duplicate, ReadyList;
  }

  lemma StartedIsDialing(s: State, task: nat)
    requires Inv(s) && task in s.tasks && (s.tasks[task].phase.Queued? || s.tasks[task].phase.Started?)
    ensures var n := s.tasks[task].snap;
      n.id in s.tables.contacts && s.tables.contacts[n.id].status == Dialing && Fresh(s.tables, n)
  {
    hide Sound, PollLoopFits, Guarded;
    assert Owns(s, ByTask(task), s.tasks[task].snap.id);
    assert TaskFits(s, task);
  }

  lemma NextIsStill(s: State, task: nat)
    requires task in s.tasks && Enabled(s, NextOf(s, task))
    requires s.tasks[task].phase.Started? ==>
      var id := s.tasks[task].snap.id; id in s.tables.contacts && s.tables.contacts[id].status == Dialing
    ensures var u := Apply(s, NextOf(s, task)); Still(s, u) && u.ticker == s.ticker
  {
    hide Duplicate, ReadyList, Correlation.Print, TasksAfter, OutstandingAfter, CancelledAfter, WatchdogsAfter;
  }

  lemma NextMovesTask(s: State, task: nat)
    requires task in s.tasks && Enabled(s, NextOf(s, task))
    ensures
      var u, phase := Apply(s, NextOf(s, task)), s.tasks[task].phase;
      if Rank(phase) == 0 then u.tasks == s.tasks - {task}
      else task in u.tasks && Rank(u.tasks[task].phase) < Rank(phase) && u.tasks - {task} == s.tasks - {task}
  {
    hide Duplicate, ReadyList, TablesAfter, OutstandingAfter, CancelledAfter, TickerAfter, WatchdogsAfter;
  }

  lemma {:induction false} FinishTask(s: State, task: nat) returns (u: State)
    requires Good(s) && task in s.tasks
    ensures Reaches(s, u) && Good(u) && Still(s, u) && u.ticker == s.ticker && u.tasks == s.tasks - {task}
    decreases Rank(s.tasks[task].phase)
  {
    hide Inv, Bounded, Enabled, Apply, Reaches, NextOf, Still, Rank;
    var step := NextOf(s, task);
    NextIsEnabled(s, task);
    if s.tasks[task].phase.Started? {
      StartedIsDialing(s, task);
    }
    NextIsStill(s, task);
    NextMovesTask(s, task);
    StepKeepsGood(s, step);
    ReachesByStep(s, step);
    u := Apply(s, step);
    if Rank(s.tasks[task].phase) != 0 {
      var v := FinishTask(u, task);
      ReachesOn(s, u, v);
      StillOn(s, u, v);
      u := v;
    }
  }

  lemma {:induction false} FinishAll(s: State) returns (u: State)
    requires Good(s)
    ensures Reaches(s, u) && Good(u) && Still(s, u) && u.ticker == s.ticker && u.tasks == map[]
    decreases |s.tasks|
  {
    hide Good, Reaches;
    if s.tasks == map[] {
      u := s;
      ReachesItself(s);
    } else {
      var task := SomeTask(s.tasks);
      var v := FinishTask(s, task);
      OneTaskFewer(s.tasks, task);
      u := FinishAll(v);
      ReachesOn(s, v, u);
      StillOn(s, v, u);
    }
  }

  lemma SomeTask(tasks: map<nat, Task>) returns (task: nat)
    requires tasks != map[]
    ensures task in tasks
  {
    assert exists k: nat :: k in tasks by {
      assert tasks == map[] <==> forall k: nat :: k !in tasks;
    }
    task :| task in tasks;
  }

  lemma OneTaskFewer(tasks: map<nat, Task>, task: nat)
    requires task in tasks
    ensures |tasks - {task}| < |tasks|
  {
    assert tasks.Keys == (tasks - {task}).Keys + {task};
    assert |tasks| == |tasks.Keys| && |tasks - {task}| == |(tasks - {task}).Keys|;
  }

  // ---- One listed contact after another ----

  ghost predicate Idle(s: State) {
    Good(s) && s.tasks == map[] && s.ticker.claimed == None
  }

  lemma IdleHasSlots(s: State, campaign: Id)
    requires Idle(s)
    ensures Count(s.outstanding, campaign) == 0
  {
    hide Inv, Count;
    assert Bounded(s, campaign);
    assert Holders(s, campaign) == {};
  }

  lemma HeadIsDue(s: State)
    requires Inv(s) && s.ticker.rest != []
    ensures var n := s.ticker.rest[0];
      Due(s.tables, n.id) && n.campaign in s.limits
  {
    hide Sound, OwnedByOne, TasksFit, Guarded;
  }

  lemma HeadIsClaimed(s: State)
    requires s.ticker.claimed == None && s.ticker.rest != [] && Due(s.tables, s.ticker.rest[0].id)
    ensures Enabled(s, Step.Claim)
    ensures Apply(s, Step.Claim) ==
      s.(tables := s.tables.(contacts := SetStatus(s.tables, s.ticker.rest[0].id, Dialing)),
         ticker := Ticker(s.ticker.rest[1..], Some(s.ticker.rest[0])))
  {
    hide SetStatus;
  }

  lemma ClaimedIsQueued(s: State, n: Snapshot)
    requires s.ticker.claimed == Some(n) && n.campaign in s.limits && Count(s.outstanding, n.campaign) == 0
    ensures Enabled(s, Enqueue)
    ensures var u := Apply(s, Enqueue);
      && u.tables == s.tables && u.tasks == s.tasks[s.submitted := Task(n, Queued)] && u.limits == s.limits
      && u.ticker == Ticker(s.ticker.rest, None)
  {
    hide Count, Requeue;
  }

  /** Claims and enqueues the next listed contact while nothing else is going on. */
  lemma TakeHead(s: State) returns (u: State)
    requires Idle(s) && s.ticker.rest != []
    ensures
      var n := s.ticker.rest[0];
      && Reaches(s, u) && Good(u) && Due(s.tables, n.id)
      && u.tables == s.tables.(contacts := SetStatus(s.tables, n.id, Dialing))
      && u.tasks == map[s.submitted := Task(n, Queued)] && u.limits == s.limits
      && u.ticker == Ticker(s.ticker.rest[1..], None)
  {
    hide Inv, Bounded, Enabled, Apply, Reaches, SetStatus, Due, Count;
    var n := s.ticker.rest[0];
    HeadIsDue(s);
    HeadIsClaimed(s);
    IdleHasSlots(s, n.campaign);
    var claimed := Apply(s, Step.Claim);
    StepKeepsGood(s, Step.Claim);
    ReachesByStep(s, Step.Claim);
    ClaimedIsQueued(claimed, n);
    StepKeepsGood(claimed, Enqueue);
    ReachesByStep(claimed, Enqueue);
    u := Apply(claimed, Enqueue);
    ReachesOn(s, claimed, u);
  }

  /** The handler of contact `c` has begun, with `c` otherwise as it was in `s`, and no time has passed. */
  ghost predicate Begun(s: State, u: State, c: Id, task: nat) {
    && InPhase(u, task, Started) && u.tasks[task].snap.id == c
    && u.tables.now == s.tables.now && u.tables.contacts.Keys == s.tables.contacts.Keys
    && c in s.tables.contacts && u.tables.contacts[c] == s.tables.contacts[c].(status := Dialing)
  }

  lemma HeadBegins(s: State) returns (u: State)
    requires Idle(s) && s.ticker.rest != []
    ensures Reaches(s, u) && Good(u) && Begun(s, u, s.ticker.rest[0].id, s.submitted)
  {
    hide Good, Enabled, Apply, Reaches;
    var v := TakeHead(s);
    TaskStarts(v, s.submitted);
    StepKeepsGood(v, Start(s.submitted));
    ReachesByStep(v, Start(s.submitted));
    u := Apply(v, Start(s.submitted));
    ReachesOn(s, v, u);
  }

  lemma TaskStarts(s: State, task: nat)
    requires InPhase(s, task, Queued)
    ensures Enabled(s, Start(task))
    ensures Apply(s, Start(task)) == s.(tasks := s.tasks[task := s.tasks[task].(phase := Started)])
  {
  }

  /** Another contact's turn: afterwards one contact fewer is due. */
  lemma HeadIsDone(s: State) returns (u: State)
    requires Idle(s) && s.ticker.rest != []
    ensures Reaches(s, u) && Idle(u) && u.ticker.rest == s.ticker.rest[1..] && u.limits == s.limits
    ensures u.tables.now == s.tables.now && u.tables.contacts.Keys == s.tables.contacts.Keys
    ensures s.ticker.rest[0].id in DueNow(s) && DueNow(u) == DueNow(s) - {s.ticker.rest[0].id}
    ensures forall id :: id in DueNow(u) ==> u.tables.contacts[id] == s.tables.contacts[id]
  {
    hide Good, Reaches;
    var v := TakeHead(s);
    u := FinishAll(v);
    ReachesOn(s, v, u);
    StillKeepsDue(v, u);
    assert forall id :: id in s.tables.contacts && id != s.ticker.rest[0].id ==>
      (Due(v.tables, id) <==> Due(s.tables, id));
    assert DueNow(v) == DueNow(s) - {s.ticker.rest[0].id};
  }

  /** Asks the database again when the list is used up. */
  lemma ListAgain(s: State, c: Id) returns (u: State)
    requires Idle(s) && s.ticker.rest == [] && c in DueNow(s) && s.tables.contacts[c].campaign in s.limits
    ensures Reaches(s, u) && Idle(u) && u.ticker.rest != [] && u.limits == s.limits && u.tables == s.tables
  {
    hide Inv, Bounded, Apply, Reaches, ReadyList, SnapshotOf;
    var campaign := s.tables.contacts[c].campaign;
    var ids := ReadyListExists(s.tables, campaign, s.limits[campaign]);
    WaitingContactIsListed(s.tables, campaign, s.limits[campaign], ids, c);
    var step := List(campaign, ids);
    ListIs(s, campaign, ids);
    StepKeepsGood(s, step);
    ReachesByStep(s, step);
    u := Apply(s, step);
  }

  lemma {:induction false} TurnComes(s: State, c: Id) returns (u: State, task: nat)
    requires Idle(s) && c in DueNow(s) && s.tables.contacts[c].campaign in s.limits
    ensures Reaches(s, u) && Good(u) && Begun(s, u, c, task)
    decreases |DueNow(s)|, |s.ticker.rest| == 0
  {
    hide Idle, Good, Reaches, DueNow;
    assert c in s.tables.contacts by { DueIsKnown(s, c); }
    if s.ticker.rest == [] {
      var v := ListAgain(s, c);
      assert DueNow(v) == DueNow(s) by { SameDue(s, v); }
      u, task := TurnComes(v, c);
      ReachesOn(s, v, u);
    } else if s.ticker.rest[0].id == c {
      u := HeadBegins(s);
      task := s.submitted;
    } else {
      var v := HeadIsDone(s);
      OneFewerDue(s, v, s.ticker.rest[0].id);
      u, task := TurnComes(v, c);
      ReachesOn(s, v, u);
    }
  }

  lemma DueIsKnown(s: State, c: Id)
    requires c in DueNow(s)
    ensures c in s.tables.contacts
  {
  }

  lemma SameDue(s: State, u: State)
    requires u.tables == s.tables
    ensures DueNow(u) == DueNow(s)
  {
  }

  lemma OneFewerDue(s: State, u: State, id: Id)
    requires id in DueNow(s) && DueNow(u) == DueNow(s) - {id}
    ensures |DueNow(u)| < |DueNow(s)|
  {
    assert DueNow(s) == DueNow(u) + {id};
  }

  // ---- Getting there from any reachable state ----

  predicate Waits(s: State, c: Id) {
    c in s.tables.contacts && (s.tables.contacts[c].status == Ready || s.tables.contacts[c].status == Retrying)
  }

  /** The time at which a waiting contact is due, or now. */
  function DueTime(s: State, c: Id): int
    requires c in s.tables.contacts
  {
    var at := s.tables.contacts[c].nextRunAt;
    if at.Some? && at.value > s.tables.now then at.value else s.tables.now
  }

  lemma WaitUntilDue(s: State, c: Id) returns (u: State)
    requires Good(s) && Waits(s, c)
    ensures Reaches(s, u) && Good(u) && u.limits == s.limits && u.tables.contacts == s.tables.contacts
    ensures u.tables.now == DueTime(s, c) && Due(u.tables, c)
  {
    hide Good, Reaches;
    var step := Step.Pass(DueTime(s, c) - s.tables.now);
    StepKeepsGood(s, step);
    ReachesByStep(s, step);
    u := Apply(s, step);
  }

  /** The poll loop hands on or gives back the contact it has claimed; a waiting contact is not that one. */
  lemma ClaimedIsHandedOn(s: State, c: Id) returns (u: State)
    requires Good(s) && Waits(s, c)
    ensures Reaches(s, u) && Good(u) && u.limits == s.limits && u.ticker.claimed == None
    ensures u.tables.now == s.tables.now && u.tables.contacts.Keys == s.tables.contacts.Keys
    ensures u.tables.contacts[c] == s.tables.contacts[c]
  {
    hide Inv, Bounded, Reaches, Apply, Enabled;
    if s.ticker.claimed == None {
      u := s;
      ReachesItself(s);
    } else {
      EnqueueMovesOnlyTheClaimed(s, c);
      StepKeepsGood(s, Enqueue);
      ReachesByStep(s, Enqueue);
      u := Apply(s, Enqueue);
    }
  }

  lemma EnqueueMovesOnlyTheClaimed(s: State, c: Id)
    requires Inv(s) && Waits(s, c) && s.ticker.claimed.Some?
    ensures Enabled(s, Enqueue)
    ensures
      var u := Apply(s, Enqueue);
      && u.limits == s.limits && u.ticker.claimed == None
      && u.tables.now == s.tables.now && u.tables.contacts.Keys == s.tables.contacts.Keys
      && u.tables.contacts[c] == s.tables.contacts[c]
  {
    hide Sound, TasksFit, Guarded, SlotIsFree;
    assert Owns(s, ByPollLoop, s.ticker.claimed.value.id);
  }

  lemma HandlerBeginsWhenDue(s: State, c: Id) returns (u: State, task: nat)
    requires Good(s) && Waits(s, c) && s.tables.contacts[c].campaign in s.limits
    ensures Reaches(s, u) && Good(u)
    ensures InPhase(u, task, Started) && u.tasks[task].snap.id == c
    ensures u.tables.now == DueTime(s, c) && u.tables.contacts.Keys == s.tables.contacts.Keys
    ensures u.tables.contacts[c] == s.tables.contacts[c].(status := Dialing)
  {
    hide Good, Reaches;
    var v := WaitUntilDue(s, c);
    var w := ClaimedIsHandedOn(v, c);
    var x := FinishAll(w);
    assert Idle(x) && Still(w, x);
    assert c in DueNow(x);
    u, task := TurnComes(x, c);
    ReachesOn(s, v, w);
    ReachesOn(s, w, x);
    ReachesOn(s, x, u);
  }

  ghost predicate OpensNext(u: State, c: Id, task: nat)
    requires c in u.tables.contacts
  {
    var k := u.tables.contacts[c];
    !Duplicate(u.tables, c, k.phone, k.campaign) ==>
      && Enabled(u, Step.Open(task))
      && Apply(u, Step.Open(task)).tables.attempts == u.tables.attempts
           + [Attempt(k.campaign, c, k.attemptCount + 1,
                Correlation.Print(Correlation.Key(k.campaign, c, k.attemptCount + 1)),
                InProgress, u.tables.now, None, None)]
  }

  /** If the duplicate check passes, the handler that has begun opens the contact's next attempt. */
  lemma BegunOpens(u: State, c: Id, task: nat)
    requires Inv(u) && InPhase(u, task, Started) && u.tasks[task].snap.id == c
    ensures c in u.tables.contacts && OpensNext(u, c, task)
  {
    hide Inv, Duplicate, Correlation.Print, ReadyList;
    StartedIsDialing(u, task);
  }

  /** From every reachable state, for every contact that is ready or waits for a retry: the service's own steps can
      bring its handler to begin at the very time the contact is due, with its row untouched; and there, if the
      duplicate check passes, the next attempt is opened. */
  lemma NextAttemptCanBeMade(s: State, past: seq<Step>, c: Id)
    requires Initial(s) && IsRun(s, past) && Waits(After(s, past), c)
    requires After(s, past).tables.contacts[c].campaign in After(s, past).limits
    ensures exists u, task :: CanOpenNext(After(s, past), u, c, task)
  {
    hide IsRun, After, Initial, Good, Reaches;
    ReachableIsGood(s, past);
    var v := After(s, past);
    var u, task := HandlerBeginsWhenDue(v, c);
    assert Inv(u) by { GoodIsInv(u); }
    BegunOpens(u, c, task);
    assert CanOpenNext(v, u, c, task);
  }

  lemma GoodIsInv(s: State)
    requires Good(s)
    ensures Inv(s)
  {
    hide Inv, Bounded;
  }

  ghost predicate CanOpenNext(v: State, u: State, c: Id, task: nat) {
    && Reaches(v, u) && InPhase(u, task, Started) && u.tasks[task].snap.id == c
    && u.tables.contacts.Keys == v.tables.contacts.Keys
    && c in v.tables.contacts && u.tables.contacts[c] == v.tables.contacts[c].(status := Dialing)
    && u.tables.now == DueTime(v, c)
    && OpensNext(u, c, task)
  }

  /** No other contact of the campaign has this contact's phone. */
  ghost predicate NumberIsItsOwn(t: Tables, c: Id)
    requires c in t.contacts
  {
    forall other :: other in t.contacts && other != c && t.contacts[other].campaign == t.contacts[c].campaign ==>
      t.contacts[other].phone != t.contacts[c].phone
  }

  /** So a contact with a number of its own is dialled again, as soon as it is due. */
  lemma OwnNumberIsDialled(s: State, past: seq<Step>, c: Id)
    requires Initial(s) && IsRun(s, past) && Waits(After(s, past), c)
    requires After(s, past).tables.contacts[c].campaign in After(s, past).limits
    requires NumberIsItsOwn(After(s, past).tables, c)
    ensures exists w :: Reaches(After(s, past), w) && JustDialled(After(s, past), w, c)
  {
    hide IsRun, After, Initial, Inv, Reaches, Apply, Enabled, Correlation.Print, NumberIsItsOwn, Duplicate;
    NextAttemptCanBeMade(s, past, c);
    ReachableInv(s, past);
    var v := After(s, past);
    var u, task :| CanOpenNext(v, u, c, task);
    ReachedKeepsInv(v, u);
    NotADuplicate(v.tables, u.tables, c);
    ReachesByStep(u, Step.Open(task));
    ReachesOn(v, u, Apply(u, Step.Open(task)));
    assert JustDialled(v, Apply(u, Step.Open(task)), c);
  }

  /** The latest attempt is the contact's next one, started when it was due. */
  ghost predicate JustDialled(v: State, w: State, c: Id)
    requires c in v.tables.contacts
  {
    && w.tables.attempts != []
    && var a := w.tables.attempts[|w.tables.attempts| - 1];
    && a.contact == c && a.number == v.tables.contacts[c].attemptCount + 1
    && a.state == InProgress && a.dialedAt == DueTime(v, c)
  }

  lemma NotADuplicate(t: Tables, u: Tables, c: Id)
    requires Extends(t, u) && u.contacts.Keys == t.contacts.Keys && c in t.contacts && NumberIsItsOwn(t, c)
    ensures !Duplicate(u, c, t.contacts[c].phone, t.contacts[c].campaign)
  {
    forall other | other in u.contacts && other != c
      ensures !DialledRecently(u.contacts[other], t.contacts[c].phone, t.contacts[c].campaign, u.now)
    {
      assert ContactExtends(t.contacts[other], u.contacts[other]);
    }
  }
}
