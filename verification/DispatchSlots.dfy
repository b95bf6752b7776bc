/**
 The per-campaign slot counter.  Cancelling a queued task releases its slot, and so does the task's waiter, which the
 scheduler wakes when it drops a cancelled task: a cancelled task's slot is given back twice.
 */
module DispatchSlots {
  import opened Text
  import opened Lifecycle
  import opened LifecycleRuns
  import opened Dispatch
  import opened DispatchRuns

  /** Tasks of the campaign that still occupy a slot: submitted, not cancelled, waiter not yet woken. */
  ghost function Holders(s: State, campaign: Id): set<nat> {
    set task | task in s.tasks && s.tasks[task].snap.campaign == campaign && s.tasks[task].phase != Cancelled
  }

  /** `TaskConcurrency`, or one if that is not positive; a campaign that is not configured has no slots. */
  ghost function LimitOf(s: State, campaign: Id): nat {
    if campaign !in s.limits then 0 else if s.limits[campaign] > 1 then s.limits[campaign] else 1
  }

  /** The counter never exceeds the limit, nor the number of tasks that occupy a slot. */
  ghost predicate Bounded(s: State, campaign: Id) {
    && Count(s.outstanding, campaign) <= LimitOf(s, campaign)
    && Count(s.outstanding, campaign) <= |Holders(s, campaign)|
    && (forall task :: task in s.tasks ==> task < s.submitted)
  }

  ghost predicate Exact(s: State, campaign: Id) {
    Count(s.outstanding, campaign) == |Holders(s, campaign)|
  }

  /** A cancelled task's waiter gives back a slot that belongs to another task. */
  ghost predicate TakesAForeignSlot(s: State, step: Step, campaign: Id)
    requires Enabled(s, step)
  {
    && step.Wake? && s.tasks[step.task].phase == Cancelled && s.tasks[step.task].snap.campaign == campaign
    && Count(s.outstanding, campaign) > 0
  }

  predicate MovesSlots(step: Step) {
    step.Enqueue? || step.Wake? || step.Cancel?
  }

  lemma OtherStepsLeaveCounters(s: State, step: Step)
    requires Enabled(s, step) && !MovesSlots(step)
    ensures var u := Apply(s, step); u.outstanding == s.outstanding && u.submitted == s.submitted
  {
    hide TablesAfter, TasksAfter, ReadyList, Duplicate, SnapshotOf;
  }

  /** The other steps add and remove no task, cancel none, and change no task's campaign. */
  lemma OtherStepsKeepHolders(s: State, step: Step, campaign: Id)
    requires Enabled(s, step) && !MovesSlots(step)
    ensures Holders(Apply(s, step), campaign) == Holders(s, campaign)
    ensures Apply(s, step).tasks.Keys == s.tasks.Keys
  {
    hide Apply, Enabled, TasksAfter;
    OtherStepsKeepTasks(s, step);
    assert forall task :: task in Holders(Apply(s, step), campaign) <==> task in Holders(s, campaign);
  }

  lemma OtherStepsKeepTasks(s: State, step: Step)
    requires Enabled(s, step) && !MovesSlots(step)
    ensures var tasks := Apply(s, step).tasks;
      && tasks.Keys == s.tasks.Keys
      && forall task :: task in tasks ==>
           && tasks[task].snap == s.tasks[task].snap
           && (tasks[task].phase == Cancelled <==> s.tasks[task].phase == Cancelled)
  {
    hide Enabled, Moved, PhaseAfter, TablesAfter, OutstandingAfter, TickerAfter, CancelledAfter, WatchdogsAfter;
    if Moved(step).Some? {
      MovedIsLive(s, step);
    }
  }

  lemma MovedIsLive(s: State, step: Step)
    requires Enabled(s, step) && !MovesSlots(step) && Moved(step).Some?
    ensures Moved(step).value in s.tasks
    ensures var phase := s.tasks[Moved(step).value].phase; phase != Cancelled && PhaseAfter(s, step, phase) != Cancelled
  {
    hide ReadyList, Duplicate;
  }

  lemma OtherStepsLeaveSlots(s: State, step: Step, campaign: Id)
    requires Enabled(s, step) && !MovesSlots(step) && Bounded(s, campaign)
    ensures Bounded(Apply(s, step), campaign)
    ensures Exact(Apply(s, step), campaign) <==> Exact(s, campaign)
  {
    hide Apply, Holders, Enabled, LimitOf;
    OtherStepsLeaveCounters(s, step);
    OtherStepsKeepHolders(s, step, campaign);
    LimitStays(s, step, campaign);
  }

  lemma EnqueueMovesHolders(s: State, campaign: Id)
    requires Enabled(s, Enqueue) && s.submitted !in s.tasks
    ensures
      var n := s.ticker.claimed.value;
      Holders(Apply(s, Enqueue), campaign) ==
        if n.campaign == campaign && SlotIsFree(s) then Holders(s, campaign) + {s.submitted} else Holders(s, campaign)
  {
    hide TablesAfter, ReadyList, Duplicate, SnapshotOf, OutstandingAfter, SlotIsFree;
    var n := s.ticker.claimed.value;
    var before, now := Holders(s, campaign), Holders(Apply(s, Enqueue), campaign);
    if n.campaign == campaign && SlotIsFree(s) {
      assert now == before + {s.submitted};
    } else {
      assert now == before;
    }
  }

  lemma EnqueueMovesCounter(s: State, campaign: Id)
    requires Enabled(s, Enqueue)
    ensures
      var n, count := s.ticker.claimed.value, Count(s.outstanding, campaign);
      Count(Apply(s, Enqueue).outstanding, campaign) ==
        if n.campaign == campaign && SlotIsFree(s) then count + 1 else count
    ensures s.ticker.claimed.value.campaign == campaign && SlotIsFree(s) ==>
      Count(s.outstanding, campaign) < LimitOf(s, campaign)
    ensures Apply(s, Enqueue).submitted == if SlotIsFree(s) then s.submitted + 1 else s.submitted
    ensures forall task :: task in Apply(s, Enqueue).tasks ==> task in s.tasks || (SlotIsFree(s) && task == s.submitted)
  {
    hide TablesAfter, ReadyList, Duplicate, SnapshotOf;
  }

  lemma EnqueueMovesSlots(s: State, campaign: Id)
    requires Enabled(s, Enqueue) && Bounded(s, campaign)
    ensures Bounded(Apply(s, Enqueue), campaign)
    ensures Exact(s, campaign) ==> Exact(Apply(s, Enqueue), campaign)
  {
    hide Apply, Holders, Count, LimitOf, SlotIsFree;
    EnqueueMovesHolders(s, campaign);
    EnqueueMovesCounter(s, campaign);
    LimitStays(s, Enqueue, campaign);
    OneMore(Holders(s, campaign), s.submitted);
    assert s.submitted !in Holders(s, campaign) by { HoldersAreTasks(s, campaign, s.submitted); }
  }

  lemma HoldersAreTasks(s: State, campaign: Id, task: nat)
    ensures task in Holders(s, campaign) ==> task in s.tasks
  {
  }

  lemma OneMore(holders: set<nat>, task: nat)
    ensures task !in holders ==> |holders + {task}| == |holders| + 1
  {
  }

  lemma CancelMovesHolders(s: State, task: nat, campaign: Id)
    requires Enabled(s, Cancel(task))
    ensures Holders(Apply(s, Cancel(task)), campaign) == Holders(s, campaign) - {task}
    ensures task in Holders(s, campaign) <==> s.tasks[task].snap.campaign == campaign
    ensures Apply(s, Cancel(task)).submitted == s.submitted
    ensures forall other :: other in Apply(s, Cancel(task)).tasks ==> other in s.tasks
    ensures task in s.tasks
    ensures Apply(s, Cancel(task)).outstanding == Release1(s.outstanding, s.tasks[task].snap.campaign)
  {
    hide TablesAfter, ReadyList, Duplicate, SnapshotOf, Release1;
    assert Holders(Apply(s, Cancel(task)), campaign) == Holders(s, campaign) - {task};
  }

  lemma WakeMovesHolders(s: State, task: nat, campaign: Id)
    requires Enabled(s, Wake(task))
    ensures Holders(Apply(s, Wake(task)), campaign) == Holders(s, campaign) - {task}
    ensures task in Holders(s, campaign) <==>
      s.tasks[task].snap.campaign == campaign && s.tasks[task].phase != Cancelled
    ensures Apply(s, Wake(task)).submitted == s.submitted
    ensures forall other :: other in Apply(s, Wake(task)).tasks ==> other in s.tasks
    ensures task in s.tasks
    ensures Apply(s, Wake(task)).outstanding == Release1(s.outstanding, s.tasks[task].snap.campaign)
  {
    hide TablesAfter, ReadyList, Duplicate, SnapshotOf, Release1;
    assert Holders(Apply(s, Wake(task)), campaign) == Holders(s, campaign) - {task};
  }

  lemma ReleaseLowersCount(outstanding: map<Id, nat>, released: Id, campaign: Id)
    ensures Count(Release1(outstanding, released), campaign) ==
      if released == campaign && Count(outstanding, campaign) > 0 then Count(outstanding, campaign) - 1
      else Count(outstanding, campaign)
  {
  }

  lemma CancelMovesSlots(s: State, task: nat, campaign: Id)
    requires Enabled(s, Cancel(task)) && Bounded(s, campaign)
    ensures Bounded(Apply(s, Cancel(task)), campaign)
    ensures Exact(s, campaign) ==> Exact(Apply(s, Cancel(task)), campaign)
  {
    hide Apply, Holders, Count, LimitOf, Release1, Enabled;
    CancelMovesHolders(s, task, campaign);
    RemovedOne(Holders(s, campaign), task);
    ReleaseLowersCount(s.outstanding, s.tasks[task].snap.campaign, campaign);
    LimitStays(s, Cancel(task), campaign);
  }

  lemma WakeMovesSlots(s: State, task: nat, campaign: Id)
    requires Enabled(s, Wake(task)) && Bounded(s, campaign)
    ensures Bounded(Apply(s, Wake(task)), campaign)
    ensures Exact(s, campaign) ==>
              (Exact(Apply(s, Wake(task)), campaign) <==> !TakesAForeignSlot(s, Wake(task), campaign))
  {
    hide Apply, Holders, Count, LimitOf, Release1, Enabled;
    WakeMovesHolders(s, task, campaign);
    RemovedOne(Holders(s, campaign), task);
    ReleaseLowersCount(s.outstanding, s.tasks[task].snap.campaign, campaign);
    LimitStays(s, Wake(task), campaign);
  }

  lemma RemovedOne(holders: set<nat>, task: nat)
    ensures |holders - {task}| == if task in holders then |holders| - 1 else |holders|
  {
    if task !in holders { assert holders - {task} == holders; }
  }

  lemma BoundedKept(s: State, step: Step, campaign: Id)
    requires Enabled(s, step) && Bounded(s, campaign)
    ensures Bounded(Apply(s, step), campaign)
  {
    hide Apply, Enabled, Bounded, Exact, TakesAForeignSlot;
    match step
    case Enqueue => EnqueueMovesSlots(s, campaign);
    case Wake(task) => WakeMovesSlots(s, task, campaign);
    case Cancel(task) => CancelMovesSlots(s, task, campaign);
    case _ => OtherStepsLeaveSlots(s, step, campaign);
  }

  /** The counter stays equal to the number of occupying tasks exactly while no cancelled task's waiter takes a slot. */
  lemma ExactKeptIff(s: State, step: Step, campaign: Id)
    requires Enabled(s, step) && Bounded(s, campaign) && Exact(s, campaign)
    ensures Exact(Apply(s, step), campaign) <==> !TakesAForeignSlot(s, step, campaign)
  {
    hide Apply, Enabled, Bounded, Exact;
    match step
    case Enqueue => EnqueueMovesSlots(s, campaign);
    case Wake(task) => WakeMovesSlots(s, task, campaign);
    case Cancel(task) => CancelMovesSlots(s, task, campaign);
    case _ => OtherStepsLeaveSlots(s, step, campaign);
  }

  lemma InitialSlots(s: State, campaign: Id)
    requires Initial(s)
    ensures Bounded(s, campaign) && Exact(s, campaign)
  {
    assert Holders(s, campaign) == {};
  }

  lemma {:induction false} BoundedAlongRun(s: State, steps: seq<Step>, campaign: Id)
    requires Bounded(s, campaign) && IsRun(s, steps)
    ensures Bounded(After(s, steps), campaign)
    ensures LimitOf(After(s, steps), campaign) == LimitOf(s, campaign)
    decreases |steps|
  {
    hide Bounded, Apply, Enabled, LimitOf;
    if steps != [] {
      BoundedKept(s, steps[0], campaign);
      LimitStays(s, steps[0], campaign);
      BoundedAlongRun(Apply(s, steps[0]), steps[1..], campaign);
    }
  }

  lemma LimitStays(s: State, step: Step, campaign: Id)
    requires Enabled(s, step)
    ensures LimitOf(Apply(s, step), campaign) == LimitOf(s, campaign)
  {
    hide Enabled, TablesAfter, TasksAfter, OutstandingAfter, TickerAfter, CancelledAfter, WatchdogsAfter, SlotIsFree;
  }

  /** For every interleaving the counter stays within 0 .. limit. */
  lemma CounterWithinLimit(s: State, steps: seq<Step>, campaign: Id)
    requires Initial(s) && IsRun(s, steps)
    ensures var n := Count(After(s, steps).outstanding, campaign);
      && (campaign in s.limits && s.limits[campaign] > 0 ==> n <= s.limits[campaign])
      && (campaign in s.limits && s.limits[campaign] <= 0 ==> n <= 1)
      && (campaign !in s.limits ==> n == 0)
  {
    hide IsRun, After, Initial;
    InitialSlots(s, campaign);
    BoundedAlongRun(s, steps, campaign);
  }

  ghost predicate NeverTakesAForeignSlot(s: State, steps: seq<Step>, campaign: Id)
    requires IsRun(s, steps)
    decreases |steps|
  {
    steps == [] ||
      (!TakesAForeignSlot(s, steps[0], campaign) && NeverTakesAForeignSlot(Apply(s, steps[0]), steps[1..], campaign))
  }

  /** The counter counts the occupying tasks at the start and after every step. */
  ghost predicate ExactThroughout(s: State, steps: seq<Step>, campaign: Id)
    requires IsRun(s, steps)
    decreases |steps|
  {
    Exact(s, campaign) && (steps == [] || ExactThroughout(Apply(s, steps[0]), steps[1..], campaign))
  }

  /** Over a run the counter counts the occupying tasks throughout exactly when no cancelled task's waiter takes a
      slot. */
  lemma {:induction false} ExactThroughoutIff(s: State, steps: seq<Step>, campaign: Id)
    requires Bounded(s, campaign) && Exact(s, campaign) && IsRun(s, steps)
    ensures ExactThroughout(s, steps, campaign) <==> NeverTakesAForeignSlot(s, steps, campaign)
    decreases |steps|
  {
    hide Bounded, Exact, Apply, Enabled, TakesAForeignSlot;
    if steps != [] {
      BoundedKept(s, steps[0], campaign);
      ExactKeptIff(s, steps[0], campaign);
      if Exact(Apply(s, steps[0]), campaign) {
        ExactThroughoutIff(Apply(s, steps[0]), steps[1..], campaign);
      }
    }
  }

  lemma {:induction false} ExactAtTheEnd(s: State, steps: seq<Step>, campaign: Id)
    requires IsRun(s, steps) && ExactThroughout(s, steps, campaign)
    ensures Exact(After(s, steps), campaign)
    decreases |steps|
  {
    hide Exact, Apply, Enabled;
    if steps != [] {
      ExactAtTheEnd(Apply(s, steps[0]), steps[1..], campaign);
    }
  }

  /** From the start, over every run without double releases, at most `TaskConcurrency` tasks of a campaign are in
      flight, and the counter counts them. */
  lemma InFlightWithinLimit(s: State, steps: seq<Step>, campaign: Id)
    requires Initial(s) && IsRun(s, steps) && NeverTakesAForeignSlot(s, steps, campaign)
    ensures var n := |Holders(After(s, steps), campaign)|;
      && Count(After(s, steps).outstanding, campaign) == n
      && (campaign in s.limits && s.limits[campaign] > 0 ==> n <= s.limits[campaign])
      && (campaign in s.limits && s.limits[campaign] <= 0 ==> n <= 1)
      && (campaign !in s.limits ==> n == 0)
  {
    hide IsRun, After, NeverTakesAForeignSlot, ExactThroughout, Initial, Holders;
    InitialSlots(s, campaign);
    ExactThroughoutIff(s, steps, campaign);
    ExactAtTheEnd(s, steps, campaign);
    BoundedAlongRun(s, steps, campaign);
  }

  /** In every reachable state a claimed contact gets a slot, and a task, exactly when the campaign's counter is below
      `TaskConcurrency`, or below one if that is not positive; otherwise it is given back, due at once. */
  lemma SlotIffBelowLimit(s: State, past: seq<Step>)
    requires Initial(s) && IsRun(s, past) && After(s, past).ticker.claimed.Some?
    ensures
      var u := After(s, past);
      var n := u.ticker.claimed.value;
      && n.campaign in s.limits && n.id in u.tables.contacts && Enabled(u, Enqueue)
      && var v := Apply(u, Enqueue);
      var count := Count(u.outstanding, n.campaign);
      if (s.limits[n.campaign] > 0 && count < s.limits[n.campaign]) || (s.limits[n.campaign] <= 0 && count == 0)
      then
        && v.tasks == u.tasks[u.submitted := Task(n, Queued)] && v.submitted == u.submitted + 1
        && v.outstanding == u.outstanding[n.campaign := count + 1] && v.tables == u.tables
      else
        && v.tasks == u.tasks && v.submitted == u.submitted && v.outstanding == u.outstanding
        && v.tables.attempts == u.tables.attempts
        && v.tables.contacts == u.tables.contacts[n.id :=
             u.tables.contacts[n.id].(status := Ready, nextRunAt := Some(u.tables.now))]
  {
    hide IsRun, After, Initial, Inv;
    ReachableInv(s, past);
    LimitsStay(s, past);
    SlotIff(After(s, past));
  }

  lemma SlotIff(u: State)
    requires Inv(u) && u.ticker.claimed.Some?
    ensures
      var n := u.ticker.claimed.value;
      && n.campaign in u.limits && n.id in u.tables.contacts && Enabled(u, Enqueue)
      && var v := Apply(u, Enqueue);
      var count := Count(u.outstanding, n.campaign);
      if (u.limits[n.campaign] > 0 && count < u.limits[n.campaign]) || (u.limits[n.campaign] <= 0 && count == 0)
      then
        && v.tasks == u.tasks[u.submitted := Task(n, Queued)] && v.submitted == u.submitted + 1
        && v.outstanding == u.outstanding[n.campaign := count + 1] && v.tables == u.tables
      else
        && v.tasks == u.tasks && v.submitted == u.submitted && v.outstanding == u.outstanding
        && v.tables.attempts == u.tables.attempts
        && v.tables.contacts == u.tables.contacts[n.id :=
             u.tables.contacts[n.id].(status := Ready, nextRunAt := Some(u.tables.now))]
  {
    hide Sound, TasksFit, Guarded;
    var n := u.ticker.claimed.value;
    assert Owns(u, ByPollLoop, n.id);
    assert u.tables.contacts[n.id].status == Dialing;
  }

  lemma {:induction false} LimitsStay(s: State, steps: seq<Step>)
    requires IsRun(s, steps)
    ensures After(s, steps).limits == s.limits
    decreases |steps|
  {
    hide Apply, Enabled;
    if steps != [] {
      LimitsStayOnce(s, steps[0]);
      LimitsStay(Apply(s, steps[0]), steps[1..]);
    }
  }

  lemma LimitsStayOnce(s: State, step: Step)
    requires Enabled(s, step)
    ensures Apply(s, step).limits == s.limits
  {
    hide Enabled, TablesAfter, TasksAfter, OutstandingAfter, TickerAfter, CancelledAfter, WatchdogsAfter, SlotIsFree;
  }

  // ---- The limit can be exceeded ----

  lemma ListIs(s: State, campaign: Id, ids: seq<Id>)
    requires Enabled(s, List(campaign, ids))
    ensures Apply(s, List(campaign, ids)) ==
      s.(ticker := Ticker(seq(|ids|, i requires 0 <= i < |ids| => SnapshotOf(s.tables, ids[i])), None))
  {
    hide ReadyList, SnapshotOf;
  }

  lemma ClaimIs(s: State)
    requires Enabled(s, Step.Claim) && ClaimSucceeds(s)
    ensures Apply(s, Step.Claim) ==
      s.(tables := s.tables.(contacts := SetStatus(s.tables, s.ticker.rest[0].id, Dialing)),
         ticker := Ticker(s.ticker.rest[1..], Some(s.ticker.rest[0])))
  {
    hide SetStatus, ClaimSucceeds;
  }

  lemma EnqueueIs(s: State)
    requires Enabled(s, Enqueue) && SlotIsFree(s)
    ensures
      var n := s.ticker.claimed.value;
      Apply(s, Enqueue) ==
        s.(tasks := s.tasks[s.submitted := Task(n, Queued)],
           submitted := s.submitted + 1,
           outstanding := TryAcquire(s.outstanding, n.campaign, s.limits[n.campaign]).value,
           ticker := s.ticker.(claimed := None))
  {
    hide TryAcquire, Requeue;
  }

  lemma CancelIs(s: State, task: nat)
    requires Enabled(s, Cancel(task))
    ensures Apply(s, Cancel(task)) ==
      s.(tasks := s.tasks[task := s.tasks[task].(phase := Cancelled)],
         outstanding := Release1(s.outstanding, s.tasks[task].snap.campaign),
         cancelled := s.cancelled + {s.tasks[task].snap.id})
  {
    hide Release1;
  }

  lemma WakeIs(s: State, task: nat)
    requires Enabled(s, Wake(task))
    ensures Apply(s, Wake(task)) ==
      s.(tasks := s.tasks - {task}, outstanding := Release1(s.outstanding, s.tasks[task].snap.campaign))
  {
    hide Release1;
  }

  /** Only one contact is listed when the campaign's limit is one. */
  lemma OneIsListed(s: State, campaign: Id, id: Id)
    requires s.ticker == Ticker([], None) && campaign in s.limits && s.limits[campaign] == 1
    requires ReadyToDial(s.tables, campaign, id)
    requires forall other :: ReadyToDial(s.tables, campaign, other) && other != id ==> DialsBefore(s.tables, id, other)
    ensures Enabled(s, List(campaign, [id]))
    ensures Apply(s, List(campaign, [id])) == s.(ticker := Ticker([SnapshotOf(s.tables, id)], None))
  {
    hide Apply, DialsBefore;
    assert ReadyList(s.tables, campaign, 1, [id]);
    ListIs(s, campaign, [id]);
    assert seq(1, i requires 0 <= i < 1 => SnapshotOf(s.tables, [id][i])) == [SnapshotOf(s.tables, id)];
  }

  lemma ClaimAndEnqueue(s: State, n: Snapshot) returns (u: State)
    requires s.ticker == Ticker([n], None) && n.campaign in s.limits && s.limits[n.campaign] == 1
    requires Count(s.outstanding, n.campaign) == 0 && ClaimSucceeds(s)
    ensures Leads(s, u)
    ensures u == s.(
      tables := s.tables.(contacts := SetStatus(s.tables, n.id, Dialing)),
      tasks := s.tasks[s.submitted := Task(n, Queued)],
      submitted := s.submitted + 1,
      outstanding := s.outstanding[n.campaign := 1],
      ticker := Ticker([], None))
  {
    hide Apply, Leads, ClaimSucceeds, SetStatus;
    ClaimIs(s);
    var claimed := Apply(s, Step.Claim);
    assert [n][1..] == [];
    EnqueueIs(claimed);
    u := Apply(claimed, Enqueue);
    StepLeads(s, Step.Claim);
    StepLeads(claimed, Enqueue);
    LeadsOn(s, claimed, u);
  }

  /** Dispatching the next due contact of a campaign whose single slot is free. */
  lemma DispatchNext(s: State, campaign: Id, id: Id) returns (u: State)
    requires s.ticker == Ticker([], None)
    requires campaign in s.limits && s.limits[campaign] == 1 && Count(s.outstanding, campaign) == 0
    requires ReadyToDial(s.tables, campaign, id)
    requires forall other :: ReadyToDial(s.tables, campaign, other) && other != id ==> DialsBefore(s.tables, id, other)
    ensures Leads(s, u)
    ensures u == s.(
      tables := s.tables.(contacts := SetStatus(s.tables, id, Dialing)),
      tasks := s.tasks[s.submitted := Task(SnapshotOf(s.tables, id), Queued)],
      submitted := s.submitted + 1,
      outstanding := s.outstanding[campaign := 1])
  {
    hide Apply, Leads, Enabled, DialsBefore, SetStatus;
    OneIsListed(s, campaign, id);
    var list := List(campaign, [id]);
    StepLeads(s, list);
    u := ClaimAndEnqueue(Apply(s, list), SnapshotOf(s.tables, id));
    LeadsOn(s, Apply(s, list), u);
  }

  lemma StepLeads(s: State, step: Step)
    requires Enabled(s, step)
    ensures Leads(s, Apply(s, step))
  {
    OneStep(s, step);
  }

  function NewContact(phone: string): Contact {
    Contact(1, phone, 0, Ready, 0, 3, Some(0), None)
  }

  /** Three contacts of campaign 1, whose limit is one task at a time. */
  function ThreeContacts(): State {
    State(Tables(0, map[1 := NewContact("1"), 2 := NewContact("2"), 3 := NewContact("3")], []),
          map[], 0, map[], Ticker([], None), {}, map[], map[1 := 1])
  }

  lemma ThreeContactsAreReachable(s: State)
    requires Initial(s) && s.limits == map[1 := 1]
    ensures Leads(s, ThreeContacts())
  {
    hide Apply, Leads;
    ImportIs(s, 1, "1");
    var s1 := Apply(s, Import(1, 1, "1", 0, 0));
    ImportIs(s1, 2, "2");
    var s2 := Apply(s1, Import(2, 1, "2", 0, 0));
    ImportIs(s2, 3, "3");
    var s3 := Apply(s2, Import(3, 1, "3", 0, 0));
    StepLeads(s, Import(1, 1, "1", 0, 0));
    StepLeads(s1, Import(2, 1, "2", 0, 0));
    StepLeads(s2, Import(3, 1, "3", 0, 0));
    LeadsOn(s, s1, s2);
    LeadsOn(s, s2, s3);
    assert s3.tables.contacts == ThreeContacts().tables.contacts;
  }

  lemma ImportIs(s: State, id: Id, phone: string)
    requires id !in s.tables.contacts && s.tables.now == 0
    ensures var step := Import(id, 1, phone, 0, 0);
      Enabled(s, step) &&
      Apply(s, step) == s.(tables := s.tables.(contacts := s.tables.contacts[id := NewContact(phone)]))
  {
  }

  /** The first contact is dispatched. */
  lemma FirstIsDispatched() returns (u: State)
    ensures Leads(ThreeContacts(), u)
    ensures u.ticker == Ticker([], None) && u.limits == map[1 := 1] && u.outstanding == map[1 := 1] && u.submitted == 1
    ensures u.tasks.Keys == {0} && u.tasks[0].phase == Queued && u.tasks[0].snap.campaign == 1
    ensures u.tables.contacts.Keys == {1, 2, 3} && u.tables.now == 0 && u.tables.contacts[1].status == Dialing
    ensures u.tables.contacts[2] == NewContact("2") && u.tables.contacts[3] == NewContact("3")
  {
    u := DispatchNext(ThreeContacts(), 1, 1);
  }

  /** Its task is cancelled while queued, and the second contact takes the slot this frees. */
  lemma CancelFreesASlot() returns (u: State)
    ensures Leads(ThreeContacts(), u)
    ensures u.ticker == Ticker([], None) && u.limits == map[1 := 1] && u.outstanding == map[1 := 1] && u.submitted == 2
    ensures u.tasks.Keys == {0, 1} && u.tasks[0].phase == Cancelled && u.tasks[1].phase == Queued
    ensures u.tasks[0].snap.campaign == 1 && u.tasks[1].snap.campaign == 1
    ensures u.tables.contacts.Keys == {1, 2, 3} && u.tables.contacts[3] == NewContact("3") && u.tables.now == 0
    ensures u.tables.contacts[1].status == Dialing && u.tables.contacts[2].status == Dialing
  {
    hide Apply, Leads, ThreeContacts;
    var s1 := FirstIsDispatched();
    CancelIs(s1, 0);
    var s2 := Apply(s1, Cancel(0));
    StepLeads(s1, Cancel(0));
    u := DispatchNext(s2, 1, 2);
    LeadsOn(ThreeContacts(), s1, s2);
    LeadsOn(ThreeContacts(), s2, u);
  }

  /**
   A run in which a campaign limited to one task has two in flight: after the cancellation above, the cancelled task's
   waiter wakes and frees the second task's slot, so that the third contact is dispatched as well.
   */
  lemma LimitCanBeExceeded(s: State)
    requires Initial(s) && s.limits == map[1 := 1]
    ensures exists u :: Leads(s, u) && |Holders(u, 1)| == 2 && LimitOf(u, 1) == 1
  {
    hide Apply, Leads, ThreeContacts, Initial;
    ThreeContactsAreReachable(s);
    var s1 := CancelFreesASlot();
    LeadsOn(s, ThreeContacts(), s1);
    WakeIs(s1, 0);
    var s2 := Apply(s1, Wake(0));
    StepLeads(s1, Wake(0));
    LeadsOn(s, s1, s2);
    var u := DispatchNext(s2, 1, 3);
    LeadsOn(s, s2, u);
    assert Holders(u, 1) == {1, 2};
  }
}
