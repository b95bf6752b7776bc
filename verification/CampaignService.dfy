/**
 The campaign service as code over its fields.  Each atomic method is one step of the protocol; each method with a loop
 performs a run of steps, which it returns, so that everything proved about runs holds of it.
 */
module CampaignService {
  import opened Text
  import opened Lifecycle
  import opened LifecycleRuns
  import opened Dispatch
  import opened DispatchRefinement
  import opened DispatchOwnership
  import opened DispatchInvariant
  import opened DispatchRuns
  import Correlation

  /** `steps` is a run from `start` to `u`. */
  ghost predicate Trace(start: State, steps: seq<Step>, u: State) {
    Inv(u) && IsRun(start, steps) && After(start, steps) == u
  }

  lemma TraceStep(start: State, steps: seq<Step>, u: State, step: Step)
    requires Trace(start, steps, u) && Enabled(u, step)
    ensures Trace(start, steps + [step], Apply(u, step))
  {
    InvKept(u, step);
    OneStep(u, step);
    RunsCompose(start, steps, [step]);
  }

  /** Only the poll loop's own steps. */
  ghost predicate IsPollRun(steps: seq<Step>) {
    forall k :: 0 <= k < |steps| ==> steps[k].List? || steps[k].Claim? || steps[k].Enqueue?
  }

  lemma EmptyTrace(s: State)
    requires Inv(s)
    ensures Trace(s, [], s)
  {
  }

  lemma TraceIsSound(start: State, steps: seq<Step>, u: State)
    requires Trace(start, steps, u)
    ensures Inv(u)
  {
  }

  lemma InvFacts(s: State)
    requires Inv(s)
    ensures s.ticker.claimed.Some? ==> s.ticker.claimed.value.campaign in s.limits
    ensures forall task :: task in s.tasks ==> TaskFits(s, task)
    ensures forall c :: c in s.cancelled ==> IsDialing(s, c)
  {
    forall c | c in s.cancelled ensures IsDialing(s, c) { assert Owns(s, ByCancellation, c); }
  }

  lemma EnqueueIsEnabled(start: State, past: seq<Step>, s: State)
    requires Trace(start, past, s) && s.ticker.claimed.Some?
    ensures Enabled(s, Enqueue)
  {
    hide Inv, IsRun, After;
    InvFacts(s);
  }

  lemma RequeueOne(t: Tables, id: Id)
    ensures Requeue(t, {id}) ==
      if id in t.contacts && t.contacts[id].status == Dialing
      then t.(contacts := t.contacts[id := t.contacts[id].(status := Ready, nextRunAt := Some(t.now))]) else t
  {
    assert Requeue(t, {id}).contacts ==
      if id in t.contacts && t.contacts[id].status == Dialing
      then t.contacts[id := t.contacts[id].(status := Ready, nextRunAt := Some(t.now))] else t.contacts;
  }

  /** The ways a handler leaves an opened attempt. */
  lemma OpenedLeavesBy(s: State, task: nat)
    requires task in s.tasks && s.tasks[task].phase.Opened?
    ensures Enabled(s, Step.BuildFails(task)) && InPhase(Apply(s, Step.BuildFails(task)), task, Finished)
    ensures Enabled(s, RegisterMiss(task)) && InPhase(Apply(s, RegisterMiss(task)), task, Finished)
  {
    hide TablesAfter;
  }

  lemma OpenedCanBeSent(start: State, past: seq<Step>, s: State, task: nat)
    requires Trace(start, past, s) && task in s.tasks && s.tasks[task].phase.Opened?
    ensures Enabled(s, Send(task)) && InProgressAt(s.tables, s.tasks[task].phase.row)
  {
    hide Inv, IsRun, After;
    InvFacts(s);
  }

  lemma SendIs(s: State, task: nat)
    requires Enabled(s, Send(task))
    ensures Apply(s, Send(task)) == s.(tasks := s.tasks[task := s.tasks[task].(phase := Sent(s.tasks[task].phase.row))])
  {
  }

  lemma SentLeavesBy(s: State, task: nat)
    requires task in s.tasks && s.tasks[task].phase.Sent? && InProgressAt(s.tables, s.tasks[task].phase.row)
    ensures Enabled(s, Dispatched(task)) && InPhase(Apply(s, Dispatched(task)), task, Finished)
    ensures Enabled(s, DialError(task)) && InPhase(Apply(s, DialError(task)), task, Finished)
  {
    hide TablesAfter;
  }

  /** What a handler can do first, and where that leaves its task. */
  lemma HandlerBegins(s: State, task: nat)
    requires Inv(s) && InPhase(s, task, Started)
    ensures Fresh(s.tables, s.tasks[task].snap)
    ensures var n := s.tasks[task].snap;
      if Duplicate(s.tables, n.id, n.phone, n.campaign) then BeginsWith(s, task, Step.Suppress(task))
      else BeginsWith(s, task, Step.CreateFails(task)) && BeginsWith(s, task, Step.Open(task))
  {
    hide Inv, Duplicate, BeginsWith, Apply;
    StartedIsFresh(s, task);
    var n := s.tasks[task].snap;
    if Duplicate(s.tables, n.id, n.phone, n.campaign) {
      Begins(s, task, Step.Suppress(task));
    } else {
      Begins(s, task, Step.CreateFails(task));
      Begins(s, task, Step.Open(task));
    }
  }

  lemma StartedIsFresh(s: State, task: nat)
    requires Inv(s) && InPhase(s, task, Started)
    ensures Fresh(s.tables, s.tasks[task].snap)
  {
    assert TaskFits(s, task);
  }

  lemma Begins(s: State, task: nat, step: Step)
    requires Inv(s) && InPhase(s, task, Started) && Enabled(s, step)
    requires step == Step.Suppress(task) || step == Step.CreateFails(task) || step == Step.Open(task)
    ensures BeginsWith(s, task, step)
  {
    hide Inv, Trace, Duplicate, SetStatus, OpenAttempt, HandleDialEvent;
    EmptyTrace(s);
    TraceStep(s, [], s, step);
    assert [] + [step] == [step];
  }

  ghost predicate BeginsWith(s: State, task: nat, step: Step) {
    && Enabled(s, step) && Trace(s, [step], Apply(s, step))
    && task in Apply(s, step).tasks
    && if step.Open? then Apply(s, step).tasks[task].phase.Opened? else Apply(s, step).tasks[task].phase == Finished
  }

  // ---- What a handler leaves behind ----

  /** The row the handler of a contact opens. */
  ghost function OpenedRow(t: Tables, id: Id): Attempt
    requires id in t.contacts
  {
    var c := t.contacts[id];
    var number := c.attemptCount + 1;
    Attempt(c.campaign, id, number, Correlation.Print(Correlation.Key(c.campaign, id, number)),
            InProgress, t.now, None, None)
  }

  ghost function Dialled(t: Tables, id: Id): Contact
    requires id in t.contacts
  {
    t.contacts[id].(attemptCount := t.contacts[id].attemptCount + 1, lastDialAt := Some(t.now))
  }

  /** Nothing but contact `id` has changed, and new rows apart the attempts are as they were. */
  ghost predicate Leaves(t: Tables, v: Tables, id: Id, c: Contact, added: seq<Attempt>) {
    && v.now == t.now && id in t.contacts && v.contacts == t.contacts[id := c] && v.attempts == t.attempts + added
  }

  /** Suppressed as a duplicate; ready again; failed for good; waiting for a retry, failed or exhausted; or being
      dialled with 45 seconds to answer. */
  ghost predicate HandlerLeaves(s: State, u: State, id: Id, createOk: bool, targetOk: bool, sentOk: bool)
    requires id in s.tables.contacts
  {
    var t, c := s.tables, s.tables.contacts[id];
    var a, d := OpenedRow(t, id), Dialled(t, id);
    if Duplicate(t, id, c.phone, c.campaign) then Leaves(t, u.tables, id, c.(status := Lifecycle.Suppressed), [])
    else if !createOk then Leaves(t, u.tables, id, c.(status := Ready), [])
    else if !targetOk then
      Leaves(t, u.tables, id, d.(status := Failed), [a.(state := Unsuccessful, endedAt := Some(t.now))])
    else if !sentOk then Leaves(t, u.tables, id, FailedContact(d, a.number, t.now), [FailedRow(a, t.now)])
    else Leaves(t, u.tables, id, d, [a]) && u.watchdogs == s.watchdogs[|t.attempts| := t.now + 45]
  }

  lemma StartedContact(s: State, task: nat)
    requires Inv(s) && InPhase(s, task, Started)
    ensures var n := s.tasks[task].snap;
      && n.id in s.tables.contacts
      && n.phone == s.tables.contacts[n.id].phone && n.campaign == s.tables.contacts[n.id].campaign
  {
    assert TaskFits(s, task);
  }

  lemma SuppressLeaves(s: State, task: nat, step: Step)
    requires Inv(s) && Enabled(s, step) && (step == Step.Suppress(task) || step == Step.CreateFails(task))
    ensures var id := s.tasks[task].snap.id;
      && id in s.tables.contacts
      && Leaves(s.tables, Apply(s, step).tables, id,
           s.tables.contacts[id].(status := if step.Suppress? then Lifecycle.Suppressed else Ready), [])
  {
    hide Inv, Duplicate;
    StartedContact(s, task);
  }

  lemma OpenLeaves(s: State, task: nat)
    requires Inv(s) && Enabled(s, Step.Open(task))
    ensures
      var id, u := s.tasks[task].snap.id, Apply(s, Step.Open(task));
      && id in s.tables.contacts && Leaves(s.tables, u.tables, id, Dialled(s.tables, id), [OpenedRow(s.tables, id)])
      && u.tasks == s.tasks[task := Task(s.tasks[task].snap, Opened(|s.tables.attempts|))]
      && u.watchdogs == s.watchdogs
  {
    hide Inv, Duplicate, Correlation.Print, ReadyList, Sound;
    StartedContact(s, task);
    StepRefines(s, Step.Open(task));
  }

  /** The attempt of an opened or sent task that is in progress is the one its snapshot names. */
  lemma TaskRow(s: State, task: nat, row: nat)
    requires Inv(s) && task in s.tasks && HoldsRow(s.tasks[task], row) && InProgressAt(s.tables, row)
    ensures RowsAgree(s.tables) && WithinBudget(s.tables)
    ensures s.tables.attempts[row].correlation == Correlation.Print(KeyFor(s.tasks[task].snap))
    ensures s.tables.attempts[row].contact == s.tasks[task].snap.id && s.tasks[task].snap.id in s.tables.contacts
  {
    hide Sound, Correlation.Print, OwnedByOne, PollLoopFits, Guarded;
    InvParts(s);
    assert TaskFits(s, task);
    assert RowAgrees(s.tables, row);
  }

  lemma FailureLeaves(u: State, task: nat, row: nat, step: Step)
    requires Inv(u) && Enabled(u, step) && (step == RegisterMiss(task) || step == DialError(task))
    requires task in u.tasks && HoldsRow(u.tasks[task], row) && InProgressAt(u.tables, row)
    ensures u.tasks[task].snap.id in u.tables.contacts
    ensures
      var id, a := u.tasks[task].snap.id, u.tables.attempts[row];
      Apply(u, step).tables == u.tables.(
        attempts := u.tables.attempts[row := FailedRow(a, u.tables.now)],
        contacts := u.tables.contacts[id := FailedContact(u.tables.contacts[id], a.number, u.tables.now)])
  {
    hide Inv, RowsAgree, WithinBudget, HandleDialEvent, Correlation.Print, Duplicate;
    TaskRow(u, task, row);
    FailureIsRecorded(u.tables, row);
  }

  /** What the handler does after it has opened its attempt replaces the row it added. */
  lemma OpenedThen(t: Tables, u: Tables, v: Tables, id: Id, a: Attempt, b: Attempt, c: Contact, d: Contact)
    requires Leaves(t, u, id, c, [a]) && id in u.contacts
    requires v == u.(attempts := u.attempts[|t.attempts| := b], contacts := u.contacts[id := d])
    ensures Leaves(t, v, id, d, [b])
  {
    assert (t.attempts + [a])[|t.attempts| := b] == t.attempts + [b];
  }

  lemma BuildFailureLeaves(u: State, task: nat, row: nat)
    requires Inv(u) && Enabled(u, Step.BuildFails(task)) && u.tasks[task].phase == Opened(row)
    requires InProgressAt(u.tables, row)
    ensures u.tasks[task].snap.id in u.tables.contacts
    ensures
      var id, a := u.tasks[task].snap.id, u.tables.attempts[row];
      Apply(u, Step.BuildFails(task)).tables == u.tables.(
        attempts := u.tables.attempts[row := a.(state := Unsuccessful, endedAt := Some(u.tables.now))],
        contacts := u.tables.contacts[id := u.tables.contacts[id].(status := Failed)])
  {
    hide Inv, RowsAgree, WithinBudget, Correlation.Print, Duplicate, Apply;
    TaskRow(u, task, row);
    StepRefines(u, Step.BuildFails(task));
  }

  lemma HandlerRunLeaves(
    s: State, task: nat, createOk: bool, targetOk: bool, registerOk: bool, dialOk: bool, steps: seq<Step>)
    requires Inv(s) && InPhase(s, task, Started) && IsRun(s, steps)
    requires
      var n := s.tasks[task].snap;
      if Duplicate(s.tables, n.id, n.phone, n.campaign) then steps == [Step.Suppress(task)]
      else if !createOk then steps == [Step.CreateFails(task)]
      else if !targetOk then steps == [Step.Open(task), Step.BuildFails(task)]
      else if !registerOk then steps == [Step.Open(task), RegisterMiss(task)]
      else if !dialOk then steps == [Step.Open(task), Send(task), DialError(task)]
      else steps == [Step.Open(task), Send(task), Dispatched(task)]
    ensures s.tasks[task].snap.id in s.tables.contacts
    ensures HandlerLeaves(s, After(s, steps), s.tasks[task].snap.id, createOk, targetOk, registerOk && dialOk)
  {
    hide Inv, Apply, Enabled, Duplicate, OpenedRow, Dialled, Leaves, FailedRow, FailedContact;
    StartedContact(s, task);
    StepsUnfold(s, steps);
    if |steps| == 1 {
      SuppressLeaves(s, task, steps[0]);
    } else {
      OpenedRunLeaves(s, task, steps);
    }
  }

  lemma OpenedRunLeaves(s: State, task: nat, steps: seq<Step>)
    requires Inv(s) && IsRun(s, steps) && 2 <= |steps| <= 3 && steps[0] == Step.Open(task)
    requires task in s.tasks && Enabled(s, steps[0])
    requires if |steps| == 2 then steps[1] == Step.BuildFails(task) || steps[1] == RegisterMiss(task)
      else steps[1] == Send(task) && (steps[2] == DialError(task) || steps[2] == Dispatched(task))
    ensures s.tasks[task].snap.id in s.tables.contacts
    ensures
      var id, t, u := s.tasks[task].snap.id, s.tables, After(s, steps);
      var a, d := OpenedRow(t, id), Dialled(t, id);
      if steps[1].BuildFails? then
        Leaves(t, u.tables, id, d.(status := Failed), [a.(state := Unsuccessful, endedAt := Some(t.now))])
      else if |steps| == 2 || steps[2].DialError? then
        Leaves(t, u.tables, id, FailedContact(d, a.number, t.now), [FailedRow(a, t.now)])
      else Leaves(t, u.tables, id, d, [a]) && u.watchdogs == s.watchdogs[|t.attempts| := t.now + 45]
  {
    hide Inv, IsRun, After, Apply, Enabled, Duplicate, Correlation.Print, FailedRow, FailedContact, Leaves;
    StepsUnfold(s, steps);
    OpenLeaves(s, task);
    InvKept(s, steps[0]);
    var id, row, u := s.tasks[task].snap.id, |s.tables.attempts|, Apply(s, steps[0]);
    var a, d := OpenedRow(s.tables, id), Dialled(s.tables, id);
    OpenedIs(s.tables, u.tables, id, d, a);
    if steps[1].BuildFails? {
      BuildFailureLeaves(u, task, row);
      OpenedThen(s.tables, u.tables, Apply(u, steps[1]).tables, id, a,
        a.(state := Unsuccessful, endedAt := Some(s.tables.now)), d, d.(status := Failed));
    } else {
      var v, last := if steps[1].Send? then Apply(u, Send(task)) else u, steps[|steps| - 1];
      if steps[1].Send? {
        SendIs(u, task);
        InvKept(u, Send(task));
      }
      if last.Dispatched? {
        DispatchedIs(v, task, row);
      } else {
        FailureLeaves(v, task, row, last);
        OpenedThen(s.tables, v.tables, Apply(v, last).tables, id, a,
          FailedRow(a, s.tables.now), d, FailedContact(d, a.number, s.tables.now));
      }
    }
  }

  lemma OpenedIs(t: Tables, u: Tables, id: Id, d: Contact, a: Attempt)
    requires Leaves(t, u, id, d, [a])
    ensures u.now == t.now && id in u.contacts && u.contacts[id] == d
    ensures |u.attempts| == |t.attempts| + 1 && u.attempts[|t.attempts|] == a
  {
  }

  lemma TraceLeaves(
    s: State, task: nat, createOk: bool, targetOk: bool, registerOk: bool, dialOk: bool, steps: seq<Step>, u: State)
    requires Inv(s) && InPhase(s, task, Started) && Trace(s, steps, u)
    requires
      var n := s.tasks[task].snap;
      if Duplicate(s.tables, n.id, n.phone, n.campaign) then steps == [Step.Suppress(task)]
      else if !createOk then steps == [Step.CreateFails(task)]
      else if !targetOk then steps == [Step.Open(task), Step.BuildFails(task)]
      else if !registerOk then steps == [Step.Open(task), RegisterMiss(task)]
      else if !dialOk then steps == [Step.Open(task), Send(task), DialError(task)]
      else steps == [Step.Open(task), Send(task), Dispatched(task)]
    ensures s.tasks[task].snap.id in s.tables.contacts
    ensures HandlerLeaves(s, u, s.tasks[task].snap.id, createOk, targetOk, registerOk && dialOk)
  {
    hide Inv, IsRun, After, Duplicate, HandlerLeaves;
    HandlerRunLeaves(s, task, createOk, targetOk, registerOk, dialOk, steps);
  }

  lemma DispatchedIs(s: State, task: nat, row: nat)
    requires Enabled(s, Dispatched(task)) && s.tasks[task].phase == Sent(row)
    ensures var u := Apply(s, Dispatched(task));
      u.tables == s.tables && u.watchdogs == s.watchdogs[row := s.tables.now + 45]
  {
  }

  /** Runs of up to three steps, step by step. */
  lemma {:induction false} StepsUnfold(s: State, steps: seq<Step>)
    requires IsRun(s, steps) && 1 <= |steps| <= 3
    ensures Enabled(s, steps[0])
    ensures |steps| == 1 ==> After(s, steps) == Apply(s, steps[0])
    ensures |steps| >= 2 ==> Enabled(Apply(s, steps[0]), steps[1])
    ensures |steps| == 2 ==> After(s, steps) == Apply(Apply(s, steps[0]), steps[1])
    ensures |steps| == 3 ==>
      && Enabled(Apply(Apply(s, steps[0]), steps[1]), steps[2])
      && After(s, steps) == Apply(Apply(Apply(s, steps[0]), steps[1]), steps[2])
    decreases |steps|
  {
    hide Enabled, Apply;
    if |steps| == 1 {
      assert steps[1..] == [];
    } else {
      assert steps[1..][0] == steps[1];
      assert |steps| == 3 ==> steps[1..][1] == steps[2];
      StepsUnfold(Apply(s, steps[0]), steps[1..]);
    }
  }

  // ---- Cancelling ----

  /** The tasks a cancellation of the listed ones removes from the queue. */
  predicate Cancellable(tasks: map<nat, Task>, campaign: Id, listed: seq<nat>, task: nat) {
    task in tasks && task in listed && tasks[task].phase == Queued && tasks[task].snap.campaign == campaign
  }

  function WithCancelled(tasks: map<nat, Task>, campaign: Id, listed: seq<nat>): map<nat, Task> {
    map task | task in tasks ::
      if Cancellable(tasks, campaign, listed, task) then tasks[task].(phase := Cancelled) else tasks[task]
  }

  /** The tasks that a cancellation of the listed ones takes. */
  ghost function CancelledTasks(tasks: map<nat, Task>, campaign: Id, listed: seq<nat>): set<nat> {
    set task | task in tasks && Cancellable(tasks, campaign, listed, task)
  }

  ghost function ContactsOf(tasks: map<nat, Task>, some: set<nat>): set<Id> {
    set task | task in some && task in tasks :: tasks[task].snap.id
  }

  lemma NothingCancelled(tasks: map<nat, Task>, campaign: Id)
    ensures WithCancelled(tasks, campaign, []) == tasks
    ensures CancelledTasks(tasks, campaign, []) == {}
    ensures ContactsOf(tasks, CancelledTasks(tasks, campaign, [])) == {}
  {
  }

  lemma WithOneMoreCancelled(tasks: map<nat, Task>, campaign: Id, listed: seq<nat>, task: nat)
    ensures
      var m := WithCancelled(tasks, campaign, listed);
      WithCancelled(tasks, campaign, listed + [task]) ==
        if task in m && m[task].phase == Queued && m[task].snap.campaign == campaign
        then m[task := m[task].(phase := Cancelled)] else m
    ensures forall other :: Cancellable(tasks, campaign, listed + [task], other) <==>
      Cancellable(tasks, campaign, listed, other) || (other == task && Cancellable(tasks, campaign, [task], task))
  {
  }

  /** One more listed task: it is taken, if it is still queued, together with its contact. */
  lemma OneMoreCancelled(tasks: map<nat, Task>, campaign: Id, listed: seq<nat>, task: nat)
    ensures
      var m, taken := WithCancelled(tasks, campaign, listed), CancelledTasks(tasks, campaign, listed);
      if task in m && m[task].phase == Queued && m[task].snap.campaign == campaign
      then
        && WithCancelled(tasks, campaign, listed + [task]) == m[task := m[task].(phase := Cancelled)]
        && |CancelledTasks(tasks, campaign, listed + [task])| == |taken| + 1
        && ContactsOf(tasks, CancelledTasks(tasks, campaign, listed + [task])) ==
          ContactsOf(tasks, taken) + {m[task].snap.id}
      else
        && WithCancelled(tasks, campaign, listed + [task]) == m
        && CancelledTasks(tasks, campaign, listed + [task]) == taken
  {
    WithOneMoreCancelled(tasks, campaign, listed, task);
    var m, taken := WithCancelled(tasks, campaign, listed), CancelledTasks(tasks, campaign, listed);
    var next := CancelledTasks(tasks, campaign, listed + [task]);
    if task in m && m[task].phase == Queued && m[task].snap.campaign == campaign {
      assert task !in taken && next == taken + {task};
    } else {
      assert next == taken;
    }
  }

  /** What cancelling does to the tasks, and whose contacts are returned. */
  lemma CancelledAre(tasks: map<nat, Task>, campaign: Id, listed: seq<nat>)
    ensures var m := WithCancelled(tasks, campaign, listed);
      && m.Keys == tasks.Keys
      && (forall task :: task in tasks ==>
            m[task] ==
              if task in listed && tasks[task].phase == Queued && tasks[task].snap.campaign == campaign
              then tasks[task].(phase := Cancelled) else tasks[task])
      && forall id :: id in ContactsOf(tasks, CancelledTasks(tasks, campaign, listed)) <==>
           exists task :: task in tasks && m[task] != tasks[task] && m[task].snap.id == id
  {
    var m := WithCancelled(tasks, campaign, listed);
    forall id | exists task :: task in tasks && m[task] != tasks[task] && m[task].snap.id == id
      ensures id in ContactsOf(tasks, CancelledTasks(tasks, campaign, listed))
    {
      var task :| task in tasks && m[task] != tasks[task] && m[task].snap.id == id;
      assert task in CancelledTasks(tasks, campaign, listed);
    }
  }

  class CampaignService {
    const limits: map<Id, int>
    var now: int
    var contacts: map<Id, Contact>
    var attempts: seq<Attempt>
    var tasks: map<nat, Task>
    var submitted: nat
    var dispatchOutstanding: map<Id, nat>
    var watchdogs: map<nat, int>
    ghost var ticker: Ticker
    ghost var cancelled: set<Id>

    ghost function Rows(): Tables
      reads this
    {
      Tables(now, contacts, attempts)
    }

    ghost function Model(): State
      reads this
    {
      State(Rows(), tasks, submitted, dispatchOutstanding, ticker, cancelled, watchdogs, limits)
    }

    constructor (limits: map<Id, int>)
      ensures Initial(Model()) && Inv(Model()) && this.limits == limits
    {
      this.limits := limits;
      now, contacts, attempts, tasks, submitted := 0, map[], [], map[], 0;
      dispatchOutstanding, watchdogs := map[], map[];
      ticker, cancelled := Ticker([], None), {};
      new;
      InitialInv(Model());
    }

    // ---- Slots ----

    method TryAcquireCampaignSlot(campaign: Id, limit: int) returns (ok: bool)
      modifies this`dispatchOutstanding
      ensures ok <==> Count(old(dispatchOutstanding), campaign) < if limit > 0 then limit else 1
      ensures dispatchOutstanding ==
        if ok then old(dispatchOutstanding)[campaign := Count(old(dispatchOutstanding), campaign) + 1]
        else old(dispatchOutstanding)
      ensures ok <==> TryAcquire(old(dispatchOutstanding), campaign, limit).Some?
      ensures ok ==> dispatchOutstanding == TryAcquire(old(dispatchOutstanding), campaign, limit).value
    {
      var most := if limit <= 0 then 1 else limit;
      var cur := if campaign in dispatchOutstanding then dispatchOutstanding[campaign] else 0;
      if cur >= most {
        return false;
      }
      dispatchOutstanding := dispatchOutstanding[campaign := cur + 1];
      return true;
    }

    method ReleaseCampaignSlot(campaign: Id)
      modifies this`dispatchOutstanding
      ensures dispatchOutstanding == Release1(old(dispatchOutstanding), campaign)
      ensures Count(dispatchOutstanding, campaign) ==
        if Count(old(dispatchOutstanding), campaign) > 0 then Count(old(dispatchOutstanding), campaign) - 1 else 0
      ensures dispatchOutstanding - {campaign} == old(dispatchOutstanding) - {campaign}
    {
      var cur := if campaign in dispatchOutstanding then dispatchOutstanding[campaign] else 0;
      if cur <= 1 {
        dispatchOutstanding := dispatchOutstanding - {campaign};
        return;
      }
      dispatchOutstanding := dispatchOutstanding[campaign := cur - 1];
    }

    // ---- Poll loop ----

    method TryClaim(id: Id) returns (ok: bool)
      modifies this`contacts
      ensures ok <==> id in old(contacts) && (old(contacts)[id].status == Ready || old(contacts)[id].status == Retrying)
      ensures contacts == if ok then SetStatus(old(Rows()), id, Dialing) else old(contacts)
      ensures ok ==> contacts == old(contacts)[id := old(contacts)[id].(status := Dialing)]
    {
      ok := id in contacts && (contacts[id].status == Ready || contacts[id].status == Retrying);
      if ok {
        contacts := contacts[id := contacts[id].(status := Dialing)];
      }
    }

    method EnqueueDispatchTask(n: Snapshot) returns (ok: bool)
      requires ticker.claimed == Some(n) && n.campaign in limits
      modifies this
      ensures Model() == Apply(old(Model()), Enqueue)
      ensures ticker == old(ticker).(claimed := None) && now == old(now)
      ensures ok <==>
        Count(old(dispatchOutstanding), n.campaign) < if limits[n.campaign] > 0 then limits[n.campaign] else 1
      ensures ok ==> contacts == old(contacts) && tasks == old(tasks)[old(submitted) := Task(n, Queued)]
      ensures !ok ==> tasks == old(tasks)
      ensures !ok && n.id in old(contacts) && old(contacts)[n.id].status == Dialing ==>
        contacts == old(contacts)[n.id := old(contacts)[n.id].(status := Ready, nextRunAt := Some(now))]
    {
      hide TryAcquire, Requeue;
      ok := TryAcquireCampaignSlot(n.campaign, limits[n.campaign]);
      ticker := ticker.(claimed := None);
      if !ok {
        RequeueOne(Rows(), n.id);
        if n.id in contacts && contacts[n.id].status == Dialing {
          contacts := contacts[n.id := contacts[n.id].(status := Ready, nextRunAt := Some(now))];
        }
        return;
      }
      tasks := tasks[submitted := Task(n, Queued)];
      submitted := submitted + 1;
    }

    /** Claims the next listed contact, if it is still there to be claimed. */
    method ClaimListed(n: Snapshot) returns (claimed: bool)
      requires ticker.claimed.None? && ticker.rest != [] && ticker.rest[0] == n
      modifies this`contacts, this`ticker
      ensures Enabled(old(Model()), Step.Claim) && Model() == Apply(old(Model()), Step.Claim)
      ensures ticker == Ticker(old(ticker.rest)[1..], if claimed then Some(n) else None)
    {
      hide SetStatus;
      claimed := TryClaim(n.id);
      ticker := Ticker(ticker.rest[1..], if claimed then Some(n) else None);
    }

    /** One turn of the poll loop: claim the next listed contact and, if that succeeds, enqueue it. */
    method DispatchListed(n: Snapshot, ghost start: State, ghost past: seq<Step>) returns (ghost steps: seq<Step>)
      requires Trace(start, past, Model()) && ticker.claimed.None? && ticker.rest != [] && ticker.rest[0] == n
      modifies this
      ensures Trace(start, steps, Model()) && ticker == Ticker(old(ticker.rest)[1..], None) && now == old(now)
      ensures steps == past + [Step.Claim] || steps == past + [Step.Claim, Enqueue]
    {
      hide Trace, Apply;
      ghost var before := Model();
      var claimed := ClaimListed(n);
      TraceStep(start, past, before, Step.Claim);
      steps := past + [Step.Claim];
      if claimed {
        EnqueueIsEnabled(start, steps, Model());
        TraceStep(start, steps, Model(), Enqueue);
        var _ := EnqueueDispatchTask(n);
        assert past + [Step.Claim, Enqueue] == steps + [Enqueue];
        steps := steps + [Enqueue];
      }
    }

    /** One campaign's share of a poll: `ids` is the database's answer to the ready-to-dial query. */
    method DispatchCampaign(campaign: Id, ids: seq<Id>, ghost start: State, ghost past: seq<Step>)
      returns (ghost steps: seq<Step>)
      requires Trace(start, past, Model()) && Enabled(Model(), List(campaign, ids)) && IsPollRun(past)
      modifies this
      ensures Trace(start, steps, Model()) && ticker == Ticker([], None) && now == old(now) && IsPollRun(steps)
    {
      hide Inv, IsRun, After;
      var table := Tables(now, contacts, attempts);
      var rows := seq(|ids|, i requires 0 <= i < |ids| => SnapshotOf(table, ids[i]));
      ticker := Ticker(rows, None);
      TraceStep(start, past, old(Model()), List(campaign, ids));
      steps := past + [List(campaign, ids)];
      for i := 0 to |rows|
        invariant ticker == Ticker(rows[i..], None) && now == old(now)
        invariant Trace(start, steps, Model()) && IsPollRun(steps)
      {
        steps := DispatchListed(rows[i], start, steps);
      }
    }

    /** A poll: for each running campaign in turn, its ready contacts are claimed and enqueued. `ready` stands for
        the query that lists them. */
    method Tick(running: seq<Id>, ready: (Tables, Id, int) -> seq<Id>) returns (ghost steps: seq<Step>)
      requires Inv(Model()) && ticker == Ticker([], None)
      requires forall i :: 0 <= i < |running| ==> running[i] in limits
      requires forall t, c, limit :: ReadyList(t, c, limit, ready(t, c, limit))
      modifies this
      ensures Trace(old(Model()), steps, Model()) && ticker == Ticker([], None) && now == old(now)
      ensures IsPollRun(steps)
    {
      hide Inv, IsRun, After, Trace, ReadyList;
      ghost var start := Model();
      EmptyTrace(start);
      steps := [];
      for i := 0 to |running|
        invariant ticker == Ticker([], None) && now == old(now)
        invariant Trace(start, steps, Model()) && IsPollRun(steps)
      {
        var ids := ready(Tables(now, contacts, attempts), running[i], limits[running[i]]);
        steps := DispatchCampaign(running[i], ids, start, steps);
      }
    }

    /** The goroutine that waits for a task, once the task is done or dropped. */
    method WakeWaiter(task: nat)
      requires InPhase(Model(), task, Finished) || InPhase(Model(), task, Cancelled)
      modifies this
      ensures Model() == Apply(old(Model()), Wake(task))
    {
      var campaign := tasks[task].snap.campaign;
      tasks := tasks - {task};
      ReleaseCampaignSlot(campaign);
    }

    // ---- Dial events ----

    method HandleDialEvent(e: Event)
      modifies this`contacts, this`attempts
      ensures Rows() == Lifecycle.HandleDialEvent(old(Rows()), e)
    {
      hide Correlation.Parse;
      var key := Correlation.Parse(e.correlation);
      if key.Some? {
        RecordDialEvent(key.value, e.kind);
      }
    }

    method RecordDialEvent(k: Correlation.Key, kind: EventKind)
      modifies this`contacts, this`attempts
      ensures Rows() == ApplyEvent(old(Rows()), k, kind)
    {
      match kind
      case Invited =>
      case Provisional =>
      case Connected =>
        attempts := MarkEstablished(attempts, k);
        if 0 < k.contact < Correlation.UINT64_LIMIT && k.contact in contacts {
          contacts := contacts[k.contact := contacts[k.contact].(status := Answered)];
        }
        assert contacts == SetStatus(old(Rows()), k.contact, Answered);
      case DialFailed => MarkAttemptFailed(k);
    }

    method MarkAttemptFailed(k: Correlation.Key)
      modifies this`contacts, this`attempts
      ensures Rows() == AttemptFailed(old(Rows()), k)
    {
      if !(0 < k.contact < Correlation.UINT64_LIMIT && k.contact in contacts) {
        return;
      }
      var c := contacts[k.contact];
      var retryAt := RetryAt(k.attempt, now);
      var status := Failed;
      if retryAt.Some? && k.attempt < c.maxAttempts {
        status := Retrying;
      }
      attempts := MarkUnsuccessful(attempts, k, now, retryAt);
      if retryAt.Some? {
        c := c.(nextRunAt := retryAt);
      }
      if status == Failed && k.attempt >= c.maxAttempts {
        status := Exhausted;
      }
      contacts := contacts[k.contact := c.(status := status)];
      assert contacts == AttemptFailed(old(Rows()), k).contacts;
    }

    method WatchDialAttemptTimeout(row: nat)
      requires Enabled(Model(), Watchdog(row))
      modifies this
      ensures Model() == Apply(old(Model()), Watchdog(row))
    {
      watchdogs := watchdogs - {row};
      if attempts[row].state != InProgress {
        return;
      }
      HandleDialEvent(Event(attempts[row].correlation, DialFailed));
    }

    // ---- The task handler ----

    method SetContactStatus(id: Id, status: Status)
      modifies this`contacts
      ensures contacts == SetStatus(old(Rows()), id, status)
    {
      if id in contacts {
        contacts := contacts[id := contacts[id].(status := status)];
      }
    }

    method Suppress(task: nat)
      requires Enabled(Model(), Step.Suppress(task))
      modifies this`contacts, this`tasks
      ensures Model() == Apply(old(Model()), Step.Suppress(task))
    {
      SetContactStatus(tasks[task].snap.id, Lifecycle.Suppressed);
      tasks := tasks[task := tasks[task].(phase := Finished)];
    }

    method CreateFails(task: nat)
      requires Enabled(Model(), Step.CreateFails(task))
      modifies this`contacts, this`tasks
      ensures Model() == Apply(old(Model()), Step.CreateFails(task))
    {
      SetContactStatus(tasks[task].snap.id, Ready);
      tasks := tasks[task := tasks[task].(phase := Finished)];
    }

    method OpenAttemptRow(task: nat)
      requires Enabled(Model(), Step.Open(task)) && Fresh(Rows(), tasks[task].snap)
      modifies this`contacts, this`attempts, this`tasks
      ensures Model() == Apply(old(Model()), Step.Open(task))
    {
      hide Duplicate, Correlation.Print;
      ghost var rows := Rows();
      var n := tasks[task].snap;
      var k := KeyFor(n);
      tasks := tasks[task := tasks[task].(phase := Opened(|attempts|))];
      attempts := attempts + [Attempt(n.campaign, n.id, k.attempt, Correlation.Print(k), InProgress, now, None, None)];
      contacts := contacts[n.id := contacts[n.id].(attemptCount := k.attempt, lastDialAt := Some(now))];
      assert contacts == OpenAttempt(rows, n).contacts;
    }

    method BuildFails(task: nat)
      requires Enabled(Model(), Step.BuildFails(task))
      modifies this`contacts, this`attempts, this`tasks
      ensures Model() == Apply(old(Model()), Step.BuildFails(task))
    {
      var k := KeyFor(tasks[task].snap);
      SetContactStatus(tasks[task].snap.id, Failed);
      var rows, ended := attempts, now;
      attempts := seq(|rows|, i requires 0 <= i < |rows| =>
        if Matches(rows[i], k) then Ended(rows[i], ended, rows[i].nextRetryAt) else rows[i]);
      tasks := tasks[task := tasks[task].(phase := Finished)];
      assert attempts == AbandonAttempt(old(Rows()), k).attempts;
    }

    /** The handler gives up on its attempt by raising the failure event itself. */
    method RaiseFailure(task: nat)
      requires task in tasks
      modifies this`contacts, this`attempts, this`tasks
      ensures Model() == old(Model()).(
        tables := Lifecycle.HandleDialEvent(old(Rows()), FailureOf(old(tasks)[task].snap)),
        tasks := old(tasks)[task := old(tasks)[task].(phase := Finished)])
    {
      hide Lifecycle.HandleDialEvent;
      HandleDialEvent(FailureOf(tasks[task].snap));
      tasks := tasks[task := tasks[task].(phase := Finished)];
    }

    method RegisterMisses(task: nat)
      requires Enabled(Model(), RegisterMiss(task))
      modifies this`contacts, this`attempts, this`tasks
      ensures Model() == Apply(old(Model()), RegisterMiss(task))
    {
      hide Lifecycle.HandleDialEvent;
      RaiseFailure(task);
    }

    method DialErrors(task: nat)
      requires Enabled(Model(), DialError(task))
      modifies this`contacts, this`attempts, this`tasks
      ensures Model() == Apply(old(Model()), DialError(task))
    {
      hide Lifecycle.HandleDialEvent;
      RaiseFailure(task);
    }

    /**
      The handler of one dispatched contact. The database, the trunk configuration, the registrar and the SIP stack
      answer through the parameters.
    */
    method ProcessContact(task: nat, createOk: bool, targetOk: bool, registerOk: bool, dialOk: bool)
      returns (ghost steps: seq<Step>)
      requires Inv(Model()) && InPhase(Model(), task, Started)
      modifies this
      ensures Trace(old(Model()), steps, Model()) && InPhase(Model(), task, Finished)
      ensures
        var n := old(tasks)[task].snap;
        if Duplicate(old(Rows()), n.id, n.phone, n.campaign) then steps == [Step.Suppress(task)]
        else if !createOk then steps == [Step.CreateFails(task)]
        else if !targetOk then steps == [Step.Open(task), Step.BuildFails(task)]
        else if !registerOk then steps == [Step.Open(task), RegisterMiss(task)]
        else if !dialOk then steps == [Step.Open(task), Send(task), DialError(task)]
        else steps == [Step.Open(task), Send(task), Dispatched(task)]
      ensures old(tasks)[task].snap.id in old(contacts)
      ensures HandlerLeaves(old(Model()), Model(), old(tasks)[task].snap.id, createOk, targetOk, registerOk && dialOk)
    {
      hide Inv, Apply, Trace, Duplicate, Fresh, HandlerLeaves;
      ghost var start := Model();
      HandlerBegins(start, task);
      var n := tasks[task].snap;
      if Duplicate(Tables(now, contacts, attempts), n.id, n.phone, n.campaign) {
        Suppress(task);
        steps := [Step.Suppress(task)];
        TraceLeaves(start, task, createOk, targetOk, registerOk, dialOk, steps, Model());
        return;
      }
      if !createOk {
        CreateFails(task);
        steps := [Step.CreateFails(task)];
        TraceLeaves(start, task, createOk, targetOk, registerOk, dialOk, steps, Model());
        return;
      }
      OpenAttemptRow(task);
      steps := DialOpenedAttempt(task, targetOk, registerOk, dialOk, start, [Step.Open(task)]);
      TraceLeaves(start, task, createOk, targetOk, registerOk, dialOk, steps, Model());
    }

    method DialOpenedAttempt(task: nat, targetOk: bool, registerOk: bool, dialOk: bool,
        ghost start: State, ghost past: seq<Step>)
      returns (ghost steps: seq<Step>)
      requires Trace(start, past, Model()) && task in tasks && tasks[task].phase.Opened?
      modifies this
      ensures Trace(start, steps, Model()) && InPhase(Model(), task, Finished)
      ensures steps == past +
        if !targetOk then [Step.BuildFails(task)]
        else if !registerOk then [RegisterMiss(task)]
        else if !dialOk then [Send(task), DialError(task)]
        else [Send(task), Dispatched(task)]
    {
      hide Trace, Apply, Enabled;
      OpenedLeavesBy(Model(), task);
      if !targetOk {
        TraceStep(start, past, Model(), Step.BuildFails(task));
        BuildFails(task);
        steps := past + [Step.BuildFails(task)];
        return;
      }
      if !registerOk {
        TraceStep(start, past, Model(), RegisterMiss(task));
        RegisterMisses(task);
        steps := past + [RegisterMiss(task)];
        return;
      }
      steps := Dial(task, dialOk, start, past);
    }

    method Dial(task: nat, dialOk: bool, ghost start: State, ghost past: seq<Step>) returns (ghost steps: seq<Step>)
      requires Trace(start, past, Model()) && task in tasks && tasks[task].phase.Opened?
      modifies this
      ensures Trace(start, steps, Model()) && InPhase(Model(), task, Finished)
      ensures steps == past + [Send(task), if dialOk then Dispatched(task) else DialError(task)]
    {
      hide Trace, Apply, Enabled;
      ghost var row := tasks[task].phase.row;
      OpenedCanBeSent(start, past, Model(), task);
      TraceStep(start, past, Model(), Send(task));
      SendIs(Model(), task);
      tasks := tasks[task := tasks[task].(phase := Sent(tasks[task].phase.row))];
      steps := past + [Send(task)];
      SentLeavesBy(Model(), task);
      if dialOk {
        TraceStep(start, steps, Model(), Dispatched(task));
        StartWatchdog(task);
        steps := steps + [Dispatched(task)];
      } else {
        TraceStep(start, steps, Model(), DialError(task));
        DialErrors(task);
        steps := steps + [DialError(task)];
      }
    }

    method StartWatchdog(task: nat)
      requires Enabled(Model(), Dispatched(task))
      modifies this`watchdogs, this`tasks
      ensures Model() == Apply(old(Model()), Dispatched(task))
      ensures watchdogs == old(watchdogs)[old(tasks)[task].phase.row := now + 45]
    {
      watchdogs := watchdogs[tasks[task].phase.row := now + WATCHDOG_SECONDS];
      tasks := tasks[task := tasks[task].(phase := Finished)];
    }

    // ---- Operators ----

    method CancelTask(task: nat)
      requires InPhase(Model(), task, Queued)
      modifies this
      ensures Model() == Apply(old(Model()), Cancel(task))
      ensures tasks == old(tasks)[task := old(tasks)[task].(phase := Cancelled)]
      ensures cancelled == old(cancelled) + {old(tasks)[task].snap.id} && Rows() == old(Rows())
    {
      var campaign := tasks[task].snap.campaign;
      tasks := tasks[task := tasks[task].(phase := Cancelled)];
      ReleaseCampaignSlot(campaign);
      cancelled := cancelled + {tasks[task].snap.id};
    }

    method ReturnContacts(ids: set<Id>)
      requires ids <= cancelled
      modifies this
      ensures Model() == Apply(old(Model()), ReturnCancelled(ids))
      ensures Rows() == Requeue(old(Rows()), ids) && tasks == old(tasks)
    {
      contacts := map c | c in contacts ::
        if c in ids && contacts[c].status == Dialing then contacts[c].(status := Ready, nextRunAt := Some(now))
        else contacts[c];
      cancelled := cancelled - ids;
    }

    /** Removes the campaign's queued tasks among `pending`, and collects their contacts. */
    method CancelPending(campaign: Id, pending: seq<nat>) returns (ids: set<Id>, canceled: nat, ghost steps: seq<Step>)
      requires Inv(Model())
      modifies this
      ensures Trace(old(Model()), steps, Model()) && Rows() == old(Rows())
      ensures tasks == WithCancelled(old(tasks), campaign, pending)
      ensures ids == ContactsOf(old(tasks), CancelledTasks(old(tasks), campaign, pending)) && ids <= cancelled
      ensures canceled == |CancelledTasks(old(tasks), campaign, pending)| == |steps|
      ensures forall k :: 0 <= k < |steps| ==> steps[k].Cancel?
    {
      hide Inv, IsRun, After, Trace, Apply, WithCancelled, CancelledTasks, ContactsOf;
      ghost var start := Model();
      EmptyTrace(start);
      ids, canceled, steps := {}, 0, [];
      NothingCancelled(start.tasks, campaign);
      assert pending[..0] == [];
      for i := 0 to |pending|
        invariant Trace(start, steps, Model()) && Rows() == start.tables
        invariant tasks == WithCancelled(start.tasks, campaign, pending[..i])
        invariant ids == ContactsOf(start.tasks, CancelledTasks(start.tasks, campaign, pending[..i]))
          && ids <= cancelled
        invariant canceled == |CancelledTasks(start.tasks, campaign, pending[..i])| == |steps|
        invariant forall k :: 0 <= k < |steps| ==> steps[k].Cancel?
      {
        var task := pending[i];
        assert pending[..i + 1] == pending[..i] + [task];
        OneMoreCancelled(start.tasks, campaign, pending[..i], task);
        if task in tasks && tasks[task].snap.campaign == campaign && tasks[task].phase == Queued {
          TraceStep(start, steps, Model(), Cancel(task));
          CancelTask(task);
          canceled := canceled + 1;
          ids := ids + {tasks[task].snap.id};
          steps := steps + [Cancel(task)];
        }
      }
      assert pending[..|pending|] == pending;
    }

    /** Drops the campaign's queued tasks; `pending` is the scheduler's snapshot of its queue. */
    method CancelCampaignQueuedTasks(campaign: Id, pending: seq<nat>) returns (canceled: nat, ghost steps: seq<Step>)
      requires Inv(Model())
      modifies this
      ensures Trace(old(Model()), steps, Model()) && |steps| == canceled + 1
      ensures forall k :: 0 <= k < canceled ==> steps[k].Cancel?
      ensures steps[canceled].ReturnCancelled?
      ensures canceled == |CancelledTasks(old(tasks), campaign, pending)|
      ensures tasks == WithCancelled(old(tasks), campaign, pending)
      ensures contacts.Keys == old(contacts).Keys
      ensures
        var ids := ContactsOf(old(tasks), CancelledTasks(old(tasks), campaign, pending));
        forall id :: id in contacts ==>
          contacts[id] ==
            if id in ids then old(contacts)[id].(status := Ready, nextRunAt := Some(now)) else old(contacts)[id]
      ensures attempts == old(attempts) && now == old(now) && tasks.Keys == old(tasks).Keys
      ensures forall task :: task in tasks ==>
        var k := old(tasks)[task];
        tasks[task] ==
          if task in pending && k.phase == Queued && k.snap.campaign == campaign then k.(phase := Cancelled) else k
      ensures forall task :: task in tasks && tasks[task] != old(tasks)[task] && tasks[task].snap.id in contacts ==>
        contacts[tasks[task].snap.id].status == Ready
      ensures forall id :: id in contacts && contacts[id] != old(contacts)[id] ==>
        exists task :: task in tasks && tasks[task] != old(tasks)[task] && tasks[task].snap.id == id
    {
      hide Inv, IsRun, After, Trace, Apply, WithCancelled, CancelledTasks, ContactsOf;
      ghost var start := Model();
      var ids;
      ids, canceled, steps := CancelPending(campaign, pending);
      CancelledAre(start.tasks, campaign, pending);
      TraceIsSound(start, steps, Model());
      InvFacts(Model());
      TraceStep(start, steps, Model(), ReturnCancelled(ids));
      ReturnContacts(ids);
      steps := steps + [ReturnCancelled(ids)];
    }

    method ResetSuppressedContacts(campaign: Id) returns (ghost step: Step)
      modifies this`contacts
      ensures step == Step.ResetSuppressed(campaign) && Model() == Apply(old(Model()), step)
      ensures contacts.Keys == old(contacts).Keys
      ensures forall c :: c in contacts ==>
        var k := old(contacts)[c];
        contacts[c] ==
          if k.campaign == campaign && k.status == Lifecycle.Suppressed
          then k.(status := Ready, nextRunAt := Some(now), lastDialAt := None) else k
    {
      step := Step.ResetSuppressed(campaign);
      contacts := map c | c in contacts ::
        if contacts[c].campaign == campaign && contacts[c].status == Lifecycle.Suppressed
        then contacts[c].(status := Ready, nextRunAt := Some(now), lastDialAt := None)
        else contacts[c];
    }
  }
}
