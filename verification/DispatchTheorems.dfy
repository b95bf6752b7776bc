/** What holds of every run of the dispatch protocol. */
module DispatchRuns {
  import opened Text
  import opened Lifecycle
  import opened LifecycleTiming
  import opened LifecycleRuns
  import opened Dispatch
  import opened DispatchInvariant

  ghost predicate IsRun(s: State, steps: seq<Step>)
    decreases |steps|
  {
    steps == [] || (Enabled(s, steps[0]) && IsRun(Apply(s, steps[0]), steps[1..]))
  }

  ghost function After(s: State, steps: seq<Step>): State
    requires IsRun(s, steps)
    decreases |steps|
  {
    if steps == [] then s else After(Apply(s, steps[0]), steps[1..])
  }

  lemma {:induction false} RunsCompose(s: State, first: seq<Step>, second: seq<Step>)
    requires IsRun(s, first) && IsRun(After(s, first), second)
    ensures IsRun(s, first + second) && After(s, first + second) == After(After(s, first), second)
    decreases |first|
  {
    if first == [] {
      assert first + second == second;
    } else {
      assert (first + second)[1..] == first[1..] + second;
      RunsCompose(Apply(s, first[0]), first[1..], second);
    }
  }

  lemma OneStep(s: State, step: Step)
    requires Enabled(s, step)
    ensures IsRun(s, [step]) && After(s, [step]) == Apply(s, step)
  {
    assert [step][1..] == [];
    assert IsRun(Apply(s, step), []);
  }

  /** Some run leads from one state to the other. */
  ghost predicate Leads(s: State, u: State) {
    exists steps :: IsRun(s, steps) && After(s, steps) == u
  }

  lemma LeadsOn(s: State, u: State, v: State)
    requires Leads(s, u) && Leads(u, v)
    ensures Leads(s, v)
  {
    var first :| IsRun(s, first) && After(s, first) == u;
    var second :| IsRun(u, second) && After(u, second) == v;
    RunsCompose(s, first, second);
  }

  /** A run keeps the invariant and never undoes anything final. */
  lemma {:induction false} RunKeepsInv(s: State, steps: seq<Step>)
    requires Inv(s) && IsRun(s, steps)
    ensures Inv(After(s, steps)) && Extends(s.tables, After(s, steps).tables)
    decreases |steps|
  {
    if steps != [] {
      InvKept(s, steps[0]);
      RunKeepsInv(Apply(s, steps[0]), steps[1..]);
      ExtendsIsTransitive(s.tables, Apply(s, steps[0]).tables, After(s, steps).tables);
    }
  }

  lemma ReachableInv(s: State, steps: seq<Step>)
    requires Initial(s) && IsRun(s, steps)
    ensures Inv(After(s, steps))
  {
    InitialInv(s);
    RunKeepsInv(s, steps);
  }

  /** In every reachable state a contact is owned exactly when it is being dialled, and by exactly one owner. */
  lemma DialingMeansExactlyOneOwner(s: State, steps: seq<Step>, c: Id)
    requires Initial(s) && IsRun(s, steps)
    ensures
      var u := After(s, steps);
      && ((c in u.tables.contacts && u.tables.contacts[c].status == Dialing) <==> HasOwner(u, c))
      && (forall o, p :: Owns(u, o, c) && Owns(u, p, c) ==> o == p)
  {
    ReachableInv(s, steps);
  }

  /** A contact is dialled at most `min(MaxAttempts, 4)` times, its attempts are numbered 1, 2, 3, ... and it only
      waits for a retry while it has attempts left. */
  lemma DialBudget(s: State, steps: seq<Step>, c: Id)
    requires Initial(s) && IsRun(s, steps) && c in After(s, steps).tables.contacts
    ensures
      var t := After(s, steps).tables;
      var k := t.contacts[c];
      && NumbersOf(t.attempts, c) == UpTo(k.attemptCount)
      && k.attemptCount <= k.maxAttempts && k.attemptCount <= 4
      && (k.status == Retrying ==> 1 <= k.attemptCount < k.maxAttempts && k.attemptCount <= 3)
  {
    ReachableInv(s, steps);
    var t := After(s, steps).tables;
    if t.contacts[c].status == Retrying { assert Waiting(t, c); }
  }

  /** Along a run, a final status is never left and a finished attempt is never rewritten. */
  lemma FinalIsForever(s: State, past: seq<Step>, future: seq<Step>, c: Id)
    requires Initial(s) && IsRun(s, past) && IsRun(After(s, past), future)
    requires c in After(s, past).tables.contacts
    requires After(s, past).tables.contacts[c].status in {Answered, Failed, Exhausted}
    ensures c in After(After(s, past), future).tables.contacts
    ensures After(After(s, past), future).tables.contacts[c].status == After(s, past).tables.contacts[c].status
    ensures NumbersOf(After(After(s, past), future).tables.attempts, c) == NumbersOf(After(s, past).tables.attempts, c)
  {
    ReachableInv(s, past);
    RunKeepsInv(After(s, past), future);
    assert ContactExtends(After(s, past).tables.contacts[c], After(After(s, past), future).tables.contacts[c]);
  }

  /** In every run, a retry starts no earlier than its delay after the previous attempt ended. */
  lemma RetriesWait(s: State, steps: seq<Step>, i: nat, j: nat)
    requires Initial(s) && IsRun(s, steps)
    requires i < j < |After(s, steps).tables.attempts|
    requires After(s, steps).tables.attempts[i].contact == After(s, steps).tables.attempts[j].contact
    ensures
      var a := After(s, steps).tables.attempts;
      && 1 <= a[i].number <= 3 && a[i].endedAt.Some? && a[i].endedAt.value >= a[i].dialedAt
      && (a[i].number == 1 ==> a[j].dialedAt >= a[i].endedAt.value + 300)
      && (a[i].number == 2 ==> a[j].dialedAt >= a[i].endedAt.value + 1800)
      && (a[i].number == 3 ==> a[j].dialedAt >= a[i].endedAt.value + 7200)
  {
    ReachableInv(s, steps);
    RetriesAreSpaced(After(s, steps).tables, i, j);
    assert RetryIsScheduled(After(s, steps).tables.attempts[i]);
  }

  /** In every run, two contacts of a campaign with the same phone are dialled more than a day apart, even though
      resetting a suppressed contact erases its last-dial time. */
  lemma SamePhoneIsNotDialledTwice(s: State, steps: seq<Step>, i: nat, j: nat)
    requires Initial(s) && IsRun(s, steps)
    requires i < j < |After(s, steps).tables.attempts|
    requires SamePhone(After(s, steps).tables, After(s, steps).tables.attempts[i].contact,
      After(s, steps).tables.attempts[j].contact)
    ensures After(s, steps).tables.attempts[j].dialedAt - After(s, steps).tables.attempts[i].dialedAt > 86400
  {
    ReachableInv(s, steps);
  }

  /** In every reachable state the duplicate check holds a contact back exactly when another contact of its campaign
      with its phone was dialled within the last day. */
  lemma HeldBackIff(s: State, steps: seq<Step>, c: Id)
    requires Initial(s) && IsRun(s, steps) && c in After(s, steps).tables.contacts
    ensures
      var t := After(s, steps).tables;
      Duplicate(t, c, t.contacts[c].phone, t.contacts[c].campaign) <==>
      exists i :: 0 <= i < |t.attempts| && SamePhone(t, t.attempts[i].contact, c)
        && t.now - t.attempts[i].dialedAt <= 86400
  {
    hide IsRun, After, Initial, Duplicate;
    ReachableInv(s, steps);
    DuplicateIff(After(s, steps).tables, c);
  }
}

/** The service can always move a dialing contact on by itself: no contact is ever stuck. */
module DispatchProgress {
  import opened Text
  import opened Lifecycle
  import opened LifecycleRuns
  import opened Dispatch
  import opened DispatchRefinement
  import opened DispatchOwnership
  import opened DispatchInvariant
  import opened DispatchRuns

  /** Steps that need neither the SIP stack, nor an operator, nor a database failure. */
  predicate OwnStep(step: Step) {
    match step
    case FinalEvent(_, _) => false
    case DialError(_) => false
    case RegisterMiss(_) => false
    case BuildFails(_) => false
    case CreateFails(_) => false
    case Cancel(_) => false
    case Import(_, _, _, _, _) => false
    case ResetSuppressed(_) => false
    case _ => true
  }

  /** The steps move the contact on, before the clock has passed `until`. */
  ghost predicate Frees(s: State, steps: seq<Step>, c: Id, until: int) {
    && IsRun(s, steps)
    && (forall i :: 0 <= i < |steps| ==> OwnStep(steps[i]))
    && !IsDialing(After(s, steps), c)
    && After(s, steps).tables.now <= until
  }

  ghost predicate FreesInTime(s: State, steps: seq<Step>, c: Id) {
    Frees(s, steps, c, s.tables.now + 45)
  }

  lemma FreesAfterStep(s: State, step: Step, steps: seq<Step>, c: Id, until: int)
    requires Enabled(s, step) && OwnStep(step) && Frees(Apply(s, step), steps, c, until)
    ensures Frees(s, [step] + steps, c, until)
  {
    assert ([step] + steps)[1..] == steps;
  }

  lemma OneStepFrees(s: State, step: Step, c: Id)
    requires Enabled(s, step) && OwnStep(step) && !IsDialing(Apply(s, step), c) && !step.Pass?
    ensures Frees(s, [step], c, s.tables.now + 45)
  {
    hide Enabled, Apply;
    OneStep(s, step);
    OnlyPassTakesTime(s, step);
  }

  lemma OnlyPassTakesTime(s: State, step: Step)
    requires Enabled(s, step)
    ensures !step.Pass? ==> Apply(s, step).tables.now == s.tables.now
  {
    hide Enabled, TasksAfter, OutstandingAfter, TickerAfter, CancelledAfter, WatchdogsAfter, SlotIsFree;
  }

  // ---- When watchdogs strike ----

  /** A watchdog strikes 45 seconds after the dial call returned: so not within 45 seconds of the attempt's start, and
      never later than 45 seconds from now. */
  ghost predicate Timed(s: State) {
    forall row :: row in s.watchdogs ==>
      && row < |s.tables.attempts|
      && s.tables.attempts[row].dialedAt + 45 <= s.watchdogs[row] <= s.tables.now + 45
  }

  ghost predicate Live(s: State) {
    Inv(s) && Timed(s)
  }

  lemma LiveKept(s: State, step: Step)
    requires Live(s) && Enabled(s, step)
    ensures Live(Apply(s, step))
    ensures !step.Pass? ==> Apply(s, step).tables.now == s.tables.now
  {
    hide Inv, Apply, Enabled, Extends;
    InvKept(s, step);
    OnlyPassTakesTime(s, step);
    TimedKept(s, step);
  }

  lemma TimedKept(s: State, step: Step)
    requires Inv(s) && Timed(s) && Enabled(s, step) && Extends(s.tables, Apply(s, step).tables)
    ensures Timed(Apply(s, step))
  {
    hide Inv, Apply, Enabled, ContactExtends;
    var u := Apply(s, step);
    NewWatchdog(s, step);
    forall row | row in u.watchdogs
      ensures row < |u.tables.attempts|
      ensures u.tables.attempts[row].dialedAt + 45 <= u.watchdogs[row] <= u.tables.now + 45
    {
      assert row < |s.tables.attempts| && RowExtends(s.tables.attempts[row], u.tables.attempts[row]);
    }
  }

  /** Only the end of a dial call sets a watchdog, for the attempt it was about. */
  lemma NewWatchdog(s: State, step: Step)
    requires Inv(s) && Enabled(s, step)
    ensures forall row :: row in Apply(s, step).watchdogs ==>
      || (row in s.watchdogs && Apply(s, step).watchdogs[row] == s.watchdogs[row])
      || (Apply(s, step).watchdogs[row] == s.tables.now + 45 && row < |s.tables.attempts|
          && s.tables.attempts[row].dialedAt <= s.tables.now)
  {
    hide TablesAfter, TasksAfter, OutstandingAfter, TickerAfter, CancelledAfter, SlotIsFree;
    hide OwnedByOne, PollLoopFits, Guarded, Duplicate, ReadyList;
    if step.Dispatched? {
      assert TaskFits(s, step.task);
    }
  }

  lemma {:induction false} LiveAlongRun(s: State, steps: seq<Step>)
    requires Live(s) && IsRun(s, steps)
    ensures Live(After(s, steps))
    decreases |steps|
  {
    hide Live, Apply, Enabled;
    if steps != [] {
      LiveKept(s, steps[0]);
      LiveAlongRun(Apply(s, steps[0]), steps[1..]);
    }
  }

  lemma ReachableIsLive(s: State, past: seq<Step>)
    requires Initial(s) && IsRun(s, past)
    ensures Live(After(s, past))
  {
    InitialInv(s);
    LiveAlongRun(s, past);
  }

  /** In every reachable state a watchdog that can strike belongs to an attempt that began at least 45 seconds ago. */
  lemma WatchdogWaits(s: State, past: seq<Step>, row: nat)
    requires Initial(s) && IsRun(s, past) && Enabled(After(s, past), Watchdog(row))
    ensures
      var t := After(s, past).tables;
      row < |t.attempts| && t.now >= t.attempts[row].dialedAt + 45
  {
    hide IsRun, After, Initial, Inv;
    ReachableIsLive(s, past);
  }

  lemma FreedByWatchdog(s: State, c: Id, row: nat) returns (steps: seq<Step>)
    requires Live(s) && Owns(s, ByAttempt(row), c) && row in s.watchdogs
    ensures Frees(s, steps, c, s.tables.now + 45)
  {
    hide Inv, HandleDialEvent;
    var wait: nat := if s.watchdogs[row] > s.tables.now then s.watchdogs[row] - s.tables.now else 0;
    var u := Apply(s, Step.Pass(wait));
    LiveKept(s, Step.Pass(wait));
    WatchdogFrees(u, c, row);
    OneStep(u, Watchdog(row));
    OnlyPassTakesTime(u, Watchdog(row));
    FreesAfterStep(s, Step.Pass(wait), [Watchdog(row)], c, s.tables.now + 45);
    steps := [Step.Pass(wait)] + [Watchdog(row)];
  }

  lemma FailedIsNotDialing(t: Tables, row: nat)
    requires Legal(t, Change.Fail(row))
    ensures Do(t, Change.Fail(row)).contacts[t.attempts[row].contact].status != Dialing
  {
  }

  lemma WatchdogFrees(s: State, c: Id, row: nat)
    requires Inv(s) && Owns(s, ByAttempt(row), c) && row in s.watchdogs && s.watchdogs[row] <= s.tables.now
    ensures Enabled(s, Watchdog(row)) && !IsDialing(Apply(s, Watchdog(row)), c)
  {
    hide Inv, HandleDialEvent, Do, Legal, Duplicate, ReadyList;
    StepRefines(s, Watchdog(row));
    FailedIsNotDialing(s.tables, row);
  }

  lemma SentIsDispatched(s: State, c: Id, task: nat, row: nat)
    requires Owns(s, ByAttempt(row), c) && task in s.tasks && s.tasks[task].phase == Sent(row)
    ensures Enabled(s, Dispatched(task))
    ensures var u := Apply(s, Dispatched(task)); Owns(u, ByAttempt(row), c) && row in u.watchdogs
  {
    hide Duplicate, ReadyList;
  }

  lemma FreedFromSent(s: State, c: Id, task: nat, row: nat) returns (steps: seq<Step>)
    requires Live(s) && Owns(s, ByAttempt(row), c) && task in s.tasks && s.tasks[task].phase == Sent(row)
    ensures Frees(s, steps, c, s.tables.now + 45)
  {
    hide Live, Apply, Enabled, Owns, Frees;
    SentIsDispatched(s, c, task, row);
    LiveKept(s, Dispatched(task));
    var rest := FreedByWatchdog(Apply(s, Dispatched(task)), c, row);
    FreesAfterStep(s, Dispatched(task), rest, c, s.tables.now + 45);
    steps := [Dispatched(task)] + rest;
  }

  lemma OpenedIsSent(s: State, c: Id, task: nat, row: nat)
    requires Owns(s, ByAttempt(row), c) && task in s.tasks && s.tasks[task].phase == Opened(row)
    ensures Enabled(s, Send(task))
    ensures var u := Apply(s, Send(task));
      Owns(u, ByAttempt(row), c) && task in u.tasks && u.tasks[task].phase == Sent(row)
  {
    hide Duplicate, ReadyList;
  }

  lemma FreedFromOpened(s: State, c: Id, task: nat, row: nat) returns (steps: seq<Step>)
    requires Live(s) && Owns(s, ByAttempt(row), c) && task in s.tasks && s.tasks[task].phase == Opened(row)
    ensures Frees(s, steps, c, s.tables.now + 45)
  {
    hide Live, Apply, Enabled, Owns, Frees;
    OpenedIsSent(s, c, task, row);
    LiveKept(s, Send(task));
    var rest := FreedFromSent(Apply(s, Send(task)), c, task, row);
    FreesAfterStep(s, Send(task), rest, c, s.tables.now + 45);
    steps := [Send(task)] + rest;
  }

  lemma DuplicateIsDropped(s: State, c: Id, task: nat)
    requires Owns(s, ByTask(task), c) && s.tasks[task].phase == Started
    requires var n := s.tasks[task].snap; Duplicate(s.tables, n.id, n.phone, n.campaign)
    ensures Enabled(s, Step.Suppress(task)) && !IsDialing(Apply(s, Step.Suppress(task)), c)
  {
    hide Duplicate, ReadyList;
  }

  lemma FreshIsOpened(s: State, c: Id, task: nat)
    requires OwnedByOne(s) && Owns(s, ByTask(task), c) && s.tasks[task].phase == Started
    requires var n := s.tasks[task].snap; !Duplicate(s.tables, n.id, n.phone, n.campaign)
    ensures Enabled(s, Step.Open(task))
    ensures
      var u, row := Apply(s, Step.Open(task)), |s.tables.attempts|;
      Owns(u, ByAttempt(row), c) && task in u.tasks && u.tasks[task].phase == Opened(row)
  {
    hide Duplicate, ReadyList;
    assert c in s.tables.contacts;
  }

  lemma FreedFromStarted(s: State, c: Id, task: nat) returns (steps: seq<Step>)
    requires Live(s) && Owns(s, ByTask(task), c) && s.tasks[task].phase == Started
    ensures Frees(s, steps, c, s.tables.now + 45)
  {
    hide Inv, OwnedByOne, Apply, Enabled, Duplicate, Frees, Sound, TasksFit, PollLoopFits, Guarded;
    InvParts(s);
    var n := s.tasks[task].snap;
    if Duplicate(s.tables, n.id, n.phone, n.campaign) {
      DuplicateIsDropped(s, c, task);
      OneStepFrees(s, Step.Suppress(task), c);
      steps := [Step.Suppress(task)];
    } else {
      FreshIsOpened(s, c, task);
      LiveKept(s, Step.Open(task));
      var rest := FreedFromOpened(Apply(s, Step.Open(task)), c, task, |s.tables.attempts|);
      FreesAfterStep(s, Step.Open(task), rest, c, s.tables.now + 45);
      steps := [Step.Open(task)] + rest;
    }
  }

  lemma QueuedStarts(s: State, c: Id, task: nat)
    requires Owns(s, ByTask(task), c) && s.tasks[task].phase == Queued
    ensures Enabled(s, Start(task))
    ensures var u := Apply(s, Start(task)); Owns(u, ByTask(task), c) && u.tasks[task].phase == Started
  {
    hide Duplicate, ReadyList;
  }

  lemma FreedFromQueued(s: State, c: Id, task: nat) returns (steps: seq<Step>)
    requires Live(s) && Owns(s, ByTask(task), c) && s.tasks[task].phase == Queued
    ensures Frees(s, steps, c, s.tables.now + 45)
  {
    hide Inv, Timed, Apply, Enabled, Frees;
    QueuedStarts(s, c, task);
    LiveKept(s, Start(task));
    var rest := FreedFromStarted(Apply(s, Start(task)), c, task);
    FreesAfterStep(s, Start(task), rest, c, s.tables.now + 45);
    steps := [Start(task)] + rest;
  }

  lemma EnqueueIsEnabled(s: State)
    requires Inv(s) && s.ticker.claimed.Some?
    ensures Enabled(s, Enqueue)
  {
  }

  /** The poll loop either hands its contact to a new task or gives it back. */
  lemma EnqueueHandsOn(s: State, c: Id)
    requires Enabled(s, Enqueue) && Owns(s, ByPollLoop, c)
    ensures var u := Apply(s, Enqueue);
      !IsDialing(u, c) || (Owns(u, ByTask(s.submitted), c) && u.tasks[s.submitted].phase == Queued)
  {
    hide TryAcquire;
  }

  lemma FreedFromPollLoop(s: State, c: Id) returns (steps: seq<Step>)
    requires Live(s) && Owns(s, ByPollLoop, c)
    ensures Frees(s, steps, c, s.tables.now + 45)
  {
    hide Inv, Timed, Apply, Enabled, Frees;
    EnqueueIsEnabled(s);
    EnqueueHandsOn(s, c);
    LiveKept(s, Enqueue);
    if !IsDialing(Apply(s, Enqueue), c) {
      OneStepFrees(s, Enqueue, c);
      steps := [Enqueue];
    } else {
      var rest := FreedFromQueued(Apply(s, Enqueue), c, s.submitted);
      FreesAfterStep(s, Enqueue, rest, c, s.tables.now + 45);
      steps := [Enqueue] + rest;
    }
  }

  lemma ReturnedIsFree(s: State, c: Id)
    requires Owns(s, ByCancellation, c)
    ensures Enabled(s, ReturnCancelled({c})) && !IsDialing(Apply(s, ReturnCancelled({c})), c)
  {
    hide Duplicate, ReadyList;
  }

  lemma FreedByReturning(s: State, c: Id) returns (steps: seq<Step>)
    requires Live(s) && Owns(s, ByCancellation, c)
    ensures Frees(s, steps, c, s.tables.now + 45)
  {
    hide Inv, Apply, Enabled, Frees, Owns;
    ReturnedIsFree(s, c);
    OneStepFrees(s, ReturnCancelled({c}), c);
    steps := [ReturnCancelled({c})];
  }

  lemma FreedFromAttempt(s: State, c: Id, row: nat) returns (steps: seq<Step>)
    requires Live(s) && Owns(s, ByAttempt(row), c)
    ensures Frees(s, steps, c, s.tables.now + 45)
  {
    if row in s.watchdogs {
      steps := FreedByWatchdog(s, c, row);
    } else {
      assert HeldByTask(s, row);
      var task :| task in s.tasks && HoldsRow(s.tasks[task], row);
      if s.tasks[task].phase.Opened? {
        steps := FreedFromOpened(s, c, task, row);
      } else {
        steps := FreedFromSent(s, c, task, row);
      }
    }
  }

  /** From every reachable state, every dialing contact can be moved out of `dialing` by the service alone, within 45
      seconds. */
  lemma NoContactIsStuck(s: State, past: seq<Step>, c: Id)
    requires Initial(s) && IsRun(s, past) && IsDialing(After(s, past), c)
    ensures exists steps :: FreesInTime(After(s, past), steps, c)
  {
    ReachableIsLive(s, past);
    var u := After(s, past);
    assert HasOwner(u, c);
    var o :| Owns(u, o, c);
    var steps;
    match o {
      case ByPollLoop => steps := FreedFromPollLoop(u, c);
      case ByTask(task) =>
        if u.tasks[task].phase.Queued? {
          steps := FreedFromQueued(u, c, task);
        } else {
          steps := FreedFromStarted(u, c, task);
        }
      case ByCancellation => steps := FreedByReturning(u, c);
      case ByAttempt(row) => steps := FreedFromAttempt(u, c, row);
    }
    assert FreesInTime(u, steps, c);
  }
}
