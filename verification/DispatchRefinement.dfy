/** Every step of the dispatch protocol makes at most one of the life-cycle changes, and a legal one. */
module DispatchRefinement {
  import opened Text
  import opened Lifecycle
  import opened LifecycleTiming
  import opened LifecycleRuns
  import opened Dispatch
  import Correlation

  ghost function ChangeOf(s: State, step: Step): Option<Change>
    requires Enabled(s, step)
  {
    match step
    case Pass(d) => Some(Change.Pass(d))
    case Import(id, campaign, phone, priority, maxAttempts) =>
      Some(Change.Add(id, campaign, phone, priority, AttemptLimit(maxAttempts)))
    case Claim => Some(Change.Claim(s.ticker.rest[0].id))
    case Enqueue =>
      var n := s.ticker.claimed.value;
      if TryAcquire(s.outstanding, n.campaign, s.limits[n.campaign]).None? then Some(Change.Release({n.id}, true))
      else None
    case Suppress(task) => Some(Change.Suppress(s.tasks[task].snap.id))
    case CreateFails(task) => Some(Change.Release({s.tasks[task].snap.id}, false))
    case Open(task) => Some(Change.Open(s.tasks[task].snap.id))
    case BuildFails(task) => Some(Change.Abandon(s.tasks[task].phase.row))
    case RegisterMiss(task) => Some(Change.Fail(s.tasks[task].phase.row))
    case DialError(task) => Some(Change.Fail(s.tasks[task].phase.row))
    case FinalEvent(row, connected) => Some(if connected then Change.Connect(row) else Change.Fail(row))
    case Watchdog(row) => if InProgressAt(s.tables, row) then Some(Change.Fail(row)) else None
    case ReturnCancelled(ids) => Some(Change.Release(ids, true))
    case ResetSuppressed(campaign) => Some(Change.ResetSuppressed(campaign))
    case _ => None
  }

  ghost predicate Refines(s: State, step: Step)
    requires Enabled(s, step)
  {
    var u := Apply(s, step).tables;
    match ChangeOf(s, step)
    case None => u == s.tables
    case Some(ch) => Legal(s.tables, ch) && u == Do(s.tables, ch)
  }

  /** An owner other than an attempt means that no attempt is in progress. */
  lemma OwnedIsHeld(s: State, o: Owner, c: Id)
    requires OwnedByOne(s) && Owns(s, o, c) && !o.ByAttempt?
    ensures Held(s.tables, c)
  {
    if HasOpenAttempt(s.tables, c) {
      var i :| InProgressAt(s.tables, i) && s.tables.attempts[i].contact == c;
      assert Owns(s, ByAttempt(i), c);
    }
  }

  // ---- The table updates, as life-cycle changes ----

  lemma ClaimRow(t: Tables, id: Id)
    requires Due(t, id)
    ensures t.(contacts := SetStatus(t, id, Dialing)) == Do(t, Change.Claim(id))
  {
    assert SetStatus(t, id, Dialing) == Do(t, Change.Claim(id)).contacts;
  }

  lemma RequeueRows(t: Tables, ids: set<Id>)
    requires forall id :: id in ids ==> Held(t, id)
    ensures Requeue(t, ids) == Do(t, Change.Release(ids, true))
  {
    assert Requeue(t, ids).contacts == Do(t, Change.Release(ids, true)).contacts;
  }

  lemma ReturnRow(t: Tables, id: Id)
    requires Held(t, id)
    ensures t.(contacts := SetStatus(t, id, Ready)) == Do(t, Change.Release({id}, false))
  {
    assert SetStatus(t, id, Ready) == Do(t, Change.Release({id}, false)).contacts;
  }

  lemma SuppressRow(t: Tables, id: Id)
    requires Legal(t, Change.Suppress(id))
    ensures t.(contacts := SetStatus(t, id, Lifecycle.Suppressed)) == Do(t, Change.Suppress(id))
  {
    assert SetStatus(t, id, Lifecycle.Suppressed) == Do(t, Change.Suppress(id)).contacts;
  }

  lemma OpenRow(t: Tables, n: Snapshot)
    requires Fresh(t, n) && Legal(t, Change.Open(n.id))
    ensures OpenAttempt(t, n) == Do(t, Change.Open(n.id))
  {
    assert OpenAttempt(t, n).contacts == Do(t, Change.Open(n.id)).contacts;
    assert OpenAttempt(t, n).attempts == Do(t, Change.Open(n.id)).attempts;
  }

  lemma AbandonRow(t: Tables, row: nat, k: Correlation.Key)
    requires RowsAgree(t) && InProgressAt(t, row) && KeyOf(t.attempts[row]) == k
    ensures Legal(t, Change.Abandon(row)) && AbandonAttempt(t, k) == Do(t, Change.Abandon(row))
  {
    assert RowAgrees(t, row);
    forall j | 0 <= j < |t.attempts| ensures Matches(t.attempts[j], k) <==> row == j { OnlyRowWithKey(t, row, j); }
    assert AbandonAttempt(t, k).contacts == Do(t, Change.Abandon(row)).contacts;
    assert AbandonAttempt(t, k).attempts == Do(t, Change.Abandon(row)).attempts;
  }

  lemma EventRow(t: Tables, row: nat, k: Correlation.Key)
    requires RowsAgree(t) && WithinBudget(t) && InProgressAt(t, row) && KeyOf(t.attempts[row]) == k
    ensures Legal(t, Change.Connect(row)) && Legal(t, Change.Fail(row))
    ensures t.attempts[row].correlation == Correlation.Print(k)
    ensures HandleDialEvent(t, Event(Correlation.Print(k), Connected)) == Do(t, Change.Connect(row))
    ensures HandleDialEvent(t, Event(Correlation.Print(k), DialFailed)) == Do(t, Change.Fail(row))
  {
    assert RowAgrees(t, row);
    EventHitsItsAttempt(t, row);
  }

  lemma SoundFacts(t: Tables)
    requires Sound(t)
    ensures RowsAgree(t) && WithinBudget(t)
  {
    hide RowsAgree, WithinBudget, Numbered, Chronological, OnSchedule, Deduped;
  }

  lemma InvParts(s: State)
    requires Inv(s)
    ensures Sound(s.tables) && RowsAgree(s.tables) && WithinBudget(s.tables)
    ensures OwnedByOne(s) && PollLoopFits(s) && TasksFit(s) && Guarded(s)
  {
    hide Sound, RowsAgree, WithinBudget, OwnedByOne, PollLoopFits, TasksFit, Guarded;
    SoundFacts(s.tables);
  }

  // ---- The steps ----

  lemma ClaimRefines(s: State)
    requires PollLoopFits(s) && Enabled(s, Step.Claim)
    ensures Refines(s, Step.Claim)
  {
    ClaimRow(s.tables, s.ticker.rest[0].id);
  }

  lemma EnqueueRefines(s: State)
    requires OwnedByOne(s) && PollLoopFits(s) && Enabled(s, Enqueue)
    ensures Refines(s, Enqueue)
  {
    var n := s.ticker.claimed.value;
    OwnedIsHeld(s, ByPollLoop, n.id);
    RequeueRows(s.tables, {n.id});
  }

  lemma ReturnCancelledRefines(s: State, ids: set<Id>)
    requires OwnedByOne(s) && Enabled(s, ReturnCancelled(ids))
    ensures Refines(s, ReturnCancelled(ids))
  {
    forall c | c in ids ensures Held(s.tables, c) {
      OwnedIsHeld(s, ByCancellation, c);
    }
    RequeueRows(s.tables, ids);
  }

  lemma SuppressRefines(s: State, task: nat)
    requires OwnedByOne(s) && Enabled(s, Step.Suppress(task)) && TaskFits(s, task)
    ensures Refines(s, Step.Suppress(task))
  {
    hide OwnedByOne, Duplicate, SetStatus, Do, Held;
    OwnedIsHeld(s, ByTask(task), s.tasks[task].snap.id);
    SuppressRow(s.tables, s.tasks[task].snap.id);
  }

  lemma CreateFailsRefines(s: State, task: nat)
    requires OwnedByOne(s) && Enabled(s, CreateFails(task))
    ensures Refines(s, CreateFails(task))
  {
    hide OwnedByOne, Duplicate, SetStatus, Do, Held;
    OwnedIsHeld(s, ByTask(task), s.tasks[task].snap.id);
    ReturnRow(s.tables, s.tasks[task].snap.id);
  }

  lemma OpenRefines(s: State, task: nat)
    requires OwnedByOne(s) && Enabled(s, Step.Open(task)) && TaskFits(s, task)
    ensures Refines(s, Step.Open(task))
  {
    hide OwnedByOne, Duplicate, OpenAttempt, Do, Held;
    OwnedIsHeld(s, ByTask(task), s.tasks[task].snap.id);
    OpenRow(s.tables, s.tasks[task].snap);
  }

  lemma HandlerFailureRefines(s: State, task: nat, step: Step)
    requires RowsAgree(s.tables) && WithinBudget(s.tables) && task in s.tasks && TaskFits(s, task) && Enabled(s, step)
    requires step == BuildFails(task) || step == RegisterMiss(task) || step == DialError(task)
    ensures Refines(s, step)
  {
    hide RowsAgree, WithinBudget, HandleDialEvent, AbandonAttempt, Do, Duplicate, ReadyList;
    var row := s.tasks[task].phase.row;
    AbandonRow(s.tables, row, KeyFor(s.tasks[task].snap));
    EventRow(s.tables, row, KeyFor(s.tasks[task].snap));
  }

  lemma FinalEventRefines(s: State, row: nat, connected: bool)
    requires RowsAgree(s.tables) && WithinBudget(s.tables) && Enabled(s, FinalEvent(row, connected))
    ensures Refines(s, FinalEvent(row, connected))
  {
    hide RowsAgree, WithinBudget, HandleDialEvent, Do, Legal;
    EventRow(s.tables, row, KeyOf(s.tables.attempts[row]));
  }

  lemma WatchdogRefines(s: State, row: nat)
    requires RowsAgree(s.tables) && WithinBudget(s.tables) && Enabled(s, Watchdog(row))
    ensures Refines(s, Watchdog(row))
  {
    hide RowsAgree, WithinBudget, HandleDialEvent, Do, Legal;
    if InProgressAt(s.tables, row) {
      EventRow(s.tables, row, KeyOf(s.tables.attempts[row]));
    }
  }

  /** The other steps add a contact, pass time, reset contacts, or leave the tables alone. */
  lemma OtherStepsRefine(s: State, step: Step)
    requires Enabled(s, step)
    requires step.Pass? || step.Import? || step.List? || step.Start? || step.Send? || step.Dispatched? || step.Wake?
             || step.Cancel? || step.ResetSuppressed?
    ensures Refines(s, step)
  {
    hide HandleDialEvent, OpenAttempt, AbandonAttempt, Requeue, SetStatus, ReadyList, Duplicate;
  }

  lemma MovedFits(s: State, step: Step)
    requires TasksFit(s) && Enabled(s, step)
    ensures Moved(step).Some? ==> Moved(step).value in s.tasks && TaskFits(s, Moved(step).value)
  {
    hide TaskFits, Duplicate, ReadyList, InProgressAt;
  }

  /** The refinement, for every step. */
  lemma StepRefines(s: State, step: Step)
    requires Inv(s) && Enabled(s, step)
    ensures Refines(s, step)
  {
    hide Inv, Refines, Apply, Enabled, TasksFit, TaskFits, OwnedByOne, PollLoopFits, Sound, RowsAgree, WithinBudget,
      Guarded;
    InvParts(s);
    MovedFits(s, step);
    match step
    case Claim => ClaimRefines(s);
    case Enqueue => EnqueueRefines(s);
    case ReturnCancelled(ids) => ReturnCancelledRefines(s, ids);
    case Suppress(task) => SuppressRefines(s, task);
    case CreateFails(task) => CreateFailsRefines(s, task);
    case Open(task) => OpenRefines(s, task);
    case BuildFails(task) => HandlerFailureRefines(s, task, step);
    case RegisterMiss(task) => HandlerFailureRefines(s, task, step);
    case DialError(task) => HandlerFailureRefines(s, task, step);
    case FinalEvent(row, connected) => FinalEventRefines(s, row, connected);
    case Watchdog(row) => WatchdogRefines(s, row);
    case _ => OtherStepsRefine(s, step);
  }
}
