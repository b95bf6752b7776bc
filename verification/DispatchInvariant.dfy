/** The protocol invariant holds initially and is kept by every step. */
module DispatchOwnership {
  import opened Text
  import opened Lifecycle
  import opened LifecycleRuns
  import opened Dispatch
  import opened DispatchRefinement

  predicate IsDialing(s: State, c: Id) {
    c in s.tables.contacts && s.tables.contacts[c].status == Dialing
  }

  /** One contact changes hands, or is taken, or is let go; everyone else keeps theirs. */
  lemma OwnerMoves(s: State, u: State, moved: Id, to: Option<Owner>)
    requires OwnedByOne(s)
    requires forall c :: c != moved ==> (IsDialing(u, c) <==> IsDialing(s, c))
    requires forall o, c :: c != moved ==> (Owns(u, o, c) <==> Owns(s, o, c))
    requires forall o :: Owns(u, o, moved) ==> Owns(s, o, moved) || (to.Some? && to.value == o)
    requires forall o :: Owns(s, o, moved) ==> !Owns(u, o, moved) || (to.Some? && to.value == o)
    requires to.Some? ==> Owns(u, to.value, moved)
    requires IsDialing(u, moved) <==> to.Some?
    ensures OwnedByOne(u)
  {
    forall o, c | Owns(u, o, c) ensures c in u.tables.contacts && u.tables.contacts[c].status == Dialing {
      if c != moved { assert Owns(s, o, c) && IsDialing(s, c) && IsDialing(u, c); } else { assert IsDialing(u, moved); }
    }
    forall o, p, c | Owns(u, o, c) && Owns(u, p, c) ensures o == p {
      assert c == moved || (Owns(s, o, c) && Owns(s, p, c));
      assert c == moved ==> (Owns(s, o, c) || to.value == o) && (Owns(s, p, c) || to.value == p);
    }
    forall c | c in u.tables.contacts && u.tables.contacts[c].status == Dialing ensures HasOwner(u, c) {
      assert IsDialing(u, c);
      if c == moved {
        assert Owns(u, to.value, c);
      } else {
        assert HasOwner(s, c);
        var o :| Owns(s, o, c);
        assert Owns(u, o, c);
      }
    }
  }

  lemma OwnersStay(s: State, u: State)
    requires OwnedByOne(s)
    requires forall c :: IsDialing(u, c) <==> IsDialing(s, c)
    requires forall o, c :: Owns(u, o, c) <==> Owns(s, o, c)
    ensures OwnedByOne(u)
  {
    forall o, c | Owns(u, o, c) ensures c in u.tables.contacts && u.tables.contacts[c].status == Dialing {
      assert Owns(s, o, c) && IsDialing(s, c) && IsDialing(u, c);
    }
    forall c | c in u.tables.contacts && u.tables.contacts[c].status == Dialing ensures HasOwner(u, c) {
      assert IsDialing(u, c) && HasOwner(s, c);
      var o :| Owns(s, o, c);
      assert Owns(u, o, c);
    }
  }

  /** No one owns a contact that is not being dialled. */
  lemma NoOwner(s: State, c: Id)
    requires OwnedByOne(s) && !IsDialing(s, c)
    ensures forall o :: !Owns(s, o, c)
  {
  }

  lemma SoleOwner(s: State, o: Owner, c: Id)
    requires OwnedByOne(s) && Owns(s, o, c)
    ensures IsDialing(s, c) && forall p :: Owns(s, p, c) <==> p == o
  {
  }

  lemma ClaimKeepsOwnership(s: State)
    requires OwnedByOne(s) && PollLoopFits(s) && Enabled(s, Step.Claim)
    ensures OwnedByOne(Apply(s, Step.Claim))
  {
    var id := s.ticker.rest[0].id;
    assert Due(s.tables, id);
    NoOwner(s, id);
    OwnerMoves(s, Apply(s, Step.Claim), id, Some(ByPollLoop));
  }

  lemma NewTaskIsNew(s: State)
    requires TasksFit(s)
    ensures s.submitted !in s.tasks
  {
    assert s.submitted in s.tasks ==> TaskFits(s, s.submitted);
  }

  lemma EnqueueKeepsOwnership(s: State)
    requires OwnedByOne(s) && TasksFit(s) && Enabled(s, Enqueue)
    ensures OwnedByOne(Apply(s, Enqueue))
  {
    hide OwnedByOne, TasksFit, Duplicate, ReadyList, SnapshotOf;
    var id := s.ticker.claimed.value.id;
    SoleOwner(s, ByPollLoop, id);
    var u := Apply(s, Enqueue);
    NewTaskIsNew(s);
    if TryAcquire(s.outstanding, s.ticker.claimed.value.campaign, s.limits[s.ticker.claimed.value.campaign]).Some? {
      OwnerMoves(s, u, id, Some(ByTask(s.submitted)));
    } else {
      OwnerMoves(s, u, id, None);
    }
  }

  lemma DropKeepsOwnership(s: State, task: nat, step: Step)
    requires OwnedByOne(s) && task in s.tasks && TaskFits(s, task) && Enabled(s, step)
    requires step == Step.Suppress(task) || step == CreateFails(task)
    ensures OwnedByOne(Apply(s, step))
  {
    hide OwnedByOne, Duplicate, ReadyList, TaskFits, SnapshotOf;
    var id := s.tasks[task].snap.id;
    SoleOwner(s, ByTask(task), id);
    OwnerMoves(s, Apply(s, step), id, None);
  }

  lemma OpenKeepsOwnership(s: State, task: nat)
    requires OwnedByOne(s) && task in s.tasks && TaskFits(s, task) && Enabled(s, Step.Open(task))
    ensures OwnedByOne(Apply(s, Step.Open(task)))
  {
    hide OwnedByOne, Duplicate, ReadyList, TaskFits, SnapshotOf;
    var id := s.tasks[task].snap.id;
    SoleOwner(s, ByTask(task), id);
    var row := |s.tables.attempts|;
    var u := Apply(s, Step.Open(task));
    assert Owns(u, ByAttempt(row), id);
    OwnerMoves(s, u, id, Some(ByAttempt(row)));
  }

  lemma AttemptEndsKeepsOwnership(s: State, u: State, row: nat)
    requires OwnedByOne(s) && InProgressAt(s.tables, row)
    requires u.ticker == s.ticker && u.cancelled == s.cancelled && u.tasks.Keys == s.tasks.Keys
    requires forall task :: task in s.tasks ==>
      && u.tasks[task].snap == s.tasks[task].snap
      && (u.tasks[task].phase == s.tasks[task].phase
          || ((s.tasks[task].phase.Opened? || s.tasks[task].phase.Sent?) && u.tasks[task].phase == Finished))
    requires s.tables.attempts[row].contact in s.tables.contacts
    requires u.tables == Do(s.tables, Change.Connect(row)) || u.tables == Do(s.tables, Change.Fail(row))
             || u.tables == Do(s.tables, Change.Abandon(row))
    ensures OwnedByOne(u)
  {
    var id := s.tables.attempts[row].contact;
    SoleOwner(s, ByAttempt(row), id);
    OwnerMoves(s, u, id, None);
  }

  lemma CancelKeepsOwnership(s: State, task: nat)
    requires OwnedByOne(s) && Enabled(s, Cancel(task))
    ensures OwnedByOne(Apply(s, Cancel(task)))
  {
    hide OwnedByOne, Duplicate, ReadyList, SnapshotOf;
    var id := s.tasks[task].snap.id;
    SoleOwner(s, ByTask(task), id);
    OwnerMoves(s, Apply(s, Cancel(task)), id, Some(ByCancellation));
  }

  lemma ReturnKeepsOwnership(s: State, ids: set<Id>)
    requires OwnedByOne(s) && Enabled(s, ReturnCancelled(ids))
    ensures OwnedByOne(Apply(s, ReturnCancelled(ids)))
  {
    var u := Apply(s, ReturnCancelled(ids));
    forall o, c | Owns(u, o, c) ensures c in u.tables.contacts && u.tables.contacts[c].status == Dialing {
      assert Owns(s, o, c);
      if c in ids { SoleOwner(s, ByCancellation, c); }
    }
    forall c | c in u.tables.contacts && u.tables.contacts[c].status == Dialing ensures HasOwner(u, c) {
      assert HasOwner(s, c);
      var o :| Owns(s, o, c);
      assert Owns(u, o, c);
    }
    forall o, p, c | Owns(u, o, c) && Owns(u, p, c) ensures o == p {
      assert Owns(s, o, c) && Owns(s, p, c);
    }
  }

  lemma HandlerExitKeepsOwnership(s: State, task: nat, step: Step)
    requires OwnedByOne(s) && task in s.tasks && TaskFits(s, task) && Enabled(s, step) && Refines(s, step)
    requires step == BuildFails(task) || step == RegisterMiss(task) || step == DialError(task)
    ensures OwnedByOne(Apply(s, step))
  {
    hide TablesAfter, ReadyList, Duplicate, SnapshotOf;
    hide OwnedByOne, HandleDialEvent, AbandonAttempt, Do, Legal, Duplicate, ReadyList;
    AttemptEndsKeepsOwnership(s, Apply(s, step), s.tasks[task].phase.row);
  }

  lemma EventKeepsOwnership(s: State, step: Step)
    requires OwnedByOne(s) && Enabled(s, step) && Refines(s, step)
    requires step.FinalEvent? || step.Watchdog?
    ensures OwnedByOne(Apply(s, step))
  {
    hide TablesAfter, ReadyList, Duplicate, SnapshotOf;
    var u := Apply(s, step);
    if InProgressAt(s.tables, step.row) { AttemptEndsKeepsOwnership(s, u, step.row); } else { OwnersStay(s, u); }
  }

  lemma BystanderKeepsOwnership(s: State, step: Step)
    requires OwnedByOne(s) && Enabled(s, step)
    requires step.Pass? || step.List? || step.Start? || step.Send? || step.Dispatched? || step.Wake?
    ensures OwnedByOne(Apply(s, step))
  {
    hide OwnedByOne, Duplicate, ReadyList, SnapshotOf;
    OwnersStay(s, Apply(s, step));
  }

  lemma NewcomersKeepOwnership(s: State, step: Step)
    requires OwnedByOne(s) && Enabled(s, step) && (step.Import? || step.ResetSuppressed?)
    ensures OwnedByOne(Apply(s, step))
  {
    hide OwnedByOne, Duplicate, ReadyList, SnapshotOf;
    OwnersStay(s, Apply(s, step));
  }

  /** Every step keeps `exactly the dialing contacts are owned, each by exactly one`. */
  lemma OwnershipKept(s: State, step: Step)
    requires Inv(s) && Enabled(s, step)
    ensures OwnedByOne(Apply(s, step))
  {
    hide Inv, Apply, Enabled, Refines, OwnedByOne, TasksFit, TaskFits, PollLoopFits, Guarded, Sound, RowsAgree,
      WithinBudget;
    InvParts(s);
    StepRefines(s, step);
    MovedFits(s, step);
    match step
    case Claim => ClaimKeepsOwnership(s);
    case Enqueue => EnqueueKeepsOwnership(s);
    case Suppress(task) => DropKeepsOwnership(s, task, step);
    case CreateFails(task) => DropKeepsOwnership(s, task, step);
    case Open(task) => OpenKeepsOwnership(s, task);
    case BuildFails(task) => HandlerExitKeepsOwnership(s, task, step);
    case RegisterMiss(task) => HandlerExitKeepsOwnership(s, task, step);
    case DialError(task) => HandlerExitKeepsOwnership(s, task, step);
    case FinalEvent(_, _) => EventKeepsOwnership(s, step);
    case Watchdog(_) => EventKeepsOwnership(s, step);
    case Cancel(task) => CancelKeepsOwnership(s, task);
    case ReturnCancelled(ids) => ReturnKeepsOwnership(s, ids);
    case Import(_, _, _, _, _) => NewcomersKeepOwnership(s, step);
    case ResetSuppressed(_) => NewcomersKeepOwnership(s, step);
    case _ => BystanderKeepsOwnership(s, step);
  }
}

module DispatchInvariant {
  import opened Text
  import opened Lifecycle
  import opened LifecycleRuns
  import opened Dispatch
  import opened DispatchRefinement
  import opened DispatchOwnership
  import Correlation

  // ---- What the running goroutines remember stays true ----

  /** Changes that cannot disturb contact `id`: its count, campaign, phone and, if it is due, its status. */
  ghost predicate Undisturbed(t: Tables, u: Tables, id: Id) {
    id in t.contacts ==>
      && id in u.contacts
      && u.contacts[id].campaign == t.contacts[id].campaign
      && u.contacts[id].phone == t.contacts[id].phone
      && u.contacts[id].attemptCount == t.contacts[id].attemptCount
      && (Due(t, id) ==> Due(u, id))
  }

  lemma ChangeDisturbsOnlyItsContact(t: Tables, ch: Change, id: Id)
    requires RowsAgree(t) && Legal(t, ch)
    requires !(ch.Claim? && ch.id == id) && !(ch.Open? && ch.id == id)
    ensures Undisturbed(t, Do(t, ch), id)
  {
    hide RowsAgree, Do, Legal, Undisturbed;
    if ch.Connect? || ch.Fail? || ch.Abandon? {
      RowAgreesAt(t, ch);
      EndingDisturbsNoOther(t, ch, id);
    } else {
      OtherChangeDisturbsNoOther(t, ch, id);
    }
  }

  lemma RowAgreesAt(t: Tables, ch: Change)
    requires RowsAgree(t) && Legal(t, ch) && (ch.Connect? || ch.Fail? || ch.Abandon?)
    ensures 0 <= ch.row < |t.attempts| && RowAgrees(t, ch.row)
  {
  }

  lemma EndingDisturbsNoOther(t: Tables, ch: Change, id: Id)
    requires Legal(t, ch) && (ch.Connect? || ch.Fail? || ch.Abandon?)
    requires ch.row < |t.attempts| && RowAgrees(t, ch.row)
    ensures Undisturbed(t, Do(t, ch), id)
  {
    hide Correlation.Print;
  }

  lemma OtherChangeDisturbsNoOther(t: Tables, ch: Change, id: Id)
    requires Legal(t, ch) && !(ch.Connect? || ch.Fail? || ch.Abandon?)
    requires !(ch.Claim? && ch.id == id) && !(ch.Open? && ch.id == id)
    ensures Undisturbed(t, Do(t, ch), id)
  {
    hide Duplicate, HasOpenAttempt, NewAttempt;
    if ch.Release? && id in ch.ids { assert Held(t, id); }
  }

  /** The contact a step may claim or dial. */
  function Disturbed(s: State, step: Step): Option<Id> {
    match step
    case Claim => if s.ticker.rest == [] then None else Some(s.ticker.rest[0].id)
    case Open(task) => if task in s.tasks then Some(s.tasks[task].snap.id) else None
    case _ => None
  }

  lemma StepDisturbsOnlyItsContact(s: State, step: Step, id: Id)
    requires RowsAgree(s.tables) && Enabled(s, step) && Refines(s, step)
    requires Disturbed(s, step) != Some(id)
    ensures Undisturbed(s.tables, Apply(s, step).tables, id)
  {
    match ChangeOf(s, step)
    case None =>
    case Some(ch) => ChangeDisturbsOnlyItsContact(s.tables, ch, id);
  }

  lemma FitsKept(s: State, step: Step, n: Snapshot)
    requires RowsAgree(s.tables) && Enabled(s, step) && Refines(s, step)
    requires Fits(s.tables, n)
    ensures Fits(Apply(s, step).tables, n)
    ensures Fresh(s.tables, n) && Disturbed(s, step) != Some(n.id) ==> Fresh(Apply(s, step).tables, n)
  {
    match ChangeOf(s, step)
    case None =>
    case Some(ch) => ContactsExtend(s.tables, ch, n.id);
    if Disturbed(s, step) != Some(n.id) { StepDisturbsOnlyItsContact(s, step, n.id); }
  }

  lemma PollLoopKept(s: State, step: Step)
    requires RowsAgree(s.tables) && OwnedByOne(s) && PollLoopFits(s) && Enabled(s, step) && Refines(s, step)
    ensures PollLoopFits(Apply(s, step))
  {
    hide Apply, Enabled, Refines, RowsAgree, OwnedByOne, Fresh, Due;
    var u := Apply(s, step);
    if step.List? {
      ListedFits(s, step);
    } else {
      LoopShrinks(s, step);
      forall i | 0 <= i < |u.ticker.rest|
        ensures Fresh(u.tables, u.ticker.rest[i]) && Due(u.tables, u.ticker.rest[i].id)
      {
        var n := u.ticker.rest[i];
        assert n in s.ticker.rest;
        DueIsNotDisturbed(s, step, i);
        ListedStaysDue(s, step, n);
      }
      if u.ticker.claimed.Some? { ClaimedStaysFresh(s, step); }
    }
  }

  lemma ListedStaysDue(s: State, step: Step, n: Snapshot)
    requires RowsAgree(s.tables) && Enabled(s, step) && Refines(s, step)
    requires Fresh(s.tables, n) && Due(s.tables, n.id) && Disturbed(s, step) != Some(n.id)
    ensures Fresh(Apply(s, step).tables, n) && Due(Apply(s, step).tables, n.id)
  {
    hide Apply, Enabled, Refines, RowsAgree, Due;
    FitsKept(s, step, n);
    StepDisturbsOnlyItsContact(s, step, n.id);
  }

  lemma ListedFits(s: State, step: Step)
    requires Enabled(s, step) && step.List?
    ensures PollLoopFits(Apply(s, step))
  {
  }

  /** Between two listings the poll loop only takes contacts off the front of its list. */
  lemma LoopShrinks(s: State, step: Step)
    requires Enabled(s, step) && !step.List?
    ensures var u := Apply(s, step);
      u.limits == s.limits
        && (u.ticker.rest == s.ticker.rest || (s.ticker.rest != [] && u.ticker.rest == s.ticker.rest[1..]))
  {
    hide TablesAfter, ReadyList, Duplicate, SnapshotOf;
  }

  lemma DueIsNotDisturbed(s: State, step: Step, i: int)
    requires OwnedByOne(s) && PollLoopFits(s) && Enabled(s, step) && !step.List?
    requires 0 <= i < |Apply(s, step).ticker.rest|
    ensures Disturbed(s, step) != Some(Apply(s, step).ticker.rest[i].id)
  {
    var n := Apply(s, step).ticker.rest[i];
    if step.Open? {
      assert Owns(s, ByTask(step.task), s.tasks[step.task].snap.id);
      assert n == s.ticker.rest[i];
    } else if step.Claim? {
      assert n == s.ticker.rest[i + 1];
    }
  }

  /** The poll loop holds the contact it held, or the one it has just claimed. */
  lemma ClaimedWasListed(s: State, step: Step)
    requires Enabled(s, step) && Apply(s, step).ticker.claimed.Some?
    ensures step.Claim? || s.ticker.claimed == Apply(s, step).ticker.claimed
    ensures step.Claim? ==> Apply(s, step).ticker.claimed == Some(s.ticker.rest[0])
    ensures step.Claim? && Fresh(s.tables, s.ticker.rest[0]) ==> Fresh(Apply(s, step).tables, s.ticker.rest[0])
  {
    hide HandleDialEvent, OpenAttempt, AbandonAttempt, Requeue, ResetRows, ReadyList, Duplicate, SnapshotOf;
  }

  lemma ClaimedStaysFresh(s: State, step: Step)
    requires RowsAgree(s.tables) && OwnedByOne(s) && PollLoopFits(s) && Enabled(s, step) && Refines(s, step)
    requires Apply(s, step).ticker.claimed.Some?
    ensures
      var n := Apply(s, step).ticker.claimed.value;
      Fresh(Apply(s, step).tables, n) && n.campaign in s.limits
  {
    hide Apply, Refines, RowsAgree, Fresh, Due;
    ClaimedWasListed(s, step);
    var n := Apply(s, step).ticker.claimed.value;
    if step.Claim? {
      assert n == s.ticker.rest[0];
    } else {
      assert Owns(s, ByPollLoop, n.id);
      ClaimedIsUndisturbed(s, step, n.id);
      FreshFits(s.tables, n);
      FitsKept(s, step, n);
    }
  }

  lemma FreshFits(t: Tables, n: Snapshot)
    requires Fresh(t, n)
    ensures Fits(t, n)
  {
  }

  lemma ClaimedIsUndisturbed(s: State, step: Step, id: Id)
    requires OwnedByOne(s) && Owns(s, ByPollLoop, id) && Enabled(s, step) && !step.Claim?
    ensures Disturbed(s, step) != Some(id)
  {
    hide ReadyList, Duplicate;
    if step.Open? { assert Owns(s, ByTask(step.task), s.tasks[step.task].snap.id); }
  }

  // ---- Tasks ----

  lemma RowsStay(s: State, step: Step)
    requires RowsAgree(s.tables) && Enabled(s, step) && Refines(s, step)
    ensures |s.tables.attempts| <= |Apply(s, step).tables.attempts|
    ensures forall i :: 0 <= i < |s.tables.attempts| ==>
              KeyOf(Apply(s, step).tables.attempts[i]) == KeyOf(s.tables.attempts[i])
  {
    hide RowsAgree, Do, Legal, Apply, Enabled;
    match ChangeOf(s, step)
    case None =>
    case Some(ch) => ChangeExtends(s.tables, ch);
  }

  /** Only three changes end an attempt in progress. */
  lemma OnlyEndingChangesEnd(t: Tables, ch: Change, row: nat)
    requires Legal(t, ch) && InProgressAt(t, row) && !InProgressAt(Do(t, ch), row)
    ensures ch == Change.Connect(row) || ch == Change.Fail(row) || ch == Change.Abandon(row)
  {
    hide Duplicate, HasOpenAttempt, NewAttempt;
  }

  lemma RowEndsBy(s: State, step: Step, row: nat)
    requires Enabled(s, step) && Refines(s, step)
    requires InProgressAt(s.tables, row) && !InProgressAt(Apply(s, step).tables, row)
    ensures EndsRow(s, step, row)
  {
    hide Do, Legal, Apply, Duplicate, ReadyList;
    OnlyEndingChangesEnd(s.tables, ChangeOf(s, step).value, row);
  }

  /** The steps that end an attempt. */
  predicate EndsRow(s: State, step: Step, row: int) {
    match step
    case BuildFails(task) => task in s.tasks && HoldsRow(s.tasks[task], row)
    case RegisterMiss(task) => task in s.tasks && HoldsRow(s.tasks[task], row)
    case DialError(task) => task in s.tasks && HoldsRow(s.tasks[task], row)
    case FinalEvent(r, _) => r == row
    case Watchdog(r) => r == row
    case _ => false
  }

  lemma TaskIsNotDisturbed(s: State, step: Step, task: nat)
    requires OwnedByOne(s) && PollLoopFits(s) && Enabled(s, step)
    requires task in s.tasks && Moved(step) != Some(task)
    requires s.tasks[task].phase.Queued? || s.tasks[task].phase.Started?
    ensures Disturbed(s, step) != Some(s.tasks[task].snap.id)
  {
    assert Owns(s, ByTask(task), s.tasks[task].snap.id);
    if step.Open? {
      assert Owns(s, ByTask(step.task), s.tasks[step.task].snap.id);
    } else if step.Claim? {
      assert Due(s.tables, s.ticker.rest[0].id);
    }
  }

  lemma OpenedRowStays(s: State, step: Step, task: nat)
    requires RowsAgree(s.tables) && TasksFit(s) && Enabled(s, step) && Refines(s, step)
    requires task in s.tasks && s.tasks[task].phase.Opened? && Moved(step) != Some(task)
    ensures InProgressAt(Apply(s, step).tables, s.tasks[task].phase.row)
  {
    var row := s.tasks[task].phase.row;
    assert TaskFits(s, task);
    if !InProgressAt(Apply(s, step).tables, row) {
      RowEndsBy(s, step, row);
      assert EndsRow(s, step, row) && HoldsRow(s.tasks[task], row) && OpenedBy(s, task, row);
      assert false;
    }
  }

  lemma OtherTaskKept(s: State, step: Step, task: nat)
    requires RowsAgree(s.tables) && OwnedByOne(s) && PollLoopFits(s) && TasksFit(s)
    requires Enabled(s, step) && Refines(s, step)
    requires task in s.tasks && Moved(step) != Some(task)
    ensures task in Apply(s, step).tasks && TaskFits(Apply(s, step), task)
  {
    hide Apply, Enabled, Refines, RowsAgree, OwnedByOne, PollLoopFits, Correlation.Print;
    var k := s.tasks[task];
    assert TaskFits(s, task);
    RowsStay(s, step);
    FitsKept(s, step, k.snap);
    if k.phase.Queued? || k.phase.Started? { TaskIsNotDisturbed(s, step, task); }
    if k.phase.Opened? { OpenedRowStays(s, step, task); }
    if k.phase.Opened? || k.phase.Sent? { OtherRowStaysUnwatched(s, step, task, k.phase.row); }
    OtherTaskStays(s, step, task);
  }

  lemma OtherRowStaysUnwatched(s: State, step: Step, task: nat, row: nat)
    requires TasksFit(s) && Enabled(s, step) && Moved(step) != Some(task)
    requires task in s.tasks && HoldsRow(s.tasks[task], row) && row !in s.watchdogs
    ensures row !in Apply(s, step).watchdogs
  {
    hide Apply, Enabled, TaskFits;
    if row in Apply(s, step).watchdogs {
      NewWatch(s, step, row);
    }
  }

  lemma OtherTaskStays(s: State, step: Step, task: nat)
    requires Enabled(s, step) && task in s.tasks && task < s.submitted && Moved(step) != Some(task)
    ensures task in Apply(s, step).tasks && Apply(s, step).tasks[task] == s.tasks[task]
    ensures s.submitted <= Apply(s, step).submitted
    ensures forall row :: row in Apply(s, step).watchdogs && row !in s.watchdogs ==>
              step.Dispatched? && s.tasks[step.task].phase == Sent(row)
  {
    hide TablesAfter, ReadyList, Duplicate, SnapshotOf;
  }

  lemma NewTaskFits(s: State)
    requires RowsAgree(s.tables) && OwnedByOne(s) && PollLoopFits(s) && Enabled(s, Enqueue) && Refines(s, Enqueue)
    requires s.submitted in Apply(s, Enqueue).tasks && s.submitted !in s.tasks
    ensures TaskFits(Apply(s, Enqueue), s.submitted)
  {
  }

  lemma MovedTaskKept(s: State, step: Step)
    requires RowsAgree(s.tables) && TasksFit(s) && Enabled(s, step) && Refines(s, step)
    requires Moved(step).Some? && Moved(step).value in Apply(s, step).tasks
    ensures TaskFits(Apply(s, step), Moved(step).value)
  {
    hide RowsAgree, TasksFit, TaskFits, Refines, Apply, Enabled;
    MovedFits(s, step);
    if step.Open? {
      NewRowIsUnwatched(s, step.task);
      OpenedTaskFits(s, step.task);
    } else if step.Start? || step.Send? {
      MovingOnFits(s, step);
    } else {
      SnapshotFits(s, Moved(step).value);
      FitsKept(s, step, s.tasks[Moved(step).value].snap);
      LeavingFits(s, step);
    }
  }

  lemma SnapshotFits(s: State, task: nat)
    requires task in s.tasks && TaskFits(s, task)
    ensures Fits(s.tables, s.tasks[task].snap)
  {
  }

  lemma OpenedTaskFits(s: State, task: nat)
    requires task in s.tasks && TaskFits(s, task) && Enabled(s, Step.Open(task))
    requires |s.tables.attempts| !in Apply(s, Step.Open(task)).watchdogs
    ensures task in Apply(s, Step.Open(task)).tasks && TaskFits(Apply(s, Step.Open(task)), task)
  {
    hide Duplicate, ReadyList, Correlation.Print;
  }

  lemma MovingOnFits(s: State, step: Step)
    requires Enabled(s, step) && (step.Start? || step.Send?) && step.task in s.tasks && TaskFits(s, step.task)
    ensures step.task in Apply(s, step).tasks && TaskFits(Apply(s, step), step.task)
  {
    hide Duplicate, ReadyList, Correlation.Print;
  }

  /** A finished or cancelled task only has to remember the right contact. */
  lemma LeavingFits(s: State, step: Step)
    requires Enabled(s, step) && Moved(step).Some? && !step.Open? && !step.Start? && !step.Send?
    requires Moved(step).value in s.tasks && TaskFits(s, Moved(step).value)
    requires Fits(Apply(s, step).tables, s.tasks[Moved(step).value].snap)
    ensures Moved(step).value in Apply(s, step).tasks ==> TaskFits(Apply(s, step), Moved(step).value)
  {
    hide TablesAfter, Duplicate, ReadyList, Correlation.Print, Fits, Fresh, WatchdogsAfter;
    assert Fits(s.tables, s.tasks[Moved(step).value].snap);
  }

  lemma NewRowIsUnwatched(s: State, task: nat)
    requires TasksFit(s) && Enabled(s, Step.Open(task))
    ensures |s.tables.attempts| !in Apply(s, Step.Open(task)).watchdogs
  {
  }

  lemma EachTaskKept(s: State, step: Step, task: nat)
    requires RowsAgree(s.tables) && OwnedByOne(s) && PollLoopFits(s) && TasksFit(s)
    requires Enabled(s, step) && Refines(s, step)
    requires task in Apply(s, step).tasks
    ensures TaskFits(Apply(s, step), task)
  {
    hide RowsAgree, OwnedByOne, PollLoopFits, TasksFit, TaskFits, Refines, TablesAfter, Duplicate, ReadyList,
      SnapshotOf;
    NewTaskIsNew(s);
    if Moved(step) == Some(task) { MovedTaskKept(s, step); }
    else if task in s.tasks { OtherTaskKept(s, step, task); }
    else { assert step.Enqueue? && task == s.submitted; NewTaskFits(s); }
  }

  lemma WatchedRowsExist(s: State, step: Step, row: nat)
    requires RowsAgree(s.tables) && TasksFit(s) && Enabled(s, step) && Refines(s, step)
    requires row in Apply(s, step).watchdogs
    ensures row < |Apply(s, step).tables.attempts|
  {
    RowsStay(s, step);
    hide Apply, Refines, RowsAgree;
    if row !in s.watchdogs {
      NewWatch(s, step, row);
      assert TaskFits(s, step.task);
    }
  }

  lemma NewWatch(s: State, step: Step, row: nat)
    requires Enabled(s, step) && row in Apply(s, step).watchdogs && row !in s.watchdogs
    ensures step.Dispatched? && step.task in s.tasks && s.tasks[step.task].phase == Sent(row)
  {
    hide TablesAfter, ReadyList, Duplicate, SnapshotOf;
  }

  lemma TasksKept(s: State, step: Step)
    requires RowsAgree(s.tables) && OwnedByOne(s) && PollLoopFits(s) && TasksFit(s)
    requires Enabled(s, step) && Refines(s, step)
    ensures TasksFit(Apply(s, step))
  {
    hide Apply, Enabled, Refines, RowsAgree, OwnedByOne, PollLoopFits, TaskFits;
    var u := Apply(s, step);
    forall task | task in u.tasks ensures TaskFits(u, task) { EachTaskKept(s, step, task); }
    forall row | row in u.watchdogs ensures row < |u.tables.attempts| { WatchedRowsExist(s, step, row); }
    forall a, b, row | a in u.tasks && b in u.tasks && HoldsRow(u.tasks[a], row) && HoldsRow(u.tasks[b], row)
      ensures a == b {
      HolderWasHolder(s, step, a, row);
      HolderWasHolder(s, step, b, row);
    }
  }

  /** A task that holds a row held it before, or has just opened it. */
  lemma HolderWasHolder(s: State, step: Step, task: nat, row: nat)
    requires TasksFit(s) && Enabled(s, step)
    requires task in Apply(s, step).tasks && HoldsRow(Apply(s, step).tasks[task], row)
    ensures (step == Step.Open(task) && row == |s.tables.attempts|)
         || (task in s.tasks && HoldsRow(s.tasks[task], row) && row < |s.tables.attempts|)
  {
    assert task in s.tasks ==> TaskFits(s, task);
    hide TasksFit, Apply, Enabled;
    if Moved(step) == Some(task) {
      MovedHolderWas(s, step, task, row);
    } else if task in s.tasks {
      OtherTaskStays(s, step, task);
    } else {
      NewTaskHoldsNothing(s, step, task, row);
    }
  }

  lemma MovedHolderWas(s: State, step: Step, task: nat, row: nat)
    requires Enabled(s, step) && Moved(step) == Some(task)
    requires task in Apply(s, step).tasks && HoldsRow(Apply(s, step).tasks[task], row)
    ensures (step == Step.Open(task) && row == |s.tables.attempts|) || (task in s.tasks && HoldsRow(s.tasks[task], row))
  {
    hide TablesAfter, ReadyList, Duplicate, SnapshotOf;
  }

  lemma NewTaskHoldsNothing(s: State, step: Step, task: nat, row: nat)
    requires Enabled(s, step) && Moved(step) != Some(task) && task !in s.tasks
    ensures task in Apply(s, step).tasks ==> !HoldsRow(Apply(s, step).tasks[task], row)
  {
    hide TablesAfter, ReadyList, Duplicate, SnapshotOf;
  }

  // ---- Guards ----

  lemma EndingChange(t: Tables, ch: Change, row: nat)
    requires Legal(t, ch) && (ch == Change.Connect(row) || ch == Change.Fail(row) || ch == Change.Abandon(row))
    ensures !InProgressAt(Do(t, ch), row)
  {
  }

  lemma EndedRowIsEnded(s: State, step: Step, row: nat)
    requires Enabled(s, step) && Refines(s, step)
    requires EndsRow(s, step, row)
    ensures !InProgressAt(Apply(s, step).tables, row)
  {
    match ChangeOf(s, step)
    case None =>
    case Some(ch) => EndingChange(s.tables, ch, row);
  }

  lemma GuardedKept(s: State, step: Step)
    requires RowsAgree(s.tables) && TasksFit(s) && Guarded(s) && Enabled(s, step) && Refines(s, step)
    ensures Guarded(Apply(s, step))
  {
    hide Apply, Enabled, Refines, RowsAgree, TaskFits, EndsRow, HoldsRow;
    var u := Apply(s, step);
    forall row | InProgressAt(u.tables, row) ensures row in u.watchdogs || HeldByTask(u, row) {
      if EndsRow(s, step, row) { EndedRowIsEnded(s, step, row); }
      if row < |s.tables.attempts| {
        WasInProgress(s, step, row);
        if row in s.watchdogs {
          WatchStays(s, step, row);
        } else {
          assert HeldByTask(s, row);
          var task :| task in s.tasks && HoldsRow(s.tasks[task], row);
          HolderStays(s, step, task, row);
        }
      } else {
        NewRowIsHeld(s, step, row);
      }
    }
  }

  lemma WasInProgress(s: State, step: Step, row: nat)
    requires RowsAgree(s.tables) && Enabled(s, step) && Refines(s, step)
    requires InProgressAt(Apply(s, step).tables, row) && row < |s.tables.attempts|
    ensures InProgressAt(s.tables, row)
  {
    hide RowsAgree, Do, Legal, Apply, Enabled;
    match ChangeOf(s, step)
    case None =>
    case Some(ch) => ChangeExtends(s.tables, ch);
  }

  lemma HolderStays(s: State, step: Step, task: nat, row: nat)
    requires TasksFit(s) && Enabled(s, step)
    requires task in s.tasks && HoldsRow(s.tasks[task], row) && !EndsRow(s, step, row)
    ensures row in Apply(s, step).watchdogs || HeldByTask(Apply(s, step), row)
  {
    assert TaskFits(s, task);
    hide Apply, Enabled, TasksFit;
    if Moved(step) == Some(task) {
      MovedHolderStays(s, step, task, row);
    } else {
      OtherTaskStays(s, step, task);
      assert HoldsRow(Apply(s, step).tasks[task], row);
    }
  }

  lemma MovedHolderStays(s: State, step: Step, task: nat, row: nat)
    requires Enabled(s, step)
    requires task in s.tasks && HoldsRow(s.tasks[task], row) && !EndsRow(s, step, row) && Moved(step) == Some(task)
    ensures row in Apply(s, step).watchdogs || HeldByTask(Apply(s, step), row)
  {
    hide TablesAfter, ReadyList, Duplicate, SnapshotOf;
    if step.Send? {
      assert HoldsRow(Apply(s, step).tasks[task], row);
    }
  }

  lemma WatchStays(s: State, step: Step, row: nat)
    requires Enabled(s, step) && row in s.watchdogs && !EndsRow(s, step, row)
    ensures row in Apply(s, step).watchdogs
  {
    hide TablesAfter, ReadyList, Duplicate, SnapshotOf;
  }

  /** Only opening an attempt adds a row, and the task that opened it holds it. */
  lemma NewRowIsHeld(s: State, step: Step, row: nat)
    requires RowsAgree(s.tables) && Enabled(s, step) && Refines(s, step)
    requires row < |Apply(s, step).tables.attempts| && row >= |s.tables.attempts|
    ensures HeldByTask(Apply(s, step), row)
  {
    if !step.Open? { OnlyOpenAddsRows(s, step); }
    assert step.task in Apply(s, step).tasks;
    assert HoldsRow(Apply(s, step).tasks[step.task], row);
  }

  lemma OnlyOpenAddsRows(s: State, step: Step)
    requires Enabled(s, step) && Refines(s, step) && !step.Open?
    ensures |Apply(s, step).tables.attempts| == |s.tables.attempts|
  {
    hide Apply, HandleDialEvent, ReadyList, Duplicate;
  }

  // ---- The whole invariant ----

  lemma InitialInv(s: State)
    requires Initial(s)
    ensures Inv(s)
  {
    EmptyIsSound();
  }

  /** Every step keeps the invariant, and undoes nothing final. */
  lemma InvKept(s: State, step: Step)
    requires Inv(s) && Enabled(s, step)
    ensures Inv(Apply(s, step))
    ensures Extends(s.tables, Apply(s, step).tables)
  {
    hide Apply, Enabled, Refines, Sound, RowsAgree, WithinBudget, OwnedByOne, PollLoopFits, TasksFit, Guarded, Extends;
    InvParts(s);
    StepRefines(s, step);
    TablesKept(s, step);
    OwnershipKept(s, step);
    PollLoopKept(s, step);
    TasksKept(s, step);
    GuardedKept(s, step);
  }

  lemma TablesKept(s: State, step: Step)
    requires Sound(s.tables) && Enabled(s, step) && Refines(s, step)
    ensures Sound(Apply(s, step).tables) && Extends(s.tables, Apply(s, step).tables)
  {
    hide Sound, Do, Legal, Apply, Enabled;
    match ChangeOf(s, step)
    case None => ExtendsItself(s.tables);
    case Some(ch) => SoundKept(s.tables, ch);
  }

  lemma ExtendsItself(t: Tables)
    ensures Extends(t, t)
  {
  }
}
