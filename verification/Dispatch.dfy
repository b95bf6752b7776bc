/**
 The dispatch protocol: one poll loop, a pool of task handlers, one waiter per task, cancellations, dial events and
 watchdogs, interleaved step by step over the two tables and the slot counters.
 */
module Dispatch {
  import opened Text
  import opened Lifecycle
  import opened LifecycleRuns
  import Correlation

  const WATCHDOG_SECONDS := 45

  /** What a task remembers of its contact: the row as the poll loop read it. */
  datatype Snapshot = Snapshot(id: Id, campaign: Id, phone: string, priority: int, attemptCount: nat)

  datatype Phase =
    | Queued
    | Started                // a worker runs the handler, no attempt row yet
    | Opened(row: nat)       // attempt row written, INVITE not sent
    | Sent(row: nat)         // Dial has been called
    | Finished               // handler returned, waiter not yet woken
    | Cancelled              // removed from the queue, waiter not yet woken

  datatype Task = Task(snap: Snapshot, phase: Phase)

  /** The poll loop: contacts still to claim, and the one claimed but not yet enqueued. */
  datatype Ticker = Ticker(rest: seq<Snapshot>, claimed: Option<Snapshot>)

  datatype State = State(
    tables: Tables,
    tasks: map<nat, Task>,          // submitted, waiter not yet woken
    submitted: nat,                 // task ids handed out so far
    outstanding: map<Id, nat>,      // slot counters; a missing campaign counts 0
    ticker: Ticker,
    cancelled: set<Id>,             // contacts of cancelled tasks, rows not yet returned
    watchdogs: map<nat, int>,       // attempt row -> deadline
    limits: map<Id, int>)           // TaskConcurrency per campaign

  // ---- Slots ----

  function Limit(configured: int): (n: int)
    ensures n >= 1
  {
    if configured <= 0 then 1 else configured
  }

  function Count(outstanding: map<Id, nat>, campaign: Id): nat {
    if campaign in outstanding then outstanding[campaign] else 0
  }

  function TryAcquire(outstanding: map<Id, nat>, campaign: Id, limit: int): Option<map<Id, nat>> {
    if Count(outstanding, campaign) >= Limit(limit) then None
    else Some(outstanding[campaign := Count(outstanding, campaign) + 1])
  }

  function Release1(outstanding: map<Id, nat>, campaign: Id): map<Id, nat> {
    if Count(outstanding, campaign) <= 1 then outstanding - {campaign}
    else outstanding[campaign := Count(outstanding, campaign) - 1]
  }

  /** The attempt limit given to an imported contact. */
  function AttemptLimit(configured: int): (n: int)
    ensures n >= 1
  {
    if configured <= 0 then 3 else configured
  }

  // ---- Reading contacts ----

  function SnapshotOf(t: Tables, id: Id): Snapshot
    requires id in t.contacts
  {
    var c := t.contacts[id];
    Snapshot(id, c.campaign, c.phone, c.priority, c.attemptCount)
  }

  /** `priority DESC, id ASC` */
  predicate DialsBefore(t: Tables, a: Id, b: Id)
    requires a in t.contacts && b in t.contacts
  {
    t.contacts[a].priority > t.contacts[b].priority || (t.contacts[a].priority == t.contacts[b].priority && a < b)
  }

  predicate ReadyToDial(t: Tables, campaign: Id, id: Id) {
    Due(t, id) && t.contacts[id].campaign == campaign
  }

  /** `ids` is the answer to the ready-to-dial query: the first `limit` due contacts in dialling order. */
  ghost predicate ReadyList(t: Tables, campaign: Id, limit: int, ids: seq<Id>) {
    && |ids| <= Limit(limit)
    && (forall i :: 0 <= i < |ids| ==> ReadyToDial(t, campaign, ids[i]))
    && (forall i, j :: 0 <= i < j < |ids| ==> DialsBefore(t, ids[i], ids[j]))
    && (forall id :: ReadyToDial(t, campaign, id) && id !in ids ==>
          |ids| == Limit(limit) && forall i :: 0 <= i < |ids| ==> DialsBefore(t, ids[i], id))
  }

  // ---- Steps ----

  datatype Step =
    | Pass(seconds: nat)
    | Import(id: Id, campaign: Id, phone: string, priority: int, maxAttempts: int)
    | List(campaign: Id, ids: seq<Id>)
    | Claim
    | Enqueue
    | Start(task: nat)
    | Suppress(task: nat)
    | CreateFails(task: nat)
    | Open(task: nat)
    | BuildFails(task: nat)
    | RegisterMiss(task: nat)
    | Send(task: nat)
    | DialError(task: nat)
    | Dispatched(task: nat)
    | FinalEvent(row: nat, connected: bool)
    | Watchdog(row: nat)
    | Wake(task: nat)
    | Cancel(task: nat)
    | ReturnCancelled(contacts: set<Id>)
    | ResetSuppressed(campaign: Id)

  predicate InPhase(s: State, task: nat, phase: Phase) {
    task in s.tasks && s.tasks[task].phase == phase
  }

  predicate OpenedBy(s: State, task: nat, row: nat) {
    InPhase(s, task, Opened(row))
  }

  /**
   When a step can happen.  For the two ways a final event arrives from outside the handler (`FinalEvent`,
   `DialError`) this carries the hypothesis about the SIP stack: the attempt has been sent and is still in progress,
   so that it has had no final event yet and its watchdog has not failed it either.
   */
  ghost predicate Enabled(s: State, step: Step) {
    match step
    case Pass(_) => true
    case Import(id, _, _, _, _) => id !in s.tables.contacts
    case List(campaign, ids) =>
      && s.ticker == Ticker([], None)
      && campaign in s.limits && ReadyList(s.tables, campaign, s.limits[campaign], ids)
    case Claim => s.ticker.rest != [] && s.ticker.claimed.None?
    case Enqueue => s.ticker.claimed.Some? && s.ticker.claimed.value.campaign in s.limits
    case Start(task) => InPhase(s, task, Queued)
    case Suppress(task) =>
      InPhase(s, task, Started) && var n := s.tasks[task].snap; Duplicate(s.tables, n.id, n.phone, n.campaign)
    case CreateFails(task) =>
      InPhase(s, task, Started) && var n := s.tasks[task].snap; !Duplicate(s.tables, n.id, n.phone, n.campaign)
    case Open(task) =>
      InPhase(s, task, Started) && var n := s.tasks[task].snap; !Duplicate(s.tables, n.id, n.phone, n.campaign)
    case BuildFails(task) => task in s.tasks && s.tasks[task].phase.Opened?
    case RegisterMiss(task) => task in s.tasks && s.tasks[task].phase.Opened?
    case Send(task) => task in s.tasks && s.tasks[task].phase.Opened?
    case DialError(task) => task in s.tasks && s.tasks[task].phase.Sent?
      && InProgressAt(s.tables, s.tasks[task].phase.row)
    case Dispatched(task) => task in s.tasks && s.tasks[task].phase.Sent?
    case FinalEvent(row, _) => InProgressAt(s.tables, row) && forall task :: !OpenedBy(s, task, row)
    case Watchdog(row) => row in s.watchdogs && s.watchdogs[row] <= s.tables.now && row < |s.tables.attempts|
    case Wake(task) => InPhase(s, task, Finished) || InPhase(s, task, Cancelled)
    case Cancel(task) => InPhase(s, task, Queued)
    case ReturnCancelled(ids) => ids <= s.cancelled
    case ResetSuppressed(_) => true
  }

  function Requeue(t: Tables, ids: set<Id>): Tables {
    t.(contacts := map c | c in t.contacts ::
      if c in ids && t.contacts[c].status == Dialing then t.contacts[c].(status := Ready, nextRunAt := Some(t.now))
      else t.contacts[c])
  }

  function KeyFor(n: Snapshot): Correlation.Key {
    Correlation.Key(n.campaign, n.id, n.attemptCount + 1)
  }

  function OpenAttempt(t: Tables, n: Snapshot): Tables {
    var k := KeyFor(n);
    t.(attempts := t.attempts
         + [Attempt(n.campaign, n.id, k.attempt, Correlation.Print(k), InProgress, t.now, None, None)],
       contacts := map c | c in t.contacts ::
         if c == n.id then t.contacts[c].(attemptCount := k.attempt, lastDialAt := Some(t.now)) else t.contacts[c])
  }

  /** The dial target could not be built: contact and attempt are failed without a retry. */
  function AbandonAttempt(t: Tables, k: Correlation.Key): Tables {
    t.(contacts := SetStatus(t, k.contact, Failed),
       attempts := seq(|t.attempts|, i requires 0 <= i < |t.attempts| =>
         if Matches(t.attempts[i], k) then Ended(t.attempts[i], t.now, t.attempts[i].nextRetryAt) else t.attempts[i]))
  }

  function ResetRows(t: Tables, campaign: Id): Tables {
    t.(contacts := map c | c in t.contacts ::
      if t.contacts[c].campaign == campaign && t.contacts[c].status == Lifecycle.Suppressed
      then t.contacts[c].(status := Ready, nextRunAt := Some(t.now), lastDialAt := None)
      else t.contacts[c])
  }

  // ---- What a step does to each part of the state ----

  function FailureOf(n: Snapshot): Event {
    Event(Correlation.Print(KeyFor(n)), DialFailed)
  }

  /** The compare-and-set of `ready|retrying` to `dialing` succeeds for the next listed contact. */
  predicate ClaimSucceeds(s: State)
    requires s.ticker.rest != []
  {
    var id := s.ticker.rest[0].id;
    id in s.tables.contacts && (s.tables.contacts[id].status == Ready || s.tables.contacts[id].status == Retrying)
  }

  /** The claimed contact gets a slot of its campaign. */
  predicate SlotIsFree(s: State)
    requires s.ticker.claimed.Some? && s.ticker.claimed.value.campaign in s.limits
  {
    var n := s.ticker.claimed.value;
    TryAcquire(s.outstanding, n.campaign, s.limits[n.campaign]).Some?
  }

  ghost function TablesAfter(s: State, step: Step): Tables
    requires Enabled(s, step)
  {
    var t := s.tables;
    match step
    case Pass(d) => t.(now := t.now + d)
    case Import(id, campaign, phone, priority, maxAttempts) =>
      t.(contacts := t.contacts[id :=
        Contact(campaign, phone, priority, Ready, 0, AttemptLimit(maxAttempts), Some(t.now), None)])
    case Claim => if ClaimSucceeds(s) then t.(contacts := SetStatus(t, s.ticker.rest[0].id, Dialing)) else t
    case Enqueue => if SlotIsFree(s) then t else Requeue(t, {s.ticker.claimed.value.id})
    case Suppress(task) => t.(contacts := SetStatus(t, s.tasks[task].snap.id, Lifecycle.Suppressed))
    case CreateFails(task) => t.(contacts := SetStatus(t, s.tasks[task].snap.id, Ready))
    case Open(task) => OpenAttempt(t, s.tasks[task].snap)
    case BuildFails(task) => AbandonAttempt(t, KeyFor(s.tasks[task].snap))
    case RegisterMiss(task) => HandleDialEvent(t, FailureOf(s.tasks[task].snap))
    case DialError(task) => HandleDialEvent(t, FailureOf(s.tasks[task].snap))
    case FinalEvent(row, connected) =>
      HandleDialEvent(t, Event(t.attempts[row].correlation, if connected then Connected else DialFailed))
    case Watchdog(row) =>
      if InProgressAt(t, row) then HandleDialEvent(t, Event(t.attempts[row].correlation, DialFailed)) else t
    case ReturnCancelled(ids) => Requeue(t, ids)
    case ResetSuppressed(campaign) => ResetRows(t, campaign)
    case _ => t
  }

  /** The task a step moves on, if it moves one. */
  function Moved(step: Step): Option<nat> {
    match step
    case Start(task) => Some(task)
    case Suppress(task) => Some(task)
    case CreateFails(task) => Some(task)
    case Open(task) => Some(task)
    case BuildFails(task) => Some(task)
    case RegisterMiss(task) => Some(task)
    case Send(task) => Some(task)
    case DialError(task) => Some(task)
    case Dispatched(task) => Some(task)
    case Wake(task) => Some(task)
    case Cancel(task) => Some(task)
    case _ => None
  }

  /** The phase a moved task is in afterwards. */
  function PhaseAfter(s: State, step: Step, phase: Phase): Phase {
    match step
    case Start(_) => Started
    case Open(_) => Opened(|s.tables.attempts|)
    case Send(_) => if phase.Opened? then Sent(phase.row) else phase
    case Cancel(_) => Cancelled
    case _ => Finished
  }

  function TasksAfter(s: State, step: Step): map<nat, Task>
    requires step.Enqueue? ==> s.ticker.claimed.Some? && s.ticker.claimed.value.campaign in s.limits
  {
    if step.Enqueue? then
      if SlotIsFree(s) then s.tasks[s.submitted := Task(s.ticker.claimed.value, Queued)] else s.tasks
    else
      match Moved(step)
      case None => s.tasks
      case Some(task) =>
        if task !in s.tasks then s.tasks
        else if step.Wake? then s.tasks - {task}
        else s.tasks[task := s.tasks[task].(phase := PhaseAfter(s, step, s.tasks[task].phase))]
  }

  function OutstandingAfter(s: State, step: Step): map<Id, nat>
    requires step.Enqueue? ==> s.ticker.claimed.Some? && s.ticker.claimed.value.campaign in s.limits
    requires step.Wake? || step.Cancel? ==> step.task in s.tasks
  {
    match step
    case Enqueue =>
      var n := s.ticker.claimed.value;
      if SlotIsFree(s) then TryAcquire(s.outstanding, n.campaign, s.limits[n.campaign]).value else s.outstanding
    case Wake(task) => Release1(s.outstanding, s.tasks[task].snap.campaign)
    case Cancel(task) => Release1(s.outstanding, s.tasks[task].snap.campaign)
    case _ => s.outstanding
  }

  function TickerAfter(s: State, step: Step): Ticker
    requires step.List? ==> forall i :: 0 <= i < |step.ids| ==> step.ids[i] in s.tables.contacts
    requires step.Claim? ==> s.ticker.rest != []
  {
    match step
    case List(_, ids) => Ticker(seq(|ids|, i requires 0 <= i < |ids| => SnapshotOf(s.tables, ids[i])), None)
    case Claim => Ticker(s.ticker.rest[1..], if ClaimSucceeds(s) then Some(s.ticker.rest[0]) else None)
    case Enqueue => s.ticker.(claimed := None)
    case _ => s.ticker
  }

  function CancelledAfter(s: State, step: Step): set<Id>
    requires step.Cancel? ==> step.task in s.tasks
  {
    match step
    case Cancel(task) => s.cancelled + {s.tasks[task].snap.id}
    case ReturnCancelled(ids) => s.cancelled - ids
    case _ => s.cancelled
  }

  function WatchdogsAfter(s: State, step: Step): map<nat, int>
    requires step.Dispatched? ==> step.task in s.tasks && s.tasks[step.task].phase.Sent?
  {
    match step
    case Dispatched(task) => s.watchdogs[s.tasks[task].phase.row := s.tables.now + WATCHDOG_SECONDS]
    case Watchdog(row) => s.watchdogs - {row}
    case _ => s.watchdogs
  }

  ghost function Apply(s: State, step: Step): State
    requires Enabled(s, step)
  {
    State(
      TablesAfter(s, step),
      TasksAfter(s, step),
      if step.Enqueue? && SlotIsFree(s) then s.submitted + 1 else s.submitted,
      OutstandingAfter(s, step),
      TickerAfter(s, step),
      CancelledAfter(s, step),
      WatchdogsAfter(s, step),
      s.limits)
  }

  ghost predicate Initial(s: State) {
    && s.tables == EMPTY && s.tasks == map[] && s.submitted == 0 && s.outstanding == map[]
    && s.ticker == Ticker([], None) && s.cancelled == {} && s.watchdogs == map[]
  }

  // ---- Ownership ----

  datatype Owner = ByPollLoop | ByTask(task: nat) | ByCancellation | ByAttempt(row: nat)

  /** Who will move the contact out of `dialing`. */
  predicate Owns(s: State, o: Owner, c: Id) {
    match o
    case ByPollLoop => s.ticker.claimed.Some? && s.ticker.claimed.value.id == c
    case ByTask(task) => task in s.tasks && s.tasks[task].snap.id == c
      && (s.tasks[task].phase.Queued? || s.tasks[task].phase.Started?)
    case ByCancellation => c in s.cancelled
    case ByAttempt(row) => InProgressAt(s.tables, row) && s.tables.attempts[row].contact == c
  }

  ghost predicate OwnedByOne(s: State) {
    && (forall o, c :: Owns(s, o, c) ==> c in s.tables.contacts && s.tables.contacts[c].status == Dialing)
    && (forall o, p, c :: Owns(s, o, c) && Owns(s, p, c) ==> o == p)
    && (forall c :: c in s.tables.contacts && s.tables.contacts[c].status == Dialing ==> HasOwner(s, c))
  }

  ghost predicate HasOwner(s: State, c: Id) {
    exists o :: Owns(s, o, c)
  }

  // ---- Snapshots and rows held by the running goroutines ----

  predicate Fits(t: Tables, n: Snapshot) {
    && n.id in t.contacts && t.contacts[n.id].campaign == n.campaign && t.contacts[n.id].phone == n.phone
    && t.contacts[n.id].priority == n.priority && t.contacts[n.id].attemptCount >= n.attemptCount
  }

  predicate Fresh(t: Tables, n: Snapshot) {
    Fits(t, n) && t.contacts[n.id].attemptCount == n.attemptCount
  }

  ghost predicate PollLoopFits(s: State) {
    && (forall i :: 0 <= i < |s.ticker.rest| ==>
          && Fresh(s.tables, s.ticker.rest[i])
          && Due(s.tables, s.ticker.rest[i].id)
          && s.ticker.rest[i].campaign in s.limits)
    && (forall i, j :: 0 <= i < j < |s.ticker.rest| ==> s.ticker.rest[i].id != s.ticker.rest[j].id)
    && (s.ticker.claimed.Some? ==>
      Fresh(s.tables, s.ticker.claimed.value) && s.ticker.claimed.value.campaign in s.limits)
  }

  predicate HoldsRow(k: Task, row: int) {
    (k.phase.Opened? || k.phase.Sent?) && k.phase.row == row
  }

  ghost predicate TaskFits(s: State, task: nat)
    requires task in s.tasks
  {
    var k := s.tasks[task];
    && task < s.submitted
    && Fits(s.tables, k.snap)
    && (k.phase.Queued? || k.phase.Started? ==> Fresh(s.tables, k.snap))
    && (k.phase.Opened? || k.phase.Sent? ==>
          && k.phase.row < |s.tables.attempts|
          && KeyOf(s.tables.attempts[k.phase.row]) == KeyFor(k.snap)
          && k.phase.row !in s.watchdogs)
    && (k.phase.Opened? ==> InProgressAt(s.tables, k.phase.row))
  }

  ghost predicate TasksFit(s: State) {
    && (forall task :: task in s.tasks ==> TaskFits(s, task))
    && (forall a, b, row ::
          a in s.tasks && b in s.tasks && HoldsRow(s.tasks[a], row) && HoldsRow(s.tasks[b], row) ==> a == b)
    && (forall row :: row in s.watchdogs ==> row < |s.tables.attempts|)
  }

  /** Every attempt in progress is still held by its handler or guarded by a watchdog. */
  ghost predicate Guarded(s: State) {
    forall row :: InProgressAt(s.tables, row) ==> row in s.watchdogs || HeldByTask(s, row)
  }

  ghost predicate HeldByTask(s: State, row: nat) {
    exists task :: task in s.tasks && HoldsRow(s.tasks[task], row)
  }

  ghost predicate Inv(s: State) {
    Sound(s.tables) && OwnedByOne(s) && PollLoopFits(s) && TasksFit(s) && Guarded(s)
  }
}
