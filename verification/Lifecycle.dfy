/**
 The life cycle of campaign contacts and their call attempts: the two database tables, and every change
 the dispatcher, the dial events and the operators make to them.  `Dispatch` shows that each step of the
 whole protocol makes only these changes.
 */
module Lifecycle {
  import opened Text
  import Correlation

  /** A non-zero 64-bit row id. */
  type Id = n: int | 0 < n < Correlation.UINT64_LIMIT witness 1

  datatype Status = Ready | Dialing | Answered | Failed | Retrying | Exhausted | Suppressed

  datatype Contact = Contact(
    campaign: Id, phone: string, priority: int, status: Status,
    attemptCount: nat, maxAttempts: int, nextRunAt: Option<int>, lastDialAt: Option<int>)

  datatype AttemptState = InProgress | Established | Unsuccessful

  /** One row of the attempt table; a row's index is its primary key. */
  datatype Attempt = Attempt(
    campaign: Id, contact: Id, number: nat, correlation: string, state: AttemptState,
    dialedAt: int, endedAt: Option<int>, nextRetryAt: Option<int>)

  datatype Tables = Tables(now: int, contacts: map<Id, Contact>, attempts: seq<Attempt>)

  /** Seconds during which a second contact with the same phone is not dialled. */
  const DEDUPE_WINDOW := 86400

  predicate Final(s: Status) {
    s == Answered || s == Failed || s == Exhausted
  }

  // ---- Pure decisions ----

  /** Seconds to wait after a failed attempt, or nothing when there is no further retry. */
  function RetryDelay(number: int): Option<int> {
    if number == 1 then Some(300)
    else if number == 2 then Some(1800)
    else if number == 3 then Some(7200)
    else None
  }

  function RetryAt(number: int, now: int): Option<int> {
    match RetryDelay(number)
    case None => None
    case Some(d) => Some(now + d)
  }

  function AfterFailure(c: Contact, number: int, now: int): Contact {
    var retryAt := RetryAt(number, now);
    var status :=
      if retryAt.Some? && number < c.maxAttempts then Retrying
      else if number >= c.maxAttempts then Exhausted
      else Failed;
    c.(status := status, nextRunAt := if retryAt.Some? then retryAt else c.nextRunAt)
  }

  predicate DialledRecently(c: Contact, phone: string, campaign: Id, now: int) {
    && c.phone == phone && c.campaign == campaign && c.attemptCount > 0
    && c.lastDialAt.Some? && c.lastDialAt.value >= now - DEDUPE_WINDOW
  }

  /** Another contact of the campaign with the same phone was dialled within the window. */
  predicate Duplicate(t: Tables, id: Id, phone: string, campaign: Id) {
    && !Blank(phone)
    && exists other :: other in t.contacts && other != id && DialledRecently(t.contacts[other], phone, campaign, t.now)
  }

  // ---- Dial events, addressed by correlation id ----

  datatype EventKind = Invited | Provisional | Connected | DialFailed
  datatype Event = Event(correlation: string, kind: EventKind)

  predicate Matches(a: Attempt, k: Correlation.Key) {
    a.campaign == k.campaign && a.contact == k.contact && a.number == k.attempt
  }

  function MarkEstablished(attempts: seq<Attempt>, k: Correlation.Key): seq<Attempt> {
    seq(|attempts|, i requires 0 <= i < |attempts| =>
      if Matches(attempts[i], k) then attempts[i].(state := Established) else attempts[i])
  }

  function Ended(a: Attempt, now: int, retryAt: Option<int>): Attempt {
    a.(state := Unsuccessful, endedAt := Some(now), nextRetryAt := retryAt)
  }

  function MarkUnsuccessful(attempts: seq<Attempt>, k: Correlation.Key, now: int, retryAt: Option<int>): seq<Attempt> {
    seq(|attempts|, i requires 0 <= i < |attempts| =>
      if Matches(attempts[i], k) then Ended(attempts[i], now, retryAt) else attempts[i])
  }

  function SetStatus(t: Tables, id: int, status: Status): map<Id, Contact> {
    map c | c in t.contacts :: if c == id then t.contacts[c].(status := status) else t.contacts[c]
  }

  function AttemptFailed(t: Tables, k: Correlation.Key): Tables {
    if k.contact !in t.contacts then t
    else t.(
      attempts := MarkUnsuccessful(t.attempts, k, t.now, RetryAt(k.attempt, t.now)),
      contacts := map c | c in t.contacts ::
        if c == k.contact then AfterFailure(t.contacts[c], k.attempt, t.now) else t.contacts[c])
  }

  /** The effect of one dial event.  Nothing here looks at the attempt's current state. */
  function HandleDialEvent(t: Tables, e: Event): Tables {
    match Correlation.Parse(e.correlation)
    case None => t
    case Some(k) => ApplyEvent(t, k, e.kind)
  }

  function ApplyEvent(t: Tables, k: Correlation.Key, kind: EventKind): Tables {
    match kind
    case Invited => t
    case Provisional => t
    case Connected => t.(attempts := MarkEstablished(t.attempts, k), contacts := SetStatus(t, k.contact, Answered))
    case DialFailed => AttemptFailed(t, k)
  }

  // ---- The changes ----

  datatype Change =
    | Pass(seconds: nat)
    | Add(id: Id, campaign: Id, phone: string, priority: int, maxAttempts: int)
    | Claim(id: Id)
    | Release(ids: set<Id>, requeue: bool)
    | Suppress(id: Id)
    | Open(id: Id)
    | Connect(row: nat)
    | Fail(row: nat)
    | Abandon(row: nat)
    | ResetSuppressed(campaign: Id)

  predicate InProgressAt(t: Tables, i: int) {
    0 <= i < |t.attempts| && t.attempts[i].state == InProgress
  }

  ghost predicate HasOpenAttempt(t: Tables, id: Id) {
    exists i :: InProgressAt(t, i) && t.attempts[i].contact == id
  }

  /** Claimed for dialling, but no attempt has been opened yet. */
  ghost predicate Held(t: Tables, id: Id) {
    id in t.contacts && t.contacts[id].status == Dialing && !HasOpenAttempt(t, id)
  }

  predicate Due(t: Tables, id: Id) {
    && id in t.contacts
    && (t.contacts[id].status == Ready || t.contacts[id].status == Retrying)
    && (t.contacts[id].nextRunAt.None? || t.contacts[id].nextRunAt.value <= t.now)
  }

  ghost predicate Legal(t: Tables, ch: Change) {
    match ch
    case Pass(_) => true
    case Add(id, _, _, _, maxAttempts) => id !in t.contacts && maxAttempts >= 1
    case Claim(id) => Due(t, id)
    case Release(ids, _) => forall id :: id in ids ==> Held(t, id)
    case Suppress(id) => Held(t, id) && Duplicate(t, id, t.contacts[id].phone, t.contacts[id].campaign)
    case Open(id) => Held(t, id) && !Duplicate(t, id, t.contacts[id].phone, t.contacts[id].campaign)
    case Connect(row) => InProgressAt(t, row) && t.attempts[row].contact in t.contacts
    case Fail(row) => InProgressAt(t, row) && t.attempts[row].contact in t.contacts
    case Abandon(row) => InProgressAt(t, row) && t.attempts[row].contact in t.contacts
    case ResetSuppressed(_) => true
  }

  function NewAttempt(c: Contact, id: Id, now: int): Attempt {
    var number := c.attemptCount + 1;
    Attempt(c.campaign, id, number, Correlation.Print(Correlation.Key(c.campaign, id, number)),
            InProgress, now, None, None)
  }

  ghost function Do(t: Tables, ch: Change): Tables
    requires Legal(t, ch)
  {
    match ch
    case Pass(d) => t.(now := t.now + d)
    case Add(id, campaign, phone, priority, maxAttempts) =>
      t.(contacts := t.contacts[id := Contact(campaign, phone, priority, Ready, 0, maxAttempts, Some(t.now), None)])
    case Claim(id) =>
      t.(contacts := t.contacts[id := t.contacts[id].(status := Dialing)])
    case Release(ids, requeue) =>
      t.(contacts := map c | c in t.contacts ::
        if c in ids then
          t.contacts[c].(status := Ready, nextRunAt := if requeue then Some(t.now) else t.contacts[c].nextRunAt)
        else t.contacts[c])
    case Suppress(id) =>
      t.(contacts := t.contacts[id := t.contacts[id].(status := Suppressed)])
    case Open(id) =>
      var c := t.contacts[id];
      t.(attempts := t.attempts + [NewAttempt(c, id, t.now)],
         contacts := t.contacts[id := c.(attemptCount := c.attemptCount + 1, lastDialAt := Some(t.now))])
    case Connect(row) =>
      var id := t.attempts[row].contact;
      t.(attempts := t.attempts[row := t.attempts[row].(state := Established)],
         contacts := t.contacts[id := t.contacts[id].(status := Answered)])
    case Fail(row) =>
      var a := t.attempts[row];
      t.(attempts := t.attempts[row := Ended(a, t.now, RetryAt(a.number, t.now))],
         contacts := t.contacts[a.contact := AfterFailure(t.contacts[a.contact], a.number, t.now)])
    case Abandon(row) =>
      var a := t.attempts[row];
      t.(attempts := t.attempts[row := Ended(a, t.now, a.nextRetryAt)],
         contacts := t.contacts[a.contact := t.contacts[a.contact].(status := Failed)])
    case ResetSuppressed(campaign) =>
      t.(contacts := map c | c in t.contacts ::
        if t.contacts[c].campaign == campaign && t.contacts[c].status == Suppressed
        then t.contacts[c].(status := Ready, nextRunAt := Some(t.now), lastDialAt := None)
        else t.contacts[c])
  }

  // ---- Rows: the attempt table agrees with the contacts ----

  ghost predicate RowsAgree(t: Tables) {
    && (forall i :: 0 <= i < |t.attempts| ==> RowAgrees(t, i))
    && (forall i, j :: 0 <= i < j < |t.attempts| && t.attempts[i].contact == t.attempts[j].contact
          ==> t.attempts[i].number < t.attempts[j].number)
  }

  ghost predicate RowAgrees(t: Tables, i: int)
    requires 0 <= i < |t.attempts|
  {
    var a := t.attempts[i];
    && a.contact in t.contacts
    && a.campaign == t.contacts[a.contact].campaign
    && 1 <= a.number <= t.contacts[a.contact].attemptCount
    && a.correlation == Correlation.Print(KeyOf(a))
    && (a.state == InProgress ==>
          && t.contacts[a.contact].status == Dialing
          && a.number == t.contacts[a.contact].attemptCount
          && a.nextRetryAt == None)
  }

  function KeyOf(a: Attempt): Correlation.Key {
    Correlation.Key(a.campaign, a.contact, a.number)
  }

  lemma RowsAgreeKept(t: Tables, ch: Change)
    requires RowsAgree(t) && Legal(t, ch)
    ensures RowsAgree(Do(t, ch))
  {
    hide RowAgrees, Do, Legal, Correlation.Print;
    var u := Do(t, ch);
    if ch.Open? {
      OpenedRowAgrees(t, ch.id);
    } else {
      SameRows(t, ch);
    }
    forall i | 0 <= i < |u.attempts| ensures RowAgrees(u, i) {
      if i < |t.attempts| {
        if ch.Connect? || ch.Fail? || ch.Abandon? {
          EndingRowIsOpen(t, ch);
          OpenRowIsUnique(t, ch.row, i);
          RowAgreesAfterEnding(t, ch, i);
        } else {
          RowAgreesAfterOther(t, ch, i);
        }
      }
    }
  }

  /** A new attempt row agrees with its contact, keeps the others, and has the highest number of its contact. */
  lemma OpenedRowAgrees(t: Tables, id: Id)
    requires RowsAgree(t) && Legal(t, Open(id))
    ensures var a := Do(t, Open(id)).attempts;
      && |a| == |t.attempts| + 1 && a[..|t.attempts|] == t.attempts
      && RowAgrees(Do(t, Open(id)), |t.attempts|)
      && forall i :: 0 <= i < |t.attempts| && a[i].contact == a[|t.attempts|].contact ==>
        a[i].number < a[|t.attempts|].number
  {
    hide Duplicate, HasOpenAttempt, Correlation.Print;
    forall i | 0 <= i < |t.attempts| && t.attempts[i].contact == id
      ensures t.attempts[i].number < t.contacts[id].attemptCount + 1
    {
      assert RowAgrees(t, i);
    }
  }

  lemma EndingRowIsOpen(t: Tables, ch: Change)
    requires Legal(t, ch) && (ch.Connect? || ch.Fail? || ch.Abandon?)
    ensures InProgressAt(t, ch.row) && t.attempts[ch.row].contact in t.contacts
  {
  }

  lemma SameRows(t: Tables, ch: Change)
    requires Legal(t, ch) && !ch.Open?
    ensures |Do(t, ch).attempts| == |t.attempts|
    ensures forall i :: 0 <= i < |t.attempts| ==>
      Do(t, ch).attempts[i].contact == t.attempts[i].contact && Do(t, ch).attempts[i].number == t.attempts[i].number
  {
    hide Duplicate, HasOpenAttempt, AfterFailure, RetryAt;
  }

  lemma RowAgreesAfterEnding(t: Tables, ch: Change, i: nat)
    requires Legal(t, ch) && (ch.Connect? || ch.Fail? || ch.Abandon?)
    requires i < |t.attempts| && RowAgrees(t, i)
    requires InProgressAt(t, i) && t.attempts[i].contact == t.attempts[ch.row].contact ==> i == ch.row
    ensures i < |Do(t, ch).attempts| && RowAgrees(Do(t, ch), i)
  {
    hide RetryAt, Correlation.Print;
  }

  lemma RowAgreesAfterOther(t: Tables, ch: Change, i: nat)
    requires Legal(t, ch) && !(ch.Connect? || ch.Fail? || ch.Abandon?)
    requires i < |t.attempts| && RowAgrees(t, i)
    ensures i < |Do(t, ch).attempts| && RowAgrees(Do(t, ch), i)
  {
    hide Duplicate, NewAttempt, Correlation.Print;
    if ch.Release? && InProgressAt(t, i) { assert t.attempts[i].contact !in ch.ids; }
    if ch.Suppress? && InProgressAt(t, i) { assert t.attempts[i].contact != ch.id; }
    if ch.Open? && InProgressAt(t, i) { assert t.attempts[i].contact != ch.id; }
  }

  /** A contact has at most one attempt in progress. */
  lemma OpenRowIsUnique(t: Tables, i: int, j: int)
    requires RowsAgree(t) && InProgressAt(t, i)
    ensures InProgressAt(t, j) && t.attempts[j].contact == t.attempts[i].contact ==> i == j
  {
    assert RowAgrees(t, i);
    if InProgressAt(t, j) { assert RowAgrees(t, j); }
  }

  // ---- Numbering: attempts of a contact are 1, 2, 3, ... ----

  function NumbersOf(attempts: seq<Attempt>, id: Id): seq<nat> {
    if attempts == [] then []
    else
      var last := attempts[|attempts| - 1];
      NumbersOf(attempts[..|attempts| - 1], id) + if last.contact == id then [last.number] else []
  }

  function UpTo(n: nat): seq<nat> {
    seq(n, i requires 0 <= i => i + 1)
  }

  ghost predicate Numbered(t: Tables) {
    forall id :: id in t.contacts ==> NumbersOf(t.attempts, id) == UpTo(t.contacts[id].attemptCount)
  }

  lemma {:induction false} NumbersIgnoreState(attempts: seq<Attempt>, row: nat, a: Attempt, id: Id)
    requires row < |attempts| && a.contact == attempts[row].contact && a.number == attempts[row].number
    ensures NumbersOf(attempts[row := a], id) == NumbersOf(attempts, id)
  {
    var n := |attempts| - 1;
    var updated := attempts[row := a];
    if row == n {
      assert updated[..n] == attempts[..n];
    } else {
      assert updated[..n] == attempts[..n][row := a];
      NumbersIgnoreState(attempts[..n], row, a, id);
    }
  }

  lemma {:induction false} NoNumbersWithoutRows(attempts: seq<Attempt>, id: Id)
    requires forall i :: 0 <= i < |attempts| ==> attempts[i].contact != id
    ensures NumbersOf(attempts, id) == []
  {
    if attempts != [] { NoNumbersWithoutRows(attempts[..|attempts| - 1], id); }
  }

  lemma NumberedKept(t: Tables, ch: Change)
    requires RowsAgree(t) && Numbered(t) && Legal(t, ch)
    ensures Numbered(Do(t, ch))
  {
    hide Do, Legal, RowsAgree, UpTo, NumbersOf;
    var u := Do(t, ch);
    forall id | id in u.contacts ensures NumbersOf(u.attempts, id) == UpTo(u.contacts[id].attemptCount) {
      if id !in t.contacts {
        NewcomerIsNumbered(t, ch, id);
      } else if ch.Open? {
        OpenIsNumbered(t, ch.id, id);
      } else if ch.Connect? || ch.Fail? || ch.Abandon? {
        EndingIsNumbered(t, ch, id);
      } else {
        OtherIsNumbered(t, ch, id);
      }
    }
  }

  lemma NewcomerIsNumbered(t: Tables, ch: Change, id: Id)
    requires RowsAgree(t) && Legal(t, ch) && id !in t.contacts && id in Do(t, ch).contacts
    ensures NumbersOf(Do(t, ch).attempts, id) == UpTo(Do(t, ch).contacts[id].attemptCount)
  {
    hide Duplicate, HasOpenAttempt, NewAttempt, NumbersOf;
    forall i | 0 <= i < |t.attempts| ensures t.attempts[i].contact != id { assert RowAgrees(t, i); }
    NoNumbersWithoutRows(t.attempts, id);
  }

  lemma OpenIsNumbered(t: Tables, dialled: Id, id: Id)
    requires Legal(t, Open(dialled)) && id in t.contacts
      && NumbersOf(t.attempts, id) == UpTo(t.contacts[id].attemptCount)
    ensures id in Do(t, Open(dialled)).contacts
    ensures NumbersOf(Do(t, Open(dialled)).attempts, id) == UpTo(Do(t, Open(dialled)).contacts[id].attemptCount)
  {
    hide Do, NumbersOf, UpTo;
    OpenIs(t, dialled);
    NumbersNext(t.attempts, NewAttempt(t.contacts[dialled], dialled, t.now), id);
    UpToNext(t.contacts[dialled].attemptCount);
  }

  lemma OpenIs(t: Tables, id: Id)
    requires Legal(t, Open(id))
    ensures id in t.contacts
    ensures
      var c, u := t.contacts[id], Do(t, Open(id));
      && u.attempts == t.attempts + [NewAttempt(c, id, t.now)]
      && u.contacts == t.contacts[id := c.(attemptCount := c.attemptCount + 1, lastDialAt := Some(t.now))]
  {
    hide Duplicate, HasOpenAttempt, NewAttempt;
  }

  lemma NumbersNext(attempts: seq<Attempt>, a: Attempt, id: Id)
    ensures NumbersOf(attempts + [a], id) ==
      if a.contact == id then NumbersOf(attempts, id) + [a.number] else NumbersOf(attempts, id)
  {
    assert (attempts + [a])[..|attempts|] == attempts;
    assert NumbersOf(attempts, id) + [] == NumbersOf(attempts, id);
  }

  lemma UpToNext(n: nat)
    ensures UpTo(n + 1) == UpTo(n) + [n + 1]
  {
  }

  lemma EndingIsNumbered(t: Tables, ch: Change, id: Id)
    requires Legal(t, ch) && (ch.Connect? || ch.Fail? || ch.Abandon?)
    requires id in t.contacts && NumbersOf(t.attempts, id) == UpTo(t.contacts[id].attemptCount)
    ensures id in Do(t, ch).contacts && NumbersOf(Do(t, ch).attempts, id) == UpTo(Do(t, ch).contacts[id].attemptCount)
  {
    hide NumbersOf, UpTo, RetryAt;
    NumbersIgnoreState(t.attempts, ch.row, Do(t, ch).attempts[ch.row], id);
  }

  lemma OtherIsNumbered(t: Tables, ch: Change, id: Id)
    requires Legal(t, ch) && !ch.Open? && !(ch.Connect? || ch.Fail? || ch.Abandon?)
    requires id in t.contacts && NumbersOf(t.attempts, id) == UpTo(t.contacts[id].attemptCount)
    ensures id in Do(t, ch).contacts && NumbersOf(Do(t, ch).attempts, id) == UpTo(Do(t, ch).contacts[id].attemptCount)
  {
    hide NumbersOf, UpTo, Duplicate, HasOpenAttempt;
  }

  // ---- Budget: how often a contact can be dialled ----

  const MOST_ATTEMPTS := 4

  ghost predicate Waiting(t: Tables, id: Id) {
    && id in t.contacts
    && (t.contacts[id].status == Ready || t.contacts[id].status == Retrying || t.contacts[id].status == Suppressed
        || Held(t, id))
  }

  ghost predicate Budgeted(t: Tables, id: Id)
    requires id in t.contacts
  {
    var c := t.contacts[id];
    && c.maxAttempts >= 1
    && c.attemptCount <= c.maxAttempts && c.attemptCount <= MOST_ATTEMPTS
    && (Waiting(t, id) ==> c.attemptCount < c.maxAttempts && c.attemptCount < MOST_ATTEMPTS)
    && (c.status == Retrying ==> c.attemptCount >= 1)
  }

  ghost predicate WithinBudget(t: Tables) {
    forall id :: id in t.contacts ==> Budgeted(t, id)
  }

  /** Only the contact a change names can start or stop having an attempt in progress. */
  lemma OpenAttemptFrame(t: Tables, u: Tables, id: Id)
    requires |t.attempts| <= |u.attempts|
    requires forall i :: 0 <= i < |t.attempts| && t.attempts[i].contact == id ==> u.attempts[i] == t.attempts[i]
    requires forall i :: 0 <= i < |t.attempts| ==> u.attempts[i].contact == t.attempts[i].contact
    requires forall i :: |t.attempts| <= i < |u.attempts| ==> u.attempts[i].contact != id
    ensures HasOpenAttempt(u, id) <==> HasOpenAttempt(t, id)
  {
    if HasOpenAttempt(t, id) {
      var i :| InProgressAt(t, i) && t.attempts[i].contact == id;
      assert InProgressAt(u, i);
    }
    if HasOpenAttempt(u, id) {
      var i :| InProgressAt(u, i) && u.attempts[i].contact == id;
      assert InProgressAt(t, i);
    }
  }

  /** The contact whose row a change touches, if it touches one. */
  ghost function Touched(t: Tables, ch: Change): Option<Id>
    requires Legal(t, ch)
  {
    match ch
    case Open(id) => Some(id)
    case Connect(row) => Some(t.attempts[row].contact)
    case Fail(row) => Some(t.attempts[row].contact)
    case Abandon(row) => Some(t.attempts[row].contact)
    case _ => None
  }

  lemma WithinBudgetKept(t: Tables, ch: Change)
    requires RowsAgree(t) && WithinBudget(t) && Legal(t, ch)
    ensures WithinBudget(Do(t, ch))
  {
    hide Do, Legal, RowsAgree, Budgeted, Touched;
    var u := Do(t, ch);
    forall id | id in u.contacts ensures Budgeted(u, id) {
      if id !in t.contacts {
        NewcomerIsBudgeted(t, ch, id);
      } else if Some(id) != Touched(t, ch) {
        UntouchedIsFramed(t, ch, id);
        UntouchedIsBudgeted(t, ch, id);
      } else {
        TouchedIsBudgeted(t, ch, id);
      }
    }
  }

  lemma NewcomerIsBudgeted(t: Tables, ch: Change, id: Id)
    requires Legal(t, ch) && id !in t.contacts && id in Do(t, ch).contacts
    ensures Budgeted(Do(t, ch), id)
  {
    hide Duplicate, HasOpenAttempt, NewAttempt, RetryAt;
  }

  lemma UntouchedIsFramed(t: Tables, ch: Change, id: Id)
    requires Legal(t, ch) && Some(id) != Touched(t, ch)
    ensures HasOpenAttempt(Do(t, ch), id) <==> HasOpenAttempt(t, id)
  {
    hide Duplicate, HasOpenAttempt, RetryAt, AfterFailure, Correlation.Print;
    OpenAttemptFrame(t, Do(t, ch), id);
  }

  lemma UntouchedIsBudgeted(t: Tables, ch: Change, id: Id)
    requires Legal(t, ch) && Some(id) != Touched(t, ch) && id in t.contacts && Budgeted(t, id)
    requires HasOpenAttempt(Do(t, ch), id) <==> HasOpenAttempt(t, id)
    ensures id in Do(t, ch).contacts && Budgeted(Do(t, ch), id)
  {
    hide Duplicate, HasOpenAttempt, RetryAt, NewAttempt;
    if ch.Release? && id in ch.ids { assert Held(t, id); }
  }

  lemma TouchedIsBudgeted(t: Tables, ch: Change, id: Id)
    requires RowsAgree(t) && Legal(t, ch) && Some(id) == Touched(t, ch) && id in t.contacts && Budgeted(t, id)
    ensures id in Do(t, ch).contacts && Budgeted(Do(t, ch), id)
  {
    hide Duplicate, Correlation.Print;
    match ch
    case Open(_) => assert InProgressAt(Do(t, ch), |t.attempts|);
    case Fail(row) => assert RowAgrees(t, row);
    case Connect(_) =>
    case Abandon(_) =>
  }

  // ---- Finality and monotonicity of one change ----

  /** What no change undoes: a final status stays, a contact stays, counts only grow. */
  predicate ContactExtends(c: Contact, d: Contact) {
    && d.campaign == c.campaign && d.phone == c.phone && d.priority == c.priority && d.maxAttempts == c.maxAttempts
    && c.attemptCount <= d.attemptCount
    && (Final(c.status) ==> d.status == c.status && d.attemptCount == c.attemptCount)
  }

  /** An attempt keeps its identity, and once it has ended it is never rewritten. */
  predicate RowExtends(a: Attempt, b: Attempt) {
    && KeyOf(b) == KeyOf(a) && b.dialedAt == a.dialedAt
    && (a.state != InProgress ==> b == a)
  }

  ghost predicate Extends(t: Tables, u: Tables) {
    && t.now <= u.now
    && (forall id :: id in t.contacts ==> id in u.contacts && ContactExtends(t.contacts[id], u.contacts[id]))
    && |t.attempts| <= |u.attempts|
    && (forall i :: 0 <= i < |t.attempts| ==> RowExtends(t.attempts[i], u.attempts[i]))
  }

  lemma ContactsExtend(t: Tables, ch: Change, id: Id)
    requires RowsAgree(t) && Legal(t, ch) && id in t.contacts
    ensures id in Do(t, ch).contacts && ContactExtends(t.contacts[id], Do(t, ch).contacts[id])
  {
    hide RowsAgree, Do, Legal, ContactExtends;
    if ch.Connect? || ch.Fail? || ch.Abandon? {
      EndingRowIsOpen(t, ch);
      EndingContactIsDialing(t, ch.row);
      EndingExtendsContact(t, ch, id);
    } else {
      OtherExtendsContact(t, ch, id);
    }
  }

  lemma EndingContactIsDialing(t: Tables, row: nat)
    requires RowsAgree(t) && InProgressAt(t, row)
    ensures t.attempts[row].contact in t.contacts && t.contacts[t.attempts[row].contact].status == Dialing
  {
    hide Correlation.Print;
    assert RowAgrees(t, row);
  }

  lemma EndingExtendsContact(t: Tables, ch: Change, id: Id)
    requires Legal(t, ch) && (ch.Connect? || ch.Fail? || ch.Abandon?) && id in t.contacts
    requires t.attempts[ch.row].contact == id ==> t.contacts[id].status == Dialing
    ensures id in Do(t, ch).contacts && ContactExtends(t.contacts[id], Do(t, ch).contacts[id])
  {
    hide RetryAt;
  }

  lemma OtherExtendsContact(t: Tables, ch: Change, id: Id)
    requires Legal(t, ch) && !(ch.Connect? || ch.Fail? || ch.Abandon?) && id in t.contacts
    ensures id in Do(t, ch).contacts && ContactExtends(t.contacts[id], Do(t, ch).contacts[id])
  {
    hide Duplicate, HasOpenAttempt, NewAttempt;
    if ch.Release? && id in ch.ids { assert Held(t, id); }
  }

  lemma ChangeExtends(t: Tables, ch: Change)
    requires RowsAgree(t) && Legal(t, ch)
    ensures Extends(t, Do(t, ch))
  {
    hide RowsAgree, Do, Legal, ContactExtends, RowExtends;
    var u := Do(t, ch);
    RowsExtend(t, ch);
    forall id | id in t.contacts ensures id in u.contacts && ContactExtends(t.contacts[id], u.contacts[id]) {
      ContactsExtend(t, ch, id);
    }
  }

  lemma RowsExtend(t: Tables, ch: Change)
    requires Legal(t, ch)
    ensures t.now <= Do(t, ch).now && |t.attempts| <= |Do(t, ch).attempts|
    ensures forall i :: 0 <= i < |t.attempts| ==> RowExtends(t.attempts[i], Do(t, ch).attempts[i])
  {
    hide Duplicate, HasOpenAttempt, NewAttempt, AfterFailure, RetryAt;
  }

  /** Giving a contact back never changes how often it was dialled. */
  lemma ReturningKeepsTheCount(t: Tables, ch: Change, id: Id)
    requires Legal(t, ch) && id in t.contacts
    requires t.contacts[id].status != Ready && Do(t, ch).contacts[id].status == Ready
    ensures Do(t, ch).contacts[id].attemptCount == t.contacts[id].attemptCount
    ensures ch.Release? || ch.ResetSuppressed?
    ensures Do(t, ch).attempts == t.attempts
  {
  }
}
