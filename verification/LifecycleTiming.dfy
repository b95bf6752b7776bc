/**
 When contacts are dialled: no retry comes before its scheduled time, and two contacts of a campaign with the
 same phone are never dialled within one dedupe window.
 */
module LifecycleTiming {
  import opened Text
  import opened Lifecycle
  import Correlation

  // ---- The clock ----

  ghost predicate Chronological(t: Tables) {
    && (forall i :: 0 <= i < |t.attempts| ==> t.attempts[i].dialedAt <= t.now)
    && (forall i, j :: 0 <= i < j < |t.attempts| ==> t.attempts[i].dialedAt <= t.attempts[j].dialedAt)
  }

  lemma ChronologicalKept(t: Tables, ch: Change)
    requires Chronological(t) && Legal(t, ch)
    ensures Chronological(Do(t, ch))
  {
  }

  // ---- Retry schedule ----

  ghost predicate RetriesBy(t: Tables, id: Id, time: int) {
    forall i :: 0 <= i < |t.attempts| && t.attempts[i].contact == id ==>
      t.attempts[i].nextRetryAt.Some? && t.attempts[i].nextRetryAt.value <= time
  }

  predicate RetryIsScheduled(a: Attempt) {
    a.nextRetryAt.Some? ==>
      && a.state == Unsuccessful
      && a.endedAt.Some? && a.dialedAt <= a.endedAt.value
      && RetryDelay(a.number).Some?
      && a.nextRetryAt.value == a.endedAt.value + RetryDelay(a.number).value
  }

  ghost predicate ContactOnSchedule(t: Tables, id: Id)
    requires id in t.contacts
  {
    var c := t.contacts[id];
    && (c.status == Ready || c.status == Suppressed || Held(t, id) ==> RetriesBy(t, id, t.now))
    && (c.status == Retrying ==> c.nextRunAt.Some? && RetriesBy(t, id, c.nextRunAt.value))
  }

  ghost predicate OnSchedule(t: Tables) {
    && (forall i :: 0 <= i < |t.attempts| ==> RetryIsScheduled(t.attempts[i]))
    && (forall i, j :: 0 <= i < j < |t.attempts| && t.attempts[i].contact == t.attempts[j].contact ==>
          t.attempts[i].nextRetryAt.Some? && t.attempts[i].nextRetryAt.value <= t.attempts[j].dialedAt)
    && (forall id :: id in t.contacts ==> ContactOnSchedule(t, id))
  }

  /** The retry times of an untouched contact's attempts stay, and time does not run backwards. */
  lemma UntouchedRetries(t: Tables, ch: Change, id: Id, time: int)
    requires Legal(t, ch) && Some(id) != Touched(t, ch) && RetriesBy(t, id, time)
    ensures RetriesBy(Do(t, ch), id, time) && Do(t, ch).now >= t.now
  {
    hide Duplicate, HasOpenAttempt, AfterFailure, RetryAt, Correlation.Print;
  }

  lemma UntouchedScheduleKept(t: Tables, ch: Change, id: Id)
    requires RowsAgree(t) && OnSchedule(t) && Legal(t, ch)
    requires id in t.contacts && Some(id) != Touched(t, ch)
    ensures id in Do(t, ch).contacts && ContactOnSchedule(Do(t, ch), id)
  {
    hide RowsAgree, Do, Legal, Touched, RetriesBy, HasOpenAttempt;
    UntouchedIsFramed(t, ch, id);
    assert ContactOnSchedule(t, id);
    forall time | RetriesBy(t, id, time) ensures RetriesBy(Do(t, ch), id, time) && Do(t, ch).now >= t.now {
      UntouchedRetries(t, ch, id, time);
    }
    UntouchedStatus(t, ch, id);
    if t.contacts[id].status == Retrying {
      RetriesLater(t, id, t.contacts[id].nextRunAt.value);
    }
    RetriesLater(Do(t, ch), id, t.now);
  }

  /** How an untouched contact can become ready, suppressed, retrying or dialing. */
  lemma UntouchedStatus(t: Tables, ch: Change, id: Id)
    requires Legal(t, ch) && id in t.contacts && Some(id) != Touched(t, ch)
    ensures id in Do(t, ch).contacts && Do(t, ch).now >= t.now
    ensures var c, d := t.contacts[id], Do(t, ch).contacts[id];
      && (d.status == Ready || d.status == Suppressed ==> c.status == Ready || c.status == Suppressed || Held(t, id))
      && (d.status == Retrying ==> c.status == Retrying && d.nextRunAt == c.nextRunAt)
      && (d.status == Dialing ==> c.status == Dialing || Due(t, id))
  {
    hide Duplicate, HasOpenAttempt, NewAttempt, AfterFailure;
    if ch.Release? && id in ch.ids { assert Held(t, id); }
  }

  lemma RetriesLater(t: Tables, id: Id, time: int)
    ensures RetriesBy(t, id, time) && t.now >= time ==> RetriesBy(t, id, t.now)
  {
  }

  lemma FailedScheduleKept(t: Tables, row: nat)
    requires RowsAgree(t) && Chronological(t) && OnSchedule(t) && Legal(t, Fail(row))
    ensures ContactOnSchedule(Do(t, Fail(row)), t.attempts[row].contact)
  {
    var u := Do(t, Fail(row));
    var id := t.attempts[row].contact;
    LastRow(t, row);
    if u.contacts[id].status == Retrying {
      forall i | 0 <= i < |u.attempts| && u.attempts[i].contact == id
        ensures u.attempts[i].nextRetryAt.Some? && u.attempts[i].nextRetryAt.value <= u.contacts[id].nextRunAt.value
      {
        if i != row { assert i < row; }
      }
    }
  }

  lemma ContactScheduleKept(t: Tables, ch: Change, id: Id)
    requires RowsAgree(t) && Chronological(t) && OnSchedule(t) && Legal(t, ch)
    requires id in Do(t, ch).contacts
    ensures ContactOnSchedule(Do(t, ch), id)
  {
    var u := Do(t, ch);
    if id !in t.contacts {
      forall i | 0 <= i < |t.attempts| ensures t.attempts[i].contact != id { assert RowAgrees(t, i); }
    } else if Some(id) != Touched(t, ch) {
      UntouchedScheduleKept(t, ch, id);
    } else {
      match ch
      case Open(_) => assert InProgressAt(u, |t.attempts|);
      case Fail(row) => FailedScheduleKept(t, row);
      case Connect(_) =>
      case Abandon(_) =>
    }
  }

  lemma OnScheduleKept(t: Tables, ch: Change)
    requires RowsAgree(t) && Chronological(t) && OnSchedule(t) && Legal(t, ch)
    ensures OnSchedule(Do(t, ch))
  {
    hide RowsAgree, Chronological, Do, Legal, ContactOnSchedule, RetryIsScheduled;
    var u := Do(t, ch);
    forall id | id in u.contacts ensures ContactOnSchedule(u, id) {
      ContactScheduleKept(t, ch, id);
    }
    if ch.Open? {
      OpenedIsScheduled(t, ch.id);
    } else if ch.Connect? || ch.Fail? || ch.Abandon? {
      EndingRowIsOpen(t, ch);
      LastRow(t, ch.row);
      EndingIsScheduled(t, ch);
    } else {
      SameAttempts(t, ch);
    }
  }

  lemma SameAttempts(t: Tables, ch: Change)
    requires Legal(t, ch) && !ch.Open? && !(ch.Connect? || ch.Fail? || ch.Abandon?)
    ensures Do(t, ch).attempts == t.attempts
  {
    hide Duplicate, HasOpenAttempt;
  }

  ghost predicate RowsOnSchedule(t: Tables) {
    && (forall i :: 0 <= i < |t.attempts| ==> RetryIsScheduled(t.attempts[i]))
    && (forall i, j :: 0 <= i < j < |t.attempts| && t.attempts[i].contact == t.attempts[j].contact ==>
          t.attempts[i].nextRetryAt.Some? && t.attempts[i].nextRetryAt.value <= t.attempts[j].dialedAt)
  }

  lemma OpenedIsScheduled(t: Tables, id: Id)
    requires OnSchedule(t) && Legal(t, Open(id))
    ensures RowsOnSchedule(Do(t, Open(id)))
  {
    hide Duplicate, HasOpenAttempt, Correlation.Print, RetryDelay;
    assert ContactOnSchedule(t, id);
  }

  lemma EndingIsScheduled(t: Tables, ch: Change)
    requires OnSchedule(t) && Chronological(t) && Legal(t, ch) && (ch.Connect? || ch.Fail? || ch.Abandon?)
    requires forall i :: ch.row < i < |t.attempts| ==> t.attempts[i].contact != t.attempts[ch.row].contact
    requires t.attempts[ch.row].nextRetryAt == None
    ensures RowsOnSchedule(Do(t, ch))
  {
    hide ContactOnSchedule, AfterFailure;
    assert RetryIsScheduled(t.attempts[ch.row]);
  }

  /** The attempt in progress is the contact's latest. */
  lemma LastRow(t: Tables, row: int)
    requires RowsAgree(t) && InProgressAt(t, row)
    ensures forall i :: row < i < |t.attempts| ==> t.attempts[i].contact != t.attempts[row].contact
    ensures t.attempts[row].nextRetryAt == None
  {
    assert RowAgrees(t, row);
    forall i | row < i < |t.attempts| ensures t.attempts[i].contact != t.attempts[row].contact {
      assert RowAgrees(t, i);
    }
  }

  /** A later attempt starts at least the retry delay after the earlier one ended, hence after it started. */
  lemma RetriesAreSpaced(t: Tables, i: nat, j: nat)
    requires OnSchedule(t)
    requires i < j < |t.attempts| && t.attempts[i].contact == t.attempts[j].contact
    ensures RetryDelay(t.attempts[i].number).Some?
    ensures t.attempts[i].endedAt.Some?
    ensures t.attempts[j].dialedAt >= t.attempts[i].endedAt.value + RetryDelay(t.attempts[i].number).value
    ensures t.attempts[j].dialedAt >= t.attempts[i].dialedAt + RetryDelay(t.attempts[i].number).value
  {
    assert RetryIsScheduled(t.attempts[i]);
  }

  // ---- Dedupe ----

  /** Different contacts of one campaign that share a phone. */
  predicate SamePhone(t: Tables, a: Id, b: Id) {
    && a in t.contacts && b in t.contacts && a != b
    && t.contacts[a].campaign == t.contacts[b].campaign
    && t.contacts[a].phone == t.contacts[b].phone
    && !Blank(t.contacts[a].phone)
  }

  predicate LatestRow(t: Tables, i: int) {
    && 0 <= i < |t.attempts|
    && t.attempts[i].contact in t.contacts
    && t.attempts[i].number == t.contacts[t.attempts[i].contact].attemptCount
  }

  /** The contact's own last-dial time still shows this attempt. */
  predicate Visible(t: Tables, i: int)
    requires LatestRow(t, i)
  {
    var c := t.contacts[t.attempts[i].contact];
    c.lastDialAt == Some(t.attempts[i].dialedAt) && c.status != Suppressed
  }

  ghost predicate Superseded(t: Tables, i: int)
    requires 0 <= i < |t.attempts|
  {
    exists j :: i < j < |t.attempts| && SamePhone(t, t.attempts[i].contact, t.attempts[j].contact)
  }

  ghost predicate Spaced(t: Tables) {
    forall i, j :: 0 <= i < j < |t.attempts| && SamePhone(t, t.attempts[i].contact, t.attempts[j].contact) ==>
      t.attempts[j].dialedAt - t.attempts[i].dialedAt > DEDUPE_WINDOW
  }

  ghost predicate Covered(t: Tables) {
    && (forall i :: LatestRow(t, i) && !Blank(t.contacts[t.attempts[i].contact].phone) ==>
          Visible(t, i) || Superseded(t, i))
    && (forall id :: id in t.contacts && t.contacts[id].lastDialAt.Some? ==> LastDialIsARow(t, id))
    && (forall id :: id in t.contacts && t.contacts[id].lastDialAt.Some? ==> t.contacts[id].attemptCount > 0)
  }

  ghost predicate LastDialIsARow(t: Tables, id: Id)
    requires id in t.contacts
  {
    exists k ::
      0 <= k < |t.attempts| && t.attempts[k].contact == id && t.contacts[id].lastDialAt == Some(t.attempts[k].dialedAt)
  }

  ghost predicate Deduped(t: Tables) {
    Spaced(t) && Covered(t)
  }

  /** The number of the contact's last row is its attempt count. */
  ghost predicate HasRow(t: Tables, id: Id)
    requires id in t.contacts
  {
    t.contacts[id].attemptCount > 0 ==> exists k :: LatestRow(t, k) && t.attempts[k].contact == id
  }

  lemma {:induction false} NumberHasRow(attempts: seq<Attempt>, id: Id, p: nat)
    requires p < |NumbersOf(attempts, id)|
    ensures exists k ::
      0 <= k < |attempts| && attempts[k].contact == id && attempts[k].number == NumbersOf(attempts, id)[p]
  {
    var n := |attempts| - 1;
    var init := attempts[..n];
    if p < |NumbersOf(init, id)| {
      NumberHasRow(init, id, p);
      var k :| 0 <= k < n && init[k].contact == id && init[k].number == NumbersOf(init, id)[p];
      assert attempts[k] == init[k];
    } else {
      assert attempts[n].contact == id && attempts[n].number == NumbersOf(attempts, id)[p];
    }
  }

  lemma CountedContactHasRow(t: Tables, id: Id)
    requires Numbered(t) && id in t.contacts
    ensures HasRow(t, id)
  {
    var n := t.contacts[id].attemptCount;
    if n > 0 {
      NumberHasRow(t.attempts, id, n - 1);
      var k :| 0 <= k < |t.attempts| && t.attempts[k].contact == id && t.attempts[k].number == UpTo(n)[n - 1];
      assert LatestRow(t, k);
    }
  }

  /** A contact that passes the duplicate check is dialled more than a window after every dial to its phone. */
  lemma {:induction false} OpenIsSpaced(t: Tables, id: Id, i: nat)
    requires RowsAgree(t) && Numbered(t) && Chronological(t) && Deduped(t)
    requires id in t.contacts && !Duplicate(t, id, t.contacts[id].phone, t.contacts[id].campaign)
    requires i < |t.attempts| && SamePhone(t, t.attempts[i].contact, id)
    ensures t.now - t.attempts[i].dialedAt > DEDUPE_WINDOW
    decreases |t.attempts| - i
  {
    var other := t.attempts[i].contact;
    assert RowAgrees(t, i);
    CountedContactHasRow(t, other);
    var k :| LatestRow(t, k) && t.attempts[k].contact == other;
    if i < k {
      OpenIsSpaced(t, id, k);
    } else {
      LatestIsLast(t, k, i);
      if Visible(t, k) {
        assert !DialledRecently(t.contacts[other], t.contacts[id].phone, t.contacts[id].campaign, t.now);
      } else {
        var j :| k < j < |t.attempts| && SamePhone(t, other, t.attempts[j].contact);
        if t.attempts[j].contact != id {
          OpenIsSpaced(t, id, j);
        }
      }
    }
  }

  /** The duplicate check, which looks only at the contacts' own last-dial times, finds exactly what it is for: some
      other contact of the campaign with the same phone was dialled within the last day. */
  lemma DuplicateIff(t: Tables, id: Id)
    requires RowsAgree(t) && Numbered(t) && Chronological(t) && Deduped(t) && id in t.contacts
    ensures Duplicate(t, id, t.contacts[id].phone, t.contacts[id].campaign) <==>
      exists i :: 0 <= i < |t.attempts| && SamePhone(t, t.attempts[i].contact, id)
        && t.now - t.attempts[i].dialedAt <= 86400
  {
    hide RowsAgree, Numbered, Chronological;
    var c := t.contacts[id];
    if Duplicate(t, id, c.phone, c.campaign) {
      var other :| other in t.contacts && other != id && DialledRecently(t.contacts[other], c.phone, c.campaign, t.now);
      assert LastDialIsARow(t, other);
      var k :| 0 <= k < |t.attempts| && t.attempts[k].contact == other
               && t.contacts[other].lastDialAt == Some(t.attempts[k].dialedAt);
      assert SamePhone(t, t.attempts[k].contact, id);
    } else {
      forall i | 0 <= i < |t.attempts| && SamePhone(t, t.attempts[i].contact, id)
        ensures t.now - t.attempts[i].dialedAt > 86400
      {
        OpenIsSpaced(t, id, i);
      }
    }
  }

  lemma LatestIsLast(t: Tables, k: int, i: int)
    requires RowsAgree(t) && LatestRow(t, k)
    requires 0 <= i < |t.attempts| && t.attempts[i].contact == t.attempts[k].contact
    ensures i <= k
  {
    assert RowAgrees(t, i);
  }

  /** A new row is a dial, now, of a contact that passed the duplicate check. */
  lemma OnlyOpenAddsARow(t: Tables, ch: Change)
    requires Legal(t, ch) && |Do(t, ch).attempts| > |t.attempts|
    ensures ch.Open? && ch.id in t.contacts && !Duplicate(t, ch.id, t.contacts[ch.id].phone, t.contacts[ch.id].campaign)
    ensures var a := Do(t, ch).attempts;
      |a| == |t.attempts| + 1 && a[|t.attempts|].contact == ch.id && a[|t.attempts|].dialedAt == t.now
  {
    hide Duplicate;
  }

  lemma SamePhoneBefore(t: Tables, u: Tables, a: Id, b: Id)
    requires Extends(t, u) && a in t.contacts && b in t.contacts
    ensures SamePhone(u, a, b) <==> SamePhone(t, a, b)
  {
    assert ContactExtends(t.contacts[a], u.contacts[a]) && ContactExtends(t.contacts[b], u.contacts[b]);
  }

  lemma SpacedKept(t: Tables, ch: Change)
    requires RowsAgree(t) && Numbered(t) && Chronological(t) && Deduped(t) && Legal(t, ch)
    ensures Spaced(Do(t, ch))
  {
    hide Do, Legal, Duplicate, Numbered, Chronological, Covered, SamePhone;
    var u := Do(t, ch);
    ChangeExtends(t, ch);
    forall i, j | 0 <= i < j < |u.attempts| && SamePhone(u, u.attempts[i].contact, u.attempts[j].contact)
      ensures u.attempts[j].dialedAt - u.attempts[i].dialedAt > DEDUPE_WINDOW
    {
      if j >= |t.attempts| {
        OnlyOpenAddsARow(t, ch);
      }
      assert RowAgrees(t, i) && RowExtends(t.attempts[i], u.attempts[i]);
      if j < |t.attempts| {
        assert RowAgrees(t, j) && RowExtends(t.attempts[j], u.attempts[j]);
        SamePhoneBefore(t, u, t.attempts[i].contact, t.attempts[j].contact);
      } else {
        SamePhoneBefore(t, u, t.attempts[i].contact, ch.id);
        OpenIsSpaced(t, ch.id, i);
      }
    }
  }

  /** A contact is only suppressed after a later dial to its phone by another contact. */
  lemma SuppressedIsSuperseded(t: Tables, id: Id, i: int)
    requires RowsAgree(t) && Numbered(t) && Chronological(t) && Deduped(t)
    requires Legal(t, Suppress(id))
    requires LatestRow(t, i) && t.attempts[i].contact == id
    ensures Superseded(t, i)
  {
    var c := t.contacts[id];
    var other :| other in t.contacts && other != id && DialledRecently(t.contacts[other], c.phone, c.campaign, t.now);
    assert LastDialIsARow(t, other);
    var k :| 0 <= k < |t.attempts| && t.attempts[k].contact == other
             && t.contacts[other].lastDialAt == Some(t.attempts[k].dialedAt);
    if k < i {
      assert SamePhone(t, other, id);
      assert false;
    }
    assert k != i;
    assert SamePhone(t, id, other);
  }

  lemma SupersededStays(t: Tables, ch: Change, i: int)
    requires RowsAgree(t) && Legal(t, ch)
    requires 0 <= i < |t.attempts| && Superseded(t, i)
    ensures i < |Do(t, ch).attempts| && Superseded(Do(t, ch), i)
  {
    hide Do, Legal, SamePhone;
    var u := Do(t, ch);
    ChangeExtends(t, ch);
    var j :| i < j < |t.attempts| && SamePhone(t, t.attempts[i].contact, t.attempts[j].contact);
    assert RowAgrees(t, i) && RowAgrees(t, j);
    assert RowExtends(t.attempts[i], u.attempts[i]) && RowExtends(t.attempts[j], u.attempts[j]);
    SamePhoneBefore(t, u, t.attempts[i].contact, t.attempts[j].contact);
    assert SamePhone(u, u.attempts[i].contact, u.attempts[j].contact);
  }

  /** What a change does to a contact's last-dial time. */
  lemma LastDialStays(t: Tables, ch: Change, id: Id)
    requires Legal(t, ch) && id in t.contacts
    ensures id in Do(t, ch).contacts
    ensures var c, d := t.contacts[id], Do(t, ch).contacts[id];
      if ch.Open? && ch.id == id then d.attemptCount == c.attemptCount + 1 && d.lastDialAt == Some(t.now)
      else
        && d.attemptCount == c.attemptCount
        && (d.lastDialAt.Some? ==> d.lastDialAt == c.lastDialAt)
        && (c.status != Suppressed ==> d.lastDialAt == c.lastDialAt)
        && (c.status != Suppressed && !(ch.Suppress? && ch.id == id) ==> d.status != Suppressed)
  {
    hide Duplicate, HasOpenAttempt, NewAttempt, RetryAt;
  }

  lemma RowCoveredKept(t: Tables, ch: Change, i: int)
    requires RowsAgree(t) && Numbered(t) && Chronological(t) && Deduped(t) && Legal(t, ch)
    requires LatestRow(Do(t, ch), i) && !Blank(Do(t, ch).contacts[Do(t, ch).attempts[i].contact].phone)
    ensures Visible(Do(t, ch), i) || Superseded(Do(t, ch), i)
  {
    hide Do, Legal, Numbered, Chronological, Superseded, Duplicate;
    var u := Do(t, ch);
    if i < |t.attempts| {
      ChangeExtends(t, ch);
      assert RowAgrees(t, i) && RowExtends(t.attempts[i], u.attempts[i]);
      var id := t.attempts[i].contact;
      assert ContactExtends(t.contacts[id], u.contacts[id]);
      LastDialStays(t, ch, id);
      assert LatestRow(t, i);
      if Superseded(t, i) {
        SupersededStays(t, ch, i);
      } else if ch.Suppress? && ch.id == id {
        SuppressedIsSuperseded(t, id, i);
        SupersededStays(t, ch, i);
      }
    } else {
      NewRowIsVisible(t, ch, i);
    }
  }

  lemma NewRowIsVisible(t: Tables, ch: Change, i: nat)
    requires Legal(t, ch) && i >= |t.attempts| && LatestRow(Do(t, ch), i)
    ensures Visible(Do(t, ch), i)
  {
    hide Duplicate, RetryAt, Correlation.Print;
  }

  lemma LastDialsKept(t: Tables, ch: Change, id: Id)
    requires RowsAgree(t) && Covered(t) && Legal(t, ch)
    requires id in Do(t, ch).contacts && Do(t, ch).contacts[id].lastDialAt.Some?
    ensures LastDialIsARow(Do(t, ch), id)
    ensures Do(t, ch).contacts[id].attemptCount > 0
  {
    hide Do, Legal, RowsAgree;
    var u := Do(t, ch);
    if id !in t.contacts {
      NewcomerWasNotDialled(t, ch, id);
    } else {
      LastDialStays(t, ch, id);
      if ch.Open? && ch.id == id {
        OpenedRowIsLast(t, id);
      } else {
        ChangeExtends(t, ch);
        assert LastDialIsARow(t, id);
        var k :| 0 <= k < |t.attempts| && t.attempts[k].contact == id
                 && t.contacts[id].lastDialAt == Some(t.attempts[k].dialedAt);
        assert RowExtends(t.attempts[k], u.attempts[k]);
      }
    }
  }

  lemma NewcomerWasNotDialled(t: Tables, ch: Change, id: Id)
    requires Legal(t, ch) && id !in t.contacts && id in Do(t, ch).contacts
    ensures Do(t, ch).contacts[id].lastDialAt == None
  {
    hide Duplicate, HasOpenAttempt, NewAttempt, RetryAt;
  }

  lemma OpenedRowIsLast(t: Tables, id: Id)
    requires Legal(t, Open(id))
    ensures LastDialIsARow(Do(t, Open(id)), id)
  {
    hide Duplicate, HasOpenAttempt, Correlation.Print;
    assert Do(t, Open(id)).attempts[|t.attempts|].contact == id;
  }

  lemma DedupedKept(t: Tables, ch: Change)
    requires RowsAgree(t) && Numbered(t) && Chronological(t) && Deduped(t) && Legal(t, ch)
    ensures Deduped(Do(t, ch))
  {
    var u := Do(t, ch);
    SpacedKept(t, ch);
    forall i | LatestRow(u, i) && !Blank(u.contacts[u.attempts[i].contact].phone)
      ensures Visible(u, i) || Superseded(u, i)
    {
      RowCoveredKept(t, ch, i);
    }
    forall id | id in u.contacts && u.contacts[id].lastDialAt.Some?
      ensures LastDialIsARow(u, id) && u.contacts[id].attemptCount > 0
    {
      LastDialsKept(t, ch, id);
    }
  }
}

/** Everything the two tables always satisfy, and what follows for whole runs of changes. */
module LifecycleRuns {
  import opened Text
  import opened Lifecycle
  import opened LifecycleTiming
  import Correlation

  ghost predicate Sound(t: Tables) {
    RowsAgree(t) && Numbered(t) && WithinBudget(t) && Chronological(t) && OnSchedule(t) && Deduped(t)
  }

  const EMPTY := Tables(0, map[], [])

  lemma EmptyIsSound()
    ensures Sound(EMPTY)
  {
  }

  /** Every change keeps the tables sound and undoes nothing final. */
  lemma SoundKept(t: Tables, ch: Change)
    requires Sound(t) && Legal(t, ch)
    ensures Sound(Do(t, ch)) && Extends(t, Do(t, ch))
  {
    RowsAgreeKept(t, ch);
    NumberedKept(t, ch);
    WithinBudgetKept(t, ch);
    ChronologicalKept(t, ch);
    OnScheduleKept(t, ch);
    DedupedKept(t, ch);
    ChangeExtends(t, ch);
  }

  lemma ExtendsIsTransitive(t: Tables, u: Tables, v: Tables)
    requires Extends(t, u) && Extends(u, v)
    ensures Extends(t, v)
  {
    forall id | id in t.contacts ensures id in v.contacts && ContactExtends(t.contacts[id], v.contacts[id]) {
      assert ContactExtends(t.contacts[id], u.contacts[id]);
    }
    forall i | 0 <= i < |t.attempts| ensures RowExtends(t.attempts[i], v.attempts[i]) {
      assert RowExtends(t.attempts[i], u.attempts[i]) && RowExtends(u.attempts[i], v.attempts[i]);
    }
  }

  // ---- A dial event reaches exactly the attempt whose correlation id it carries ----

  lemma KeyIsValid(t: Tables, i: int)
    requires RowsAgree(t) && WithinBudget(t) && 0 <= i < |t.attempts|
    ensures Correlation.ValidKey(KeyOf(t.attempts[i]))
  {
    assert RowAgrees(t, i);
  }

  lemma OnlyRowWithKey(t: Tables, i: int, j: int)
    requires RowsAgree(t) && 0 <= i < |t.attempts| && 0 <= j < |t.attempts|
    ensures Matches(t.attempts[j], KeyOf(t.attempts[i])) <==> i == j
  {
  }

  lemma ConnectionHitsItsAttempt(t: Tables, row: nat)
    requires RowsAgree(t) && Legal(t, Connect(row))
    ensures ApplyEvent(t, KeyOf(t.attempts[row]), Connected) == Do(t, Connect(row))
  {
    var k := KeyOf(t.attempts[row]);
    forall j | 0 <= j < |t.attempts| ensures Matches(t.attempts[j], k) <==> row == j { OnlyRowWithKey(t, row, j); }
    assert MarkEstablished(t.attempts, k) == Do(t, Connect(row)).attempts;
    assert SetStatus(t, k.contact, Answered) == Do(t, Connect(row)).contacts;
  }

  lemma FailureHitsItsAttempt(t: Tables, row: nat)
    requires RowsAgree(t) && Legal(t, Fail(row))
    ensures AttemptFailed(t, KeyOf(t.attempts[row])) == Do(t, Fail(row))
  {
    var k := KeyOf(t.attempts[row]);
    forall j | 0 <= j < |t.attempts| ensures Matches(t.attempts[j], k) <==> row == j { OnlyRowWithKey(t, row, j); }
    assert AttemptFailed(t, k).attempts == Do(t, Fail(row)).attempts;
    assert AttemptFailed(t, k).contacts == Do(t, Fail(row)).contacts;
  }

  lemma CorrelationFindsTheKey(t: Tables, row: nat)
    requires RowsAgree(t) && WithinBudget(t) && row < |t.attempts|
    ensures Correlation.Parse(t.attempts[row].correlation) == Some(KeyOf(t.attempts[row]))
  {
    assert RowAgrees(t, row);
    KeyIsValid(t, row);
    Correlation.ParseOfPrint(KeyOf(t.attempts[row]));
  }

  /** A final event for an attempt in progress answers or fails that attempt and its contact, nothing else. */
  lemma EventHitsItsAttempt(t: Tables, row: nat)
    requires RowsAgree(t) && WithinBudget(t) && Legal(t, Connect(row))
    ensures HandleDialEvent(t, Event(t.attempts[row].correlation, Connected)) == Do(t, Connect(row))
    ensures HandleDialEvent(t, Event(t.attempts[row].correlation, DialFailed)) == Do(t, Fail(row))
  {
    CorrelationFindsTheKey(t, row);
    ConnectionHitsItsAttempt(t, row);
    FailureHitsItsAttempt(t, row);
  }

  /** When an attempt that failed now is tried again: five minutes after the first attempt, half an hour after the
      second, two hours after the third. */
  function NextTry(number: nat, now: int): Option<int> {
    if number == 1 then Some(now + 300)
    else if number == 2 then Some(now + 1800)
    else if number == 3 then Some(now + 7200)
    else None
  }

  function FailedRow(a: Attempt, now: int): Attempt {
    a.(state := Unsuccessful, endedAt := Some(now), nextRetryAt := NextTry(a.number, now))
  }

  function FailedContact(c: Contact, number: nat, now: int): Contact {
    c.(status := if number >= c.maxAttempts then Exhausted else if number <= 3 then Retrying else Failed,
       nextRunAt := if NextTry(number, now).Some? then NextTry(number, now) else c.nextRunAt)
  }

  /** What a failed attempt leaves: the attempt has ended now, and the contact waits for its next try, unless that
      was the last one it is allowed; a contact allowed more than four attempts fails at the fourth. */
  lemma FailureIsRecorded(t: Tables, row: nat)
    requires RowsAgree(t) && WithinBudget(t) && InProgressAt(t, row)
    ensures t.attempts[row].contact in t.contacts
    ensures
      var a := t.attempts[row];
      HandleDialEvent(t, Event(a.correlation, DialFailed)) == t.(
        attempts := t.attempts[row := FailedRow(a, t.now)],
        contacts := t.contacts[a.contact := FailedContact(t.contacts[a.contact], a.number, t.now)])
  {
    hide HandleDialEvent, Correlation.Print;
    assert RowAgrees(t, row);
    EventHitsItsAttempt(t, row);
  }

  /** What an answer leaves. */
  lemma AnswerIsRecorded(t: Tables, row: nat)
    requires RowsAgree(t) && WithinBudget(t) && InProgressAt(t, row)
    ensures t.attempts[row].contact in t.contacts
    ensures
      var a := t.attempts[row];
      var c := t.contacts[a.contact];
      HandleDialEvent(t, Event(a.correlation, Connected)) ==
        t.(attempts := t.attempts[row := a.(state := Established)],
           contacts := t.contacts[a.contact := c.(status := Answered)])
  {
    hide HandleDialEvent, Correlation.Print;
    assert RowAgrees(t, row);
    EventHitsItsAttempt(t, row);
  }

  // ---- Without the attempt being in progress ----

  predicate IsFinal(kind: EventKind) {
    kind == Connected || kind == DialFailed
  }

  /** Whatever attempt of a known contact a final event names, the contact leaves `dialing`. */
  lemma FinalEventMovesTheContact(t: Tables, k: Correlation.Key, kind: EventKind)
    requires k.contact in t.contacts && IsFinal(kind)
    ensures
      var u := ApplyEvent(t, k, kind);
      && u.contacts.Keys == t.contacts.Keys
      && (forall c :: c in t.contacts && c != k.contact ==> u.contacts[c] == t.contacts[c])
      && u.contacts[k.contact].status ==
           (if kind == Connected then Answered else AfterFailure(t.contacts[k.contact], k.attempt, t.now).status)
      && |u.attempts| == |t.attempts|
      && (forall i :: 0 <= i < |t.attempts| ==>
            && KeyOf(u.attempts[i]) == KeyOf(t.attempts[i])
            && (u.attempts[i].state == InProgress <==>
                  t.attempts[i].state == InProgress && !Matches(t.attempts[i], k)))
  {
  }

  /** Every attempt in progress belongs to a contact that is being dialled. */
  ghost predicate OpenRowsAreDialing(t: Tables) {
    forall i :: InProgressAt(t, i) ==>
      t.attempts[i].contact in t.contacts && t.contacts[t.attempts[i].contact].status == Dialing
  }

  /**
   The event handler never looks at the attempt's state.  A final event keeps every attempt in progress with a
   dialing contact exactly when its contact has no attempt in progress other than the one the event names.
   */
  lemma OpenRowsStayDialingIff(t: Tables, k: Correlation.Key, kind: EventKind)
    requires RowsAgree(t) && Correlation.ValidKey(k) && IsFinal(kind)
    requires k.contact in t.contacts && k.campaign == t.contacts[k.contact].campaign
    ensures OpenRowsAreDialing(HandleDialEvent(t, Event(Correlation.Print(k), kind)))
       <==> (forall i :: InProgressAt(t, i) && t.attempts[i].contact == k.contact ==> t.attempts[i].number == k.attempt)
  {
    Correlation.ParseOfPrint(k);
    AppliedEventKeepsOpenRowsIff(t, k, kind);
  }

  lemma AppliedEventKeepsOpenRowsIff(t: Tables, k: Correlation.Key, kind: EventKind)
    requires RowsAgree(t) && IsFinal(kind)
    requires k.contact in t.contacts && k.campaign == t.contacts[k.contact].campaign
    ensures OpenRowsAreDialing(ApplyEvent(t, k, kind))
       <==> (forall i :: InProgressAt(t, i) && t.attempts[i].contact == k.contact ==> t.attempts[i].number == k.attempt)
  {
    var u := ApplyEvent(t, k, kind);
    FinalEventMovesTheContact(t, k, kind);
    forall i | InProgressAt(t, i)
      ensures t.attempts[i].contact in t.contacts && t.contacts[t.attempts[i].contact].status == Dialing
      ensures t.attempts[i].campaign == t.contacts[t.attempts[i].contact].campaign
    { assert RowAgrees(t, i); }
    if i :| InProgressAt(t, i) && t.attempts[i].contact == k.contact && t.attempts[i].number != k.attempt {
      assert InProgressAt(u, i);
    }
    forall i | InProgressAt(u, i) ensures InProgressAt(t, i) {}
  }

  // ---- When a final event undoes something final ----

  /** The status a final event would give the contact. */
  function StatusAfter(c: Contact, k: Correlation.Key, kind: EventKind, now: int): Status {
    if kind == Connected then Answered else AfterFailure(c, k.attempt, now).status
  }

  /** The event says again what the attempt already records: it was answered, or it failed at this very moment. */
  predicate Repeats(a: Attempt, k: Correlation.Key, kind: EventKind, now: int) {
    if kind == Connected then a.state == Established
    else a.state == Unsuccessful && a.endedAt == Some(now) && a.nextRetryAt == RetryAt(k.attempt, now)
  }

  /** The contact is not final or gets the same status again, and every attempt the event names is in progress or
      already records what the event says. A failure for an unknown contact is ignored. */
  ghost predicate Timely(t: Tables, k: Correlation.Key, kind: EventKind) {
    && (k.contact in t.contacts && Final(t.contacts[k.contact].status) ==>
          StatusAfter(t.contacts[k.contact], k, kind, t.now) == t.contacts[k.contact].status)
    && (kind == Connected || k.contact in t.contacts ==>
          forall i :: 0 <= i < |t.attempts| && Matches(t.attempts[i], k) ==>
            InProgressAt(t, i) || Repeats(t.attempts[i], k, kind, t.now))
  }

  /** For all tables and every key: a final event undoes no final status and rewrites no ended attempt exactly when
      it is timely. */
  lemma FinalEventIsSafeIff(t: Tables, k: Correlation.Key, kind: EventKind)
    requires Correlation.ValidKey(k) && IsFinal(kind)
    ensures Extends(t, HandleDialEvent(t, Event(Correlation.Print(k), kind))) <==> Timely(t, k, kind)
  {
    Correlation.ParseOfPrint(k);
    AppliedEventIsSafeIff(t, k, kind);
  }

  lemma AppliedEventIsSafeIff(t: Tables, k: Correlation.Key, kind: EventKind)
    requires IsFinal(kind)
    ensures Extends(t, ApplyEvent(t, k, kind)) <==> Timely(t, k, kind)
  {
    hide RetryAt;
    var u := ApplyEvent(t, k, kind);
    if kind == Connected || k.contact in t.contacts {
      assert forall i :: 0 <= i < |t.attempts| ==>
        (RowExtends(t.attempts[i], u.attempts[i]) <==>
          (Matches(t.attempts[i], k) ==> InProgressAt(t, i) || Repeats(t.attempts[i], k, kind, t.now)));
      assert k.contact in t.contacts ==>
        (ContactExtends(t.contacts[k.contact], u.contacts[k.contact]) <==>
          (Final(t.contacts[k.contact].status) ==>
            StatusAfter(t.contacts[k.contact], k, kind, t.now) == t.contacts[k.contact].status));
    }
  }

  /** For an attempt that exists, in sound tables: its event is safe while it is in progress; afterwards only one
      that says again what attempt and contact already record is. */
  lemma EventForAttemptIsSafeIff(t: Tables, row: nat, kind: EventKind)
    requires RowsAgree(t) && WithinBudget(t) && row < |t.attempts| && IsFinal(kind)
    ensures t.attempts[row].contact in t.contacts
    ensures
      var k := KeyOf(t.attempts[row]);
      var c := t.contacts[t.attempts[row].contact];
      Extends(t, HandleDialEvent(t, Event(t.attempts[row].correlation, kind))) <==>
        InProgressAt(t, row)
        || (Repeats(t.attempts[row], k, kind, t.now)
          && (Final(c.status) ==> StatusAfter(c, k, kind, t.now) == c.status))
  {
    assert RowAgrees(t, row);
    var k := KeyOf(t.attempts[row]);
    KeyIsValid(t, row);
    FinalEventIsSafeIff(t, k, kind);
    forall j | 0 <= j < |t.attempts| ensures Matches(t.attempts[j], k) <==> row == j { OnlyRowWithKey(t, row, j); }
  }

  lemma ClaimedContact(id: Id) returns (t: Tables)
    ensures Sound(t) && t.attempts == [] && id in t.contacts
    ensures t.contacts[id].status == Dialing && t.contacts[id].attemptCount == 0 && t.contacts[id].maxAttempts == 1
    ensures t.contacts.Keys == {id}
  {
    hide Sound, Extends;
    EmptyIsSound();
    var added := Do(EMPTY, Add(id, 3, "100", 0, 1));
    SoundKept(EMPTY, Add(id, 3, "100", 0, 1));
    assert Due(added, id);
    t := Do(added, Claim(id));
    SoundKept(added, Claim(id));
  }

  /** The tables after a contact used its only attempt, unsuccessfully. */
  lemma ExhaustedContact() returns (t: Tables, id: Id)
    ensures Sound(t) && id in t.contacts && t.contacts[id].status == Exhausted
    ensures |t.attempts| == 1 && t.attempts[0].state == Unsuccessful && t.attempts[0].contact == id
  {
    id := 7;
    var claimed := ClaimedContact(id);
    var dialled := OnlyContactOpened(claimed, id);
    assert InProgressAt(dialled, 0);
    t := Do(dialled, Fail(0));
    SoundKept(dialled, Fail(0));
  }

  lemma OnlyContactOpened(t: Tables, id: Id) returns (u: Tables)
    requires Sound(t) && t.contacts.Keys == {id} && t.attempts == []
    requires t.contacts[id].status == Dialing && t.contacts[id].attemptCount == 0
    ensures Sound(u) && id in u.contacts && |u.attempts| == 1
    ensures u.attempts[0].contact == id && u.attempts[0].state == InProgress && u.attempts[0].number == 1
    ensures u.contacts[id].maxAttempts == t.contacts[id].maxAttempts
  {
    assert Legal(t, Open(id));
    u := Do(t, Open(id));
    SoundKept(t, Open(id));
  }

  /** A case that is not timely: the attempt has failed, then the callee's answer arrives. */
  lemma LateAnswerUndoesAFinalStatus()
    ensures exists t, id, k ::
      && Sound(t) && id in t.contacts && Final(t.contacts[id].status)
      && 0 < |t.attempts| && t.attempts[0].state == Unsuccessful && k == KeyOf(t.attempts[0])
      && !Timely(t, k, Connected) && !Extends(t, HandleDialEvent(t, Event(Correlation.Print(k), Connected)))
  {
    var t, id := ExhaustedContact();
    var k := KeyOf(t.attempts[0]);
    KeyIsValid(t, 0);
    FinalEventIsSafeIff(t, k, Connected);
    assert Matches(t.attempts[0], k);
  }
}
