/** The ready-to-dial query always has an answer, and only one. */
module DispatchReady {
  import opened Lifecycle
  import opened Dispatch

  /** `ids` is the first `n` of the contacts in `from`, in dialling order. */
  ghost predicate FirstOf(t: Tables, from: set<Id>, n: nat, ids: seq<Id>)
    requires from <= t.contacts.Keys
  {
    && |ids| <= n
    && (forall i :: 0 <= i < |ids| ==> ids[i] in from)
    && (forall i, j :: 0 <= i < j < |ids| ==> DialsBefore(t, ids[i], ids[j]))
    && (forall id :: id in from && id !in ids ==>
          |ids| == n && forall i :: 0 <= i < |ids| ==> DialsBefore(t, ids[i], id))
  }

  lemma {:induction false} FirstExists(t: Tables, from: set<Id>) returns (first: Id)
    requires from != {} && from <= t.contacts.Keys
    ensures first in from && forall id :: id in from && id != first ==> DialsBefore(t, first, id)
    decreases |from|
  {
    assert exists id: Id :: id in from by { NonEmpty(from); }
    first :| first in from;
    var rest := from - {first};
    assert from == rest + {first};
    if rest != {} {
      var other := FirstExists(t, rest);
      assert DialsBefore(t, other, first) || DialsBefore(t, first, other);
      if DialsBefore(t, other, first) {
        first := other;
      }
    }
  }

  lemma NonEmpty(from: set<Id>)
    requires from != {}
    ensures exists id: Id :: id in from
  {
    assert from == {} <==> forall id: Id :: id !in from;
  }

  lemma {:induction false} FirstOfExists(t: Tables, from: set<Id>, n: nat) returns (ids: seq<Id>)
    requires from <= t.contacts.Keys
    ensures FirstOf(t, from, n, ids)
    decreases n
  {
    if n == 0 || from == {} {
      ids := [];
    } else {
      var first := FirstExists(t, from);
      var rest := FirstOfExists(t, from - {first}, n - 1);
      ids := [first] + rest;
      forall id | id in from && id !in ids
        ensures |ids| == n && forall i :: 0 <= i < |ids| ==> DialsBefore(t, ids[i], id)
      {
        assert id in from - {first} && id !in rest;
      }
    }
  }

  ghost function DueIn(t: Tables, campaign: Id): set<Id> {
    set id | id in t.contacts && ReadyToDial(t, campaign, id)
  }

  lemma ReadyListIsFirstOf(t: Tables, campaign: Id, limit: int, ids: seq<Id>)
    ensures ReadyList(t, campaign, limit, ids) <==> FirstOf(t, DueIn(t, campaign), Limit(limit), ids)
  {
    assert forall id :: id in DueIn(t, campaign) <==> ReadyToDial(t, campaign, id);
  }

  lemma ReadyListExists(t: Tables, campaign: Id, limit: int) returns (ids: seq<Id>)
    ensures ReadyList(t, campaign, limit, ids)
  {
    ids := FirstOfExists(t, DueIn(t, campaign), Limit(limit));
    ReadyListIsFirstOf(t, campaign, limit, ids);
  }

  lemma {:induction false} FirstOfIsUnique(t: Tables, from: set<Id>, n: nat, a: seq<Id>, b: seq<Id>)
    requires from <= t.contacts.Keys && FirstOf(t, from, n, a) && FirstOf(t, from, n, b)
    ensures a == b
    decreases n
  {
    EmptyIff(t, from, n, a);
    EmptyIff(t, from, n, b);
    if a != [] {
      assert a[0] == b[0] by { SameHead(t, from, n, a, b); }
      RestIsFirstOf(t, from, n, a);
      RestIsFirstOf(t, from, n, b);
      FirstOfIsUnique(t, from - {a[0]}, n - 1, a[1..], b[1..]);
      assert a == [a[0]] + a[1..] && b == [b[0]] + b[1..];
    }
  }

  lemma EmptyIff(t: Tables, from: set<Id>, n: nat, ids: seq<Id>)
    requires from <= t.contacts.Keys && FirstOf(t, from, n, ids)
    ensures ids == [] <==> n == 0 || from == {}
  {
    if ids == [] && n != 0 {
      assert forall id: Id :: id in from ==> id !in ids;
      assert from == {} <==> forall id: Id :: id !in from;
    } else if ids != [] {
      assert ids[0] in from;
    }
  }

  lemma SameHead(t: Tables, from: set<Id>, n: nat, a: seq<Id>, b: seq<Id>)
    requires from <= t.contacts.Keys && FirstOf(t, from, n, a) && FirstOf(t, from, n, b) && a != [] && b != []
    ensures a[0] == b[0]
  {
    if a[0] != b[0] {
      HeadIsFirst(t, from, n, a, b[0]);
      HeadIsFirst(t, from, n, b, a[0]);
    }
  }

  lemma HeadIsFirst(t: Tables, from: set<Id>, n: nat, ids: seq<Id>, id: Id)
    requires from <= t.contacts.Keys && FirstOf(t, from, n, ids) && ids != [] && id in from && id != ids[0]
    ensures DialsBefore(t, ids[0], id)
  {
    if id in ids {
      var i :| 0 <= i < |ids| && ids[i] == id;
    }
  }

  lemma RestIsFirstOf(t: Tables, from: set<Id>, n: nat, ids: seq<Id>)
    requires from <= t.contacts.Keys && FirstOf(t, from, n, ids) && ids != []
    ensures FirstOf(t, from - {ids[0]}, n - 1, ids[1..])
  {
    assert forall i :: 0 <= i < |ids[1..]| ==> ids[1..][i] == ids[i + 1];
    forall id | id in from - {ids[0]} && id !in ids[1..]
      ensures |ids[1..]| == n - 1 && forall i :: 0 <= i < |ids[1..]| ==> DialsBefore(t, ids[1..][i], id)
    {
      assert id !in ids;
    }
  }

  /** In every state and for every campaign the query has exactly one answer. */
  lemma ReadyListIsUnique(t: Tables, campaign: Id, limit: int, a: seq<Id>, b: seq<Id>)
    requires ReadyList(t, campaign, limit, a) && ReadyList(t, campaign, limit, b)
    ensures a == b
  {
    ReadyListIsFirstOf(t, campaign, limit, a);
    ReadyListIsFirstOf(t, campaign, limit, b);
    FirstOfIsUnique(t, DueIn(t, campaign), Limit(limit), a, b);
  }

  /** In every answer to the query: a contact of the campaign that is ready or waits for a retry, and whose time has
      come, is listed, unless the answer is as long as `TaskConcurrency` allows and every contact in it has a higher
      priority, or the same and a smaller id. */
  lemma WaitingContactIsListed(t: Tables, campaign: Id, limit: int, ids: seq<Id>, id: Id)
    requires ReadyList(t, campaign, limit, ids) && id in t.contacts
    requires
      var c := t.contacts[id];
      && c.campaign == campaign && (c.status == Ready || c.status == Retrying)
      && (c.nextRunAt.Some? ==> c.nextRunAt.value <= t.now)
    ensures id !in ids ==> if limit > 0 then |ids| == limit else |ids| == 1
    ensures id !in ids ==> forall i :: 0 <= i < |ids| ==>
      && ids[i] in t.contacts
      && (t.contacts[ids[i]].priority > t.contacts[id].priority
          || (t.contacts[ids[i]].priority == t.contacts[id].priority && ids[i] < id))
  {
  }

  /** Nothing else is listed, nothing twice, and never more than `TaskConcurrency` at once. */
  lemma ListedContactWaits(t: Tables, campaign: Id, limit: int, ids: seq<Id>)
    requires ReadyList(t, campaign, limit, ids)
    ensures |ids| <= 1 || |ids| <= limit
    ensures forall i :: 0 <= i < |ids| ==>
      && ids[i] in t.contacts
      && var c := t.contacts[ids[i]];
      && c.campaign == campaign && (c.status == Ready || c.status == Retrying)
      && (c.nextRunAt.Some? ==> c.nextRunAt.value <= t.now)
    ensures forall i, j :: 0 <= i < j < |ids| ==>
      && ids[i] in t.contacts && ids[j] in t.contacts
      && (t.contacts[ids[i]].priority > t.contacts[ids[j]].priority
          || (t.contacts[ids[i]].priority == t.contacts[ids[j]].priority && ids[i] < ids[j]))
  {
  }
}
