/** The scheduler's wait queue: higher priority first, and first come first served among equals. */
module DispatchQueue {
  import opened Text

  /** A waiting task; `arrival` numbers the submissions and is not looked at by the code. */
  datatype Item = Item(id: nat, priority: int, arrival: nat)

  predicate RunsBefore(a: Item, b: Item) {
    a.priority > b.priority || (a.priority == b.priority && a.arrival < b.arrival)
  }

  ghost predicate InOrder(items: seq<Item>) {
    forall i, j :: 0 <= i < j < |items| ==> RunsBefore(items[i], items[j])
  }

  /** Tasks are submitted one after the other. */
  ghost predicate ArrivesLast(items: seq<Item>, item: Item) {
    forall i :: 0 <= i < |items| ==> items[i].arrival < item.arrival
  }

  function IndexOf(items: seq<Item>, id: nat): (k: nat)
    ensures k <= |items|
    ensures k < |items| ==> items[k].id == id
    ensures forall i :: 0 <= i < k ==> items[i].id != id
  {
    if items == [] || items[0].id == id then 0
    else
      var k := 1 + IndexOf(items[1..], id);
      assert forall i :: 0 < i < k ==> items[i] == items[1..][i - 1];
      k
  }

  function Without(items: seq<Item>, k: nat): seq<Item>
    requires k < |items|
  {
    items[..k] + items[k + 1..]
  }

  lemma OneFewer(items: seq<Item>, k: nat)
    requires k < |items|
    ensures multiset(Without(items, k)) == multiset(items) - multiset{items[k]}
  {
    assert items == items[..k] + [items[k]] + items[k + 1..];
  }

  /** Only one arrangement of the waiting tasks is in order, so the order does not depend on how the queue got there. */
  lemma {:induction false} OrderIsUnique(a: seq<Item>, b: seq<Item>)
    requires InOrder(a) && InOrder(b) && multiset(a) == multiset(b)
    ensures a == b
  {
    if a == [] {
      assert |multiset(b)| == |b|;
    } else {
      assert a[0] in multiset(b) && b != [];
      assert b[0] in multiset(a);
      assert a[0] == b[0];
      assert a == [a[0]] + a[1..] && b == [b[0]] + b[1..];
      assert multiset(a[1..]) == multiset(a) - multiset{a[0]};
      OrderIsUnique(a[1..], b[1..]);
    }
  }

  class PriorityQueue {
    var items: seq<Item>

    constructor ()
      ensures items == [] && InOrder(items)
    {
      items := [];
    }

    /** `sort.Search`: the first index whose item has a lower priority. */
    method Search(priority: int) returns (pos: nat)
      requires InOrder(items)
      ensures pos <= |items|
      ensures forall k :: 0 <= k < pos ==> items[k].priority >= priority
      ensures forall k :: pos <= k < |items| ==> items[k].priority < priority
    {
      var lo, hi := 0, |items|;
      while lo < hi
        invariant 0 <= lo <= hi <= |items|
        invariant forall k :: 0 <= k < lo ==> items[k].priority >= priority
        invariant forall k :: hi <= k < |items| ==> items[k].priority < priority
      {
        var mid := (lo + hi) / 2;
        if items[mid].priority < priority {
          forall k | mid < k < |items| ensures items[k].priority < priority { assert RunsBefore(items[mid], items[k]); }
          hi := mid;
        } else {
          forall k | 0 <= k < mid ensures items[k].priority >= priority { assert RunsBefore(items[k], items[mid]); }
          lo := mid + 1;
        }
      }
      pos := lo;
    }

    /** Adds a task; the result is the one arrangement of old and new tasks that is in order. */
    method Push(item: Item)
      requires InOrder(items) && ArrivesLast(items, item)
      modifies this
      ensures InOrder(items)
      ensures multiset(items) == multiset(old(items)) + multiset{item}
    {
      var pos := Search(item.priority);
      assert items == items[..pos] + items[pos..];
      items := items[..pos] + [item] + items[pos..];
    }

    /** Takes the task that every other waiting task runs after. */
    method Pop() returns (item: Option<Item>)
      requires InOrder(items)
      modifies this
      ensures InOrder(items)
      ensures item.None? <==> old(items) == []
      ensures item.None? ==> items == []
      ensures item.Some? ==>
        && multiset(items) == multiset(old(items)) - multiset{item.value} && item.value in old(items)
        && forall other :: other in items ==>
             item.value.priority > other.priority
             || (item.value.priority == other.priority && item.value.arrival < other.arrival)
    {
      if |items| == 0 {
        return None;
      }
      item := Some(items[0]);
      assert items == [items[0]] + items[1..];
      items := items[1..];
    }

    /** Drops the first task with the id; the others keep their order. */
    method Remove(id: nat) returns (ok: bool)
      requires InOrder(items)
      modifies this
      ensures InOrder(items)
      ensures ok <==> exists i :: 0 <= i < |old(items)| && old(items)[i].id == id
      ensures items == if ok then Without(old(items), IndexOf(old(items), id)) else old(items)
      ensures ok ==> multiset(items) == multiset(old(items)) - multiset{old(items)[IndexOf(old(items), id)]}
    {
      for i := 0 to |items|
        invariant items == old(items)
        invariant forall k :: 0 <= k < i ==> items[k].id != id
      {
        if items[i].id == id {
          assert IndexOf(items, id) == i;
          OneFewer(items, i);
          items := items[..i] + items[i + 1..];
          return true;
        }
      }
      ok := false;
    }

    method GetPosition(id: nat) returns (pos: int)
      ensures pos == if IndexOf(items, id) < |items| then IndexOf(items, id) as int else -1
    {
      for i := 0 to |items|
        invariant forall k :: 0 <= k < i ==> items[k].id != id
      {
        if items[i].id == id {
          return i;
        }
      }
      pos := -1;
    }
  }
}
