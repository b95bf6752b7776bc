/** Bulk import: the rows built for a batch are the ones the protocol's import step adds. */
module ContactImport {
  import opened Text
  import opened Lifecycle
  import opened Dispatch

  datatype Item = Item(phone: string, priority: int)

  /** The items that carry a phone number. */
  function Dialable(items: seq<Item>): seq<Item> {
    if items == [] then []
    else
      var last := items[|items| - 1];
      Dialable(items[..|items| - 1]) + (if TrimSpace(last.phone) == "" then [] else [last])
  }

  function RowOf(campaign: Id, maxAttempts: int, item: Item, now: int): Contact {
    Contact(campaign, TrimSpace(item.phone), item.priority, Ready, 0, AttemptLimit(maxAttempts), Some(now), None)
  }

  lemma {:induction false} DialableIs(items: seq<Item>, item: Item)
    ensures item in Dialable(items) <==> item in items && !Blank(item.phone)
  {
    if items != [] {
      DialableIs(items[..|items| - 1], item);
      assert items == items[..|items| - 1] + [items[|items| - 1]];
    }
  }

  /** The batch has one row for each item with a phone, however the items are cut into batches. */
  lemma {:induction false} DialableAddsUp(a: seq<Item>, b: seq<Item>)
    ensures Dialable(a + b) == Dialable(a) + Dialable(b)
  {
    if b == [] {
      assert a + b == a;
    } else {
      assert (a + b)[..|a + b| - 1] == a + b[..|b| - 1];
      DialableAddsUp(a, b[..|b| - 1]);
    }
  }

  lemma DialableNext(items: seq<Item>, i: nat)
    requires i < |items|
    ensures Dialable(items[..i + 1]) ==
      Dialable(items[..i]) + (if TrimSpace(items[i].phone) == "" then [] else [items[i]])
  {
    assert items[..i + 1][..i] == items[..i];
  }

  /** One row for each item with a phone number, in order, each ready to dial at once and allowed at least one
      attempt. */
  method BuildSIPCampaignContactsBatch(campaign: Id, maxAttempts: int, items: seq<Item>, now: int)
    returns (rows: seq<Contact>)
    ensures |rows| == |Dialable(items)|
    ensures forall k :: 0 <= k < |rows| ==>
      && rows[k] == RowOf(campaign, maxAttempts, Dialable(items)[k], now)
      && rows[k].phone != ""
    ensures forall k :: 0 <= k < |rows| ==>
      rows[k] == Contact(campaign, TrimSpace(Dialable(items)[k].phone), Dialable(items)[k].priority, Ready, 0,
        if maxAttempts > 0 then maxAttempts else 3, Some(now), None)
  {
    rows := [];
    for i := 0 to |items|
      invariant |rows| == |Dialable(items[..i])|
      invariant forall k :: 0 <= k < |rows| ==>
        rows[k] == RowOf(campaign, maxAttempts, Dialable(items[..i])[k], now) && rows[k].phone != ""
    {
      DialableNext(items, i);
      var phone := TrimSpace(items[i].phone);
      if phone == "" {
        continue;
      }
      var most := maxAttempts;
      if most <= 0 {
        most := 3;
      }
      rows := rows + [Contact(campaign, phone, items[i].priority, Ready, 0, most, Some(now), None)];
    }
    assert items[..|items|] == items;
  }

  /** Inserting such a row under a new id is the protocol's import step, so it is due at once and keeps the
      invariant. */
  lemma ImportAddsTheRow(s: State, id: Id, campaign: Id, maxAttempts: int, item: Item)
    requires id !in s.tables.contacts
    ensures var step := Import(id, campaign, TrimSpace(item.phone), item.priority, maxAttempts);
      && Enabled(s, step)
      && Apply(s, step).tables.contacts == s.tables.contacts[id := RowOf(campaign, maxAttempts, item, s.tables.now)]
      && Due(Apply(s, step).tables, id)
  {
  }
}
