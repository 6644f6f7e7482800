/**
 The records the application works on, as the components use them.
 Missing text fields are the empty string.
 */
module Domain {

  /** A container's lifecycle stage; `Yard` is "delivered". */
  datatype Status = Planning | Transit | Yard

  /** One material line. `actual` is the shipped quantity (the record field `real`), `m3` an optional
      volume override, and `isExtra` marks material outside the plan. */
  datatype Item = Item(desc: string, qtd: string, actual: string, m3: string, isExtra: bool)

  /** One shipment, after decoding from the spreadsheet record. */
  datatype Container = Container(
    id: string,
    supplier: string,
    status: Status,
    priority: string,
    measuresRequested: string,
    measuresActual: string,
    nf: string,
    datePickup: string,
    dateArrivalForecast: string,
    dateStart: string,
    dateEnd: string,
    items: seq<Item>)

  /** What the shipment form edits: the invoice, the pickup and arrival
      dates, the shipped quantity of each planned slot, and the extras. */
  datatype ShipmentForm = ShipmentForm(
    nf: string,
    datePickup: string,
    dateArrival: string,
    itemsActual: seq<string>,
    extraItems: seq<Item>)

  /** The items with the given `isExtra` flag, in their original order. */
  function ItemsWithFlag(items: seq<Item>, extra: bool): (r: seq<Item>)
    ensures |r| <= |items|
    ensures forall k :: 0 <= k < |r| ==> r[k].isExtra == extra
  {
    if |items| == 0 then []
    else if items[0].isExtra == extra then [items[0]] + ItemsWithFlag(items[1..], extra)
    else ItemsWithFlag(items[1..], extra)
  }

  /** The filter keeps exactly the items carrying the flag. */
  lemma {:induction false} ItemsWithFlagMembers(items: seq<Item>, extra: bool)
    ensures forall x :: x in ItemsWithFlag(items, extra) <==> x in items && x.isExtra == extra
  {
    if |items| > 0 {
      ItemsWithFlagMembers(items[1..], extra);
      assert items == [items[0]] + items[1..];
    }
  }

  /** Filtering distributes over concatenation, so each part keeps the
      relative order of the original sequence. */
  lemma {:induction false} ItemsWithFlagAppend(a: seq<Item>, b: seq<Item>, extra: bool)
    ensures ItemsWithFlag(a + b, extra) == ItemsWithFlag(a, extra) + ItemsWithFlag(b, extra)
    decreases |a|
  {
    if |a| > 0 {
      var rest := ItemsWithFlag(a[1..] + b, extra);
      assert (a + b)[0] == a[0];
      assert (a + b)[1..] == a[1..] + b;
      ItemsWithFlagAppend(a[1..], b, extra);
      if a[0].isExtra == extra {
        assert ItemsWithFlag(a + b, extra) == [a[0]] + rest;
        assert ItemsWithFlag(a, extra) == [a[0]] + ItemsWithFlag(a[1..], extra);
      } else {
        assert ItemsWithFlag(a + b, extra) == rest;
        assert ItemsWithFlag(a, extra) == ItemsWithFlag(a[1..], extra);
      }
    } else {
      assert a + b == b;
    }
  }

  /** The planned and the extra items split the items between them. */
  lemma {:induction false} ItemsWithFlagPartition(items: seq<Item>)
    ensures |ItemsWithFlag(items, false)| + |ItemsWithFlag(items, true)| == |items|
    ensures multiset(ItemsWithFlag(items, false)) + multiset(ItemsWithFlag(items, true)) == multiset(items)
  {
    if |items| > 0 {
      ItemsWithFlagPartition(items[1..]);
      assert items == [items[0]] + items[1..];
    }
  }

  /** A sequence whose items all carry the flag passes the filter whole and
      the opposite filter empty. */
  lemma {:induction false} ItemsWithFlagAll(items: seq<Item>, extra: bool)
    requires forall k :: 0 <= k < |items| ==> items[k].isExtra == extra
    ensures ItemsWithFlag(items, extra) == items
    ensures ItemsWithFlag(items, !extra) == []
  {
    if |items| > 0 {
      ItemsWithFlagAll(items[1..], extra);
      assert items == [items[0]] + items[1..];
    }
  }
}
