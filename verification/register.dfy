/**
 The shipment form: how it is filled from a container when it opens, the
 list edits it offers on the shipped quantities and the extra items, and
 what it submits. The older form variant, which fills the quantities from
 all items or from the joined "Material Embarcado" text, sits at the end.

 Today's date text (`new Date().toISOString().split('T')[0]`) is a
 parameter.
 */
module Register {

  import opened Optional
  import opened Text
  import opened Domain
  import opened Dates
  import Card
  import Records
  import opened Details

  datatype Mode = Shipment | Receive

  // ----- Opening the form -----

  /** Slot `i` of the shipped quantities: the `i`-th planned item's, or "". */
  function ActualsOf(planned: seq<Item>): (slots: seq<string>)
    ensures |slots| == 3
  {
    seq(3, i requires 0 <= i < 3 => if i < |planned| then planned[i].actual else "")
  }

  /** The form as it opens on a container. */
  function InitForm(c: Container, mode: Mode, today: string): (f: ShipmentForm)
    ensures |f.itemsActual| == 3
    ensures forall x :: x in f.extraItems <==> x in c.items && x.isExtra
  {
    ItemsWithFlagMembers(c.items, true);
    ShipmentForm(
      c.nf,
      if c.datePickup != "" then BeforeT(c.datePickup) else today,
      if mode == Receive then today
      else if c.dateArrivalForecast != "" then BeforeT(c.dateArrivalForecast) else "",
      ActualsOf(ItemsWithFlag(c.items, false)),
      ItemsWithFlag(c.items, true))
  }

  /** The quantity slots follow the planned items, the extras keep their
      order, and the dates keep only their day part. */
  lemma InitFormFields(c: Container, mode: Mode, today: string, i: nat)
    requires i < 3
    ensures var f := InitForm(c, mode, today);
      var planned := ItemsWithFlag(c.items, false);
      && f.itemsActual[i] == (if i < |planned| then planned[i].actual else "")
      && f.extraItems == ItemsWithFlag(c.items, true)
      && (c.datePickup != "" ==> DayPart(c.datePickup, f.datePickup))
      && (c.datePickup == "" ==> f.datePickup == today)
      && (mode == Receive ==> f.dateArrival == today)
      && (mode == Shipment && c.dateArrivalForecast != "" ==> DayPart(c.dateArrivalForecast, f.dateArrival))
      && (mode == Shipment && c.dateArrivalForecast == "" ==> f.dateArrival == "")
  {
  }

  /** A stored date-time `day + time` opens as `day`: the pickup always,
      the arrival forecast in shipment mode. */
  lemma OpenedDays(c: Container, mode: Mode, today: string, day: string, time: string)
    requires day != "" && 'T' !in day && (time == "" || time[0] == 'T')
    ensures c.datePickup == day + time ==> InitForm(c, mode, today).datePickup == day
    ensures mode == Shipment && c.dateArrivalForecast == day + time ==> InitForm(c, mode, today).dateArrival == day
  {
    if c.datePickup == day + time || c.dateArrivalForecast == day + time {
      BeforeTOfDateTime(day, time);
    }
  }

  // ----- Editing -----

  /** `newActuals[index] = value`: past the end the array grows, and the
      holes read as "" wherever they are used. */
  function SetActual(xs: seq<string>, index: nat, v: string): (r: seq<string>)
    ensures |r| == if index < |xs| then |xs| else index + 1
    ensures r[index] == v
    ensures forall j :: 0 <= j < |xs| && j != index ==> r[j] == xs[j]
    ensures forall j :: |xs| <= j < index ==> r[j] == ""
  {
    if index < |xs| then xs[index := v]
    else xs + seq(index - |xs|, _ => "") + [v]
  }

  /** Editing a slot and then reading it gives the value; the other slots
      read as before. */
  lemma SetActualThenRead(xs: seq<string>, index: nat, v: string, j: nat)
    ensures Records.ActualAt(SetActual(xs, index, v), j) == if j == index then v else Records.ActualAt(xs, j)
  {
  }

  /** `handleItemActualChange` */
  function ChangeActual(f: ShipmentForm, index: nat, v: string): (r: ShipmentForm)
    ensures r.itemsActual == SetActual(f.itemsActual, index, v)
    ensures r.(itemsActual := f.itemsActual) == f
  {
    f.(itemsActual := SetActual(f.itemsActual, index, v))
  }

  const BlankExtra := Item("", "", "", "", true)

  /** `addExtraItem` */
  function AddExtra(f: ShipmentForm): (r: ShipmentForm)
    ensures |r.extraItems| == |f.extraItems| + 1
    ensures r.extraItems[..|f.extraItems|] == f.extraItems
    ensures r.extraItems[|f.extraItems|] == BlankExtra
    ensures r.(extraItems := f.extraItems) == f
  {
    f.(extraItems := f.extraItems + [BlankExtra])
  }

  /** `extra_items.filter((_, i) => i !== index)` */
  function RemoveAt<T>(xs: seq<T>, index: nat): (r: seq<T>)
    ensures index < |xs| ==> |r| == |xs| - 1
    ensures index >= |xs| ==> r == xs
    ensures forall j :: 0 <= j < |r| ==> r[j] == if j < index then xs[j] else xs[j + 1]
  {
    if index < |xs| then xs[..index] + xs[index + 1..] else xs
  }

  /** Removing the element just added restores the list. */
  lemma RemoveAddedExtra(f: ShipmentForm)
    ensures RemoveAt(AddExtra(f).extraItems, |f.extraItems|) == f.extraItems
  {
  }

  /** Removal keeps every other element, in order. */
  lemma RemoveAtMultiset<T>(xs: seq<T>, index: nat)
    requires index < |xs|
    ensures multiset(RemoveAt(xs, index)) + multiset{xs[index]} == multiset(xs)
  {
    assert xs == xs[..index] + [xs[index]] + xs[index + 1..];
  }

  /** `removeExtraItem` */
  function RemoveExtra(f: ShipmentForm, index: nat): (r: ShipmentForm)
    ensures r.(extraItems := f.extraItems) == f
    ensures r.extraItems == RemoveAt(f.extraItems, index)
  {
    f.(extraItems := RemoveAt(f.extraItems, index))
  }

  /** The fields of an item the extra rows edit. */
  datatype ItemField = DescField | QtdField | ActualField | M3Field

  function Read(x: Item, fld: ItemField): string {
    match fld
    case DescField => x.desc
    case QtdField => x.qtd
    case ActualField => x.actual
    case M3Field => x.m3
  }

  /** `{ ...x, [field]: value }`, with a new ordered quantity copied into
      the shipped one. */
  function EditExtra(x: Item, fld: ItemField, v: string): (r: Item)
    ensures Read(r, fld) == v
    ensures fld == QtdField ==> r.actual == v
    ensures forall g :: g != fld && !(fld == QtdField && g == ActualField) ==> Read(r, g) == Read(x, g)
    ensures r.isExtra == x.isExtra
  {
    match fld
    case DescField => x.(desc := v)
    case QtdField => x.(qtd := v, actual := v)
    case ActualField => x.(actual := v)
    case M3Field => x.(m3 := v)
  }

  /** `handleExtraItemChange` */
  function ChangeExtra(f: ShipmentForm, index: nat, fld: ItemField, v: string): (r: ShipmentForm)
    requires index < |f.extraItems|
    ensures |r.extraItems| == |f.extraItems|
    ensures r.extraItems[index] == EditExtra(f.extraItems[index], fld, v)
    ensures forall j :: 0 <= j < |f.extraItems| && j != index ==> r.extraItems[j] == f.extraItems[j]
    ensures r.(extraItems := f.extraItems) == f
  {
    f.(extraItems := f.extraItems[index := EditExtra(f.extraItems[index], fld, v)])
  }

  /** Every extra in the list is marked extra and shows its quantity. */
  predicate ExtrasWellFormed(xs: seq<Item>) {
    forall k :: 0 <= k < |xs| ==> xs[k].isExtra && Records.QuantityShown(xs[k])
  }

  /** Adding, removing and editing extras (other than blanking a shipped
      quantity by hand) keep the extras well formed, so a save reads them
      back unchanged. */
  lemma EditsKeepExtras(f: ShipmentForm, index: nat, fld: ItemField, v: string)
    requires ExtrasWellFormed(f.extraItems)
    ensures ExtrasWellFormed(AddExtra(f).extraItems)
    ensures ExtrasWellFormed(RemoveExtra(f, index).extraItems)
    ensures index < |f.extraItems| && (fld != ActualField || v != "") ==>
      ExtrasWellFormed(ChangeExtra(f, index, fld, v).extraItems)
  {
  }

  /** Extras decoded from a row open in the form well formed. */
  lemma OpenedExtrasWellFormed(r: Records.RawRecord, parse: string -> Option<seq<Records.Slot>>, mode: Mode, today: string)
    ensures ExtrasWellFormed(InitForm(Records.DecodeRecord(r, parse), mode, today).extraItems)
  {
    Records.DecodedItemsPartition(r, parse);
    Records.DecodedExtrasShowQuantity(r.extras, parse);
  }

  // ----- Submitting -----

  /** `isReceiveMode` */
  function IsReceive(mode: Mode): bool {
    mode == Receive
  }

  /** The save the form triggers moves the container to the yard in receive
      mode and to transit otherwise. */
  lemma SubmitStatus(c: Container, f: ShipmentForm, mode: Mode, stringify: seq<Item> -> string)
    ensures Records.StatusOf(Records.SavePayload(c.id, f, IsReceive(mode), stringify).status)
         == if mode == Receive then Yard else Transit
  {
  }

  // ----- The older form -----

  const Bar := " | "

  /** Piece `i` of a split, or "" past the end: `split[i] || ''`. */
  function PieceOr(pieces: seq<string>, i: nat): string {
    if i < |pieces| then pieces[i] else ""
  }

  /** The shipped quantities of the older form: from the first three items,
      extras or not; with no items, from the pieces of the joined text. */
  function LegacyActuals(c: Container): (slots: seq<string>)
    ensures |slots| == 3
    ensures |c.items| > 0 ==> slots == ActualsOf(c.items)
    ensures |c.items| == 0 ==>
      forall i :: 0 <= i < 3 ==> slots[i] == PieceOr(SplitOn(c.measuresActual, Bar), i)
  {
    if |c.items| > 0 then
      seq(3, i requires 0 <= i < 3 => if i < |c.items| then c.items[i].actual else "")
    else if c.measuresActual != "" then
      var pieces := SplitOn(c.measuresActual, Bar);
      seq(3, i requires 0 <= i < 3 => if i < |pieces| then pieces[i] else "")
    else
      assert SplitOn(c.measuresActual, Bar) == [""];
      ["", "", ""]
  }

  /** The older form as it opens. */
  function LegacyInit(c: Container, today: string): (f: ShipmentForm)
    ensures |f.itemsActual| == 3 && f.extraItems == []
    ensures c.datePickup != "" ==> DayPart(c.datePickup, f.datePickup)
    ensures c.datePickup == "" ==> f.datePickup == today
    ensures c.dateArrivalForecast != "" ==> DayPart(c.dateArrivalForecast, f.dateArrival)
    ensures c.dateArrivalForecast == "" ==> f.dateArrival == ""
  {
    ShipmentForm(
      c.nf,
      if c.datePickup != "" then BeforeT(c.datePickup) else today,
      if c.dateArrivalForecast != "" then BeforeT(c.dateArrivalForecast) else "",
      LegacyActuals(c),
      [])
  }

  /** A text without `|` holds no separator. */
  lemma NoBarInside(a: string, j: int)
    requires '|' !in a
    ensures !OccursAt(a, Bar, j)
  {
    if 0 <= j && j + 3 <= |a| {
      assert a[j..j + 3][1] == a[j + 1] != '|';
    }
  }

  /** The first separator after a `|`-free piece ends that piece. */
  lemma SplitBarCons(a: string, b: string)
    requires '|' !in a
    ensures SplitOn(a + Bar + b, Bar) == [a] + SplitOn(b, Bar)
  {
    var s := a + Bar + b;
    assert s[|a|..|a| + 3] == Bar;
    assert OccursAt(s, Bar, |a|);
    assert s[|a|] == ' ';
    forall j | 0 <= j < |a| ensures !OccursAt(s, Bar, j) {
      assert s[j..j + 3][1] == s[j + 1];
      if j + 1 < |a| {
        assert s[j + 1] == a[j + 1] != '|';
      } else {
        assert s[j + 1] == ' ';
      }
    }
    assert Find(s, Bar) == Some(|a|);
    assert s[..|a|] == a;
    assert s[|a| + 3..] == b;
  }

  lemma SplitBarSingle(c: string)
    requires '|' !in c
    ensures SplitOn(c, Bar) == [c]
  {
    forall j ensures !OccursAt(c, Bar, j) {
      NoBarInside(c, j);
    }
  }

  /** With no items, three `|`-free quantities joined by " | " come back
      slot by slot. */
  lemma LegacyJoinedRoundTrip(c: Container, a: string, b: string, d: string)
    requires |c.items| == 0
    requires '|' !in a && '|' !in b && '|' !in d
    requires c.measuresActual == a + Bar + b + Bar + d
    ensures LegacyActuals(c) == [a, b, d]
  {
    assert a + Bar + b + Bar + d == a + Bar + (b + Bar + d);
    SplitBarCons(a, b + Bar + d);
    SplitBarCons(b, d);
    SplitBarSingle(d);
  }

  /** With no items, two `|`-free quantities joined by " | " fill the first
      two slots and the third reads as "". */
  lemma LegacyJoinedTwo(c: Container, a: string, b: string)
    requires |c.items| == 0
    requires '|' !in a && '|' !in b
    requires c.measuresActual == a + Bar + b
    ensures LegacyActuals(c) == [a, b, ""]
  {
    SplitBarCons(a, b);
    SplitBarSingle(b);
  }

  /** With items, the slots are the first three items' shipped quantities,
      extras included, unlike the current form. */
  lemma LegacyCountsExtras(x: Item)
    requires x.isExtra && x.actual != ""
    ensures LegacyActuals(Container("", "", Transit, "", "", "", "", "", "", "", "", [x]))[0] == x.actual
    ensures ActualsOf(ItemsWithFlag([x], false))[0] == ""
  {
  }

  /** `isEditMode`: the older form edits exactly the containers whose card
      offers the edit button. */
  function IsEditMode(c: Container): (edit: bool)
    ensures edit <==> Card.Edit in Card.AdminActions(c.status, true)
  {
    c.status == Transit
  }

  /** The "Divergente" warning for row `idx`: a shipped entry that is filled
      and differs from the item's description. */
  function Divergent(actuals: seq<string>, idx: nat, item: Item): (shown: bool)
    ensures shown ==> idx < |actuals|
  {
    idx < |actuals| && actuals[idx] != "" && actuals[idx] != item.desc
  }

  /** On opening, row `idx` warns exactly when it is among the first three
      and its stored shipped quantity is filled and differs from its
      description. */
  lemma DivergentOnOpen(c: Container, today: string, idx: nat)
    requires idx < |c.items|
    ensures Divergent(LegacyInit(c, today).itemsActual, idx, c.items[idx])
        <==> idx < 3 && c.items[idx].actual != "" && c.items[idx].actual != c.items[idx].desc
  {
  }
}
