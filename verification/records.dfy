/**
 The application shell's record handling: normalising ids, decoding the
 spreadsheet rows into containers, building the update, create and delete
 payloads, and splitting the containers into the three board columns.

 `JSON.parse` and `JSON.stringify` are parameters; the spreadsheet store is
 modelled as writing each payload field into the column of the same name.
 */
module Records {

  import opened Optional
  import opened Text
  import opened Domain
  import CreateForm

  // ----- Ids -----

  predicate NoLower(s: string) {
    forall i :: 0 <= i < |s| ==> !IsLowerAscii(s[i])
  }

  /** `normalizeId`: an empty id stays empty; otherwise white space goes and
      letters are upper-cased. */
  function NormalizeId(id: string): (r: string)
    ensures NoSpace(r) && NoLower(r)
    ensures |r| <= |id|
  {
    if id == "" then "" else ToUpper(RemoveSpaces(Trim(id)))
  }

  /** Upper-casing text that holds no lower-case letter changes nothing. */
  lemma ToUpperOfUpper(s: string)
    requires NoLower(s)
    ensures ToUpper(s) == s
  {
    assert forall i :: 0 <= i < |s| ==> ToUpper(s)[i] == s[i];
  }

  /** A normalised id is its own normal form. */
  lemma NormalizeIdIdempotent(id: string)
    ensures NormalizeId(NormalizeId(id)) == NormalizeId(id)
  {
    var r := NormalizeId(id);
    if r != "" {
      ToUpperOfUpper(r);
    }
  }

  lemma {:induction false} RemoveSpacesAppend(a: string, b: string)
    ensures RemoveSpaces(a + b) == RemoveSpaces(a) + RemoveSpaces(b)
    decreases |a|
  {
    if |a| > 0 {
      assert (a + b)[0] == a[0];
      assert (a + b)[1..] == a[1..] + b;
      RemoveSpacesAppend(a[1..], b);
    } else {
      assert a + b == b;
    }
  }

  lemma {:induction false} RemoveSpacesBlank(a: string)
    requires IsBlank(a)
    ensures RemoveSpaces(a) == ""
    decreases |a|
  {
    if |a| > 0 {
      RemoveSpacesBlank(a[1..]);
    }
  }

  lemma RemoveSpacesOfTrimStart(s: string)
    ensures RemoveSpaces(TrimStart(s)) == RemoveSpaces(s)
  {
    var t := TrimStart(s);
    var front := s[..|s| - |t|];
    assert s == front + t;
    RemoveSpacesBlank(front);
    RemoveSpacesAppend(front, t);
  }

  lemma RemoveSpacesOfTrimEnd(t: string)
    ensures RemoveSpaces(TrimEnd(t)) == RemoveSpaces(t)
  {
    var u := TrimEnd(t);
    var back := t[|u|..];
    assert t == u + back;
    RemoveSpacesBlank(back);
    RemoveSpacesAppend(u, back);
  }

  /** Trimming only ever removes white space. */
  lemma RemoveSpacesOfTrim(s: string)
    ensures RemoveSpaces(Trim(s)) == RemoveSpaces(s)
  {
    RemoveSpacesOfTrimStart(s);
    RemoveSpacesOfTrimEnd(TrimStart(s));
  }

  /** The normal form is exactly the id's non-space characters, upper-cased:
      ids that differ only in white space or letter case normalise alike. */
  lemma NormalizeIdSpelling(id: string)
    ensures NormalizeId(id) == ToUpper(RemoveSpaces(id))
  {
    RemoveSpacesOfTrim(id);
  }

  // ----- Status texts -----

  const Planned := "Planejamento"
  const InTransit := "Em Trânsito"
  const Delivered := "Entregue"
  const Deleted := "Excluído"

  /** The status a row's "Status" text decodes to. */
  function StatusOf(raw: string): (s: Status)
    ensures s == Transit <==> raw == InTransit
    ensures s == Yard <==> raw == Delivered
  {
    if raw == InTransit then Transit
    else if raw == Delivered then Yard
    else Planning
  }

  /** The text a payload writes for a status, which is also the label the
      details view shows. */
  function StatusText(s: Status): (t: string)
    ensures t != Deleted
  {
    match s
    case Planning => Planned
    case Transit => InTransit
    case Yard => Delivered
  }

  /** Writing a status and reading it back gives the same status, and the
      three written texts are the only ones that read back to themselves. */
  lemma StatusRoundTrip(s: Status, raw: string)
    ensures StatusOf(StatusText(s)) == s
    ensures StatusText(StatusOf(raw)) == raw <==> raw in {Planned, InTransit, Delivered}
  {
  }

  // ----- Decoding a row -----

  /** One `Item k …` group of cells, or one object of the "Itens Extras"
      array: description, ordered quantity, shipped quantity, m³. */
  datatype Slot = Slot(desc: string, qtd: string, actual: string, m3: string)

  const EmptySlot := Slot("", "", "", "")

  /** A spreadsheet row, each cell as text ("" when missing or falsy).
      `idLower` is the lower-case "id" column, `startAccented` the accented
      "Data Início" column. */
  datatype RawRecord = RawRecord(
    id: string,
    idLower: string,
    status: string,
    supplier: string,
    priority: string,
    requested: string,
    shipped: string,
    nf: string,
    pickup: string,
    arrival: string,
    start: string,
    startAccented: string,
    end: string,
    slot1: Slot,
    slot2: Slot,
    slot3: Slot,
    extras: string)

  /** `item['Id'] || item['id']` */
  function RawId(r: RawRecord): string {
    if r.id != "" then r.id else r.idLower
  }

  /** A slot yields an item only when its description is filled. */
  function SlotItem(s: Slot): seq<Item> {
    if s.desc == "" then [] else [Item(s.desc, s.qtd, s.actual, s.m3, false)]
  }

  /** The planned items: the filled slots among the three, in slot order. */
  function PlannedItems(r: RawRecord): (items: seq<Item>)
    ensures |items| <= 3
    ensures forall k :: 0 <= k < |items| ==> !items[k].isExtra && items[k].desc != ""
  {
    SlotItem(r.slot1) + SlotItem(r.slot2) + SlotItem(r.slot3)
  }

  /** `{ ...ex, real: ex.real || ex.qtd, isExtra: true }` */
  function ExtraItem(e: Slot): Item {
    Item(e.desc, e.qtd, if e.actual != "" then e.actual else e.qtd, e.m3, true)
  }

  /** The "Itens Extras" cell decoded; `parse` is `JSON.parse` followed by
      `Array.isArray`, `None` when it throws or yields no array. */
  function DecodeExtras(text: string, parse: string -> Option<seq<Slot>>): (r: seq<Item>)
    ensures forall k :: 0 <= k < |r| ==> r[k].isExtra
    ensures !StartsWith(Trim(text), '[') && !StartsWith(Trim(text), '{') ==> r == []
  {
    var t := Trim(text);
    if t != "" && (StartsWith(t, '[') || StartsWith(t, '{')) then
      match parse(t)
      case None => []
      case Some(es) => seq(|es|, i requires 0 <= i < |es| => ExtraItem(es[i]))
    else []
  }

  /** The container a row decodes to. */
  function DecodeRecord(r: RawRecord, parse: string -> Option<seq<Slot>>): Container {
    Container(
      NormalizeId(RawId(r)),
      r.supplier,
      StatusOf(r.status),
      r.priority,
      r.requested,
      r.shipped,
      r.nf,
      r.pickup,
      r.arrival,
      if r.start != "" then r.start else r.startAccented,
      r.end,
      PlannedItems(r) + DecodeExtras(r.extras, parse))
  }

  /** The decoded items split back into the planned slots and the extras. */
  lemma DecodedItemsPartition(r: RawRecord, parse: string -> Option<seq<Slot>>)
    ensures ItemsWithFlag(DecodeRecord(r, parse).items, false) == PlannedItems(r)
    ensures ItemsWithFlag(DecodeRecord(r, parse).items, true) == DecodeExtras(r.extras, parse)
  {
    var planned := PlannedItems(r);
    var extras := DecodeExtras(r.extras, parse);
    ItemsWithFlagAppend(planned, extras, false);
    ItemsWithFlagAppend(planned, extras, true);
    ItemsWithFlagAll(planned, false);
    ItemsWithFlagAll(extras, true);
  }

  /** Every extra decoded from the cell has a shipped quantity whenever it
      has an ordered one. */
  predicate QuantityShown(x: Item) {
    x.actual == "" ==> x.qtd == ""
  }

  lemma DecodedExtrasShowQuantity(text: string, parse: string -> Option<seq<Slot>>)
    ensures forall k :: 0 <= k < |DecodeExtras(text, parse)| ==> QuantityShown(DecodeExtras(text, parse)[k])
  {
  }

  /** The rows not marked deleted, in table order. */
  function Live(rs: seq<RawRecord>): (live: seq<RawRecord>)
    ensures |live| + DeletedCount(rs) == |rs|
    ensures forall k :: 0 <= k < |live| ==> live[k].status != Deleted
  {
    if |rs| == 0 then []
    else if rs[0].status == Deleted then Live(rs[1..])
    else [rs[0]] + Live(rs[1..])
  }

  function DeletedCount(rs: seq<RawRecord>): nat {
    if |rs| == 0 then 0 else (if rs[0].status == Deleted then 1 else 0) + DeletedCount(rs[1..])
  }

  /** `xs.map(f)` */
  function MapSeq<R, C>(f: R -> C, xs: seq<R>): (ys: seq<C>)
    ensures |ys| == |xs|
    ensures forall k :: 0 <= k < |xs| ==> ys[k] == f(xs[k])
  {
    seq(|xs|, k requires 0 <= k < |xs| => f(xs[k]))
  }

  lemma MapSeqAppend<R, C>(f: R -> C, a: seq<R>, b: seq<R>)
    ensures MapSeq(f, a + b) == MapSeq(f, a) + MapSeq(f, b)
  {
  }

  /** The rows not marked deleted, decoded in order. */
  function DecodeAll(rs: seq<RawRecord>, parse: string -> Option<seq<Slot>>): (cs: seq<Container>)
    ensures |cs| + DeletedCount(rs) == |rs|
    ensures forall k :: 0 <= k < |cs| ==> cs[k] == DecodeRecord(Live(rs)[k], parse)
  {
    MapSeq(r => DecodeRecord(r, parse), Live(rs))
  }

  /** Dropping deleted rows distributes over concatenation. */
  lemma {:induction false} LiveAppend(a: seq<RawRecord>, b: seq<RawRecord>)
    ensures Live(a + b) == Live(a) + Live(b)
    decreases |a|
  {
    if |a| > 0 {
      assert (a + b)[0] == a[0];
      assert (a + b)[1..] == a[1..] + b;
      LiveAppend(a[1..], b);
    } else {
      assert a + b == b;
    }
  }

  /** Decoding a table is decoding its parts: every row not marked deleted
      yields exactly one container, in table order. */
  lemma DecodeAllAppend(a: seq<RawRecord>, b: seq<RawRecord>, parse: string -> Option<seq<Slot>>)
    ensures DecodeAll(a + b, parse) == DecodeAll(a, parse) + DecodeAll(b, parse)
  {
    LiveAppend(a, b);
    MapSeqAppend(r => DecodeRecord(r, parse), Live(a), Live(b));
  }

  /** A single row decodes to its container, or to nothing once deleted. */
  lemma DecodeOne(r: RawRecord, parse: string -> Option<seq<Slot>>)
    ensures DecodeAll([r], parse) == if r.status == Deleted then [] else [DecodeRecord(r, parse)]
  {
    assert [r][1..] == [];
  }

  // ----- Saving the shipment form -----

  /** The "update" payload. */
  datatype UpdatePayload = UpdatePayload(
    id: string, nf: string, pickup: string, arrival: string, status: string,
    extras: string, real1: string, real2: string, real3: string)

  /** `items_actual[i] || ''` */
  function ActualAt(xs: seq<string>, i: nat): string {
    if i < |xs| then xs[i] else ""
  }

  /** `handleSaveModalData`: a received container goes to the yard, any
      other save puts it in transit. */
  function SavePayload(id: string, form: ShipmentForm, isReceive: bool, stringify: seq<Item> -> string): (p: UpdatePayload)
    ensures p.id == NormalizeId(id)
    ensures StatusOf(p.status) == if isReceive then Yard else Transit
    ensures |form.extraItems| == 0 ==> p.extras == ""
    ensures p.real1 == ActualAt(form.itemsActual, 0) && p.real2 == ActualAt(form.itemsActual, 1)
    ensures p.real3 == ActualAt(form.itemsActual, 2)
  {
    UpdatePayload(
      NormalizeId(id), form.nf, form.datePickup, form.dateArrival,
      StatusText(if isReceive then Yard else Transit),
      if |form.extraItems| > 0 then stringify(form.extraItems) else "",
      ActualAt(form.itemsActual, 0), ActualAt(form.itemsActual, 1), ActualAt(form.itemsActual, 2))
  }

  /** With a serialiser that never writes the empty text, the extras cell is
      empty exactly when there are no extras. */
  lemma SaveExtrasEmptyIff(id: string, form: ShipmentForm, isReceive: bool, stringify: seq<Item> -> string)
    requires stringify(form.extraItems) != ""
    ensures SavePayload(id, form, isReceive, stringify).extras == "" <==> |form.extraItems| == 0
  {
  }

  /** The store writes the update into the row. */
  function ApplyUpdate(r: RawRecord, p: UpdatePayload): RawRecord {
    r.(nf := p.nf, pickup := p.pickup, arrival := p.arrival, status := p.status, extras := p.extras,
       slot1 := r.slot1.(actual := p.real1),
       slot2 := r.slot2.(actual := p.real2),
       slot3 := r.slot3.(actual := p.real3))
  }

  /** The slots are filled from the front, as the create form leaves them. */
  predicate Packed(r: RawRecord) {
    (r.slot2.desc != "" ==> r.slot1.desc != "") && (r.slot3.desc != "" ==> r.slot2.desc != "")
  }

  /** The shipped quantity an update writes into slot `k + 1`. */
  function RealAt(p: UpdatePayload, k: nat): string {
    if k == 0 then p.real1 else if k == 1 then p.real2 else p.real3
  }

  /** On a row filled from the front, the update gives the `k`-th planned
      item the `k`-th shipped quantity and leaves the rest of it alone. */
  lemma UpdatedPlanned(r: RawRecord, p: UpdatePayload, k: nat)
    requires Packed(r)
    requires k < |PlannedItems(r)|
    ensures |PlannedItems(ApplyUpdate(r, p))| == |PlannedItems(r)|
    ensures PlannedItems(ApplyUpdate(r, p))[k] == PlannedItems(r)[k].(actual := RealAt(p, k))
  {
  }

  /** After a save the row reads back in the saved status, with the form's
      invoice and dates. */
  lemma SaveThenDecode(r: RawRecord, form: ShipmentForm, isReceive: bool,
                       stringify: seq<Item> -> string, parse: string -> Option<seq<Slot>>)
    ensures var c := DecodeRecord(ApplyUpdate(r, SavePayload(RawId(r), form, isReceive, stringify)), parse);
      && c.status == (if isReceive then Yard else Transit)
      && c.nf == form.nf && c.datePickup == form.datePickup && c.dateArrivalForecast == form.dateArrival
  {
  }

  /** On a row whose slots are filled from the front, each planned item
      reads back after a save with the form's shipped quantity for it. */
  lemma SaveThenDecodeItem(r: RawRecord, form: ShipmentForm, isReceive: bool,
                           stringify: seq<Item> -> string, parse: string -> Option<seq<Slot>>, k: nat)
    requires Packed(r)
    requires k < |PlannedItems(r)|
    ensures var c := DecodeRecord(ApplyUpdate(r, SavePayload(RawId(r), form, isReceive, stringify)), parse);
      && k < |c.items|
      && c.items[k] == PlannedItems(r)[k].(actual := ActualAt(form.itemsActual, k))
  {
    var p := SavePayload(RawId(r), form, isReceive, stringify);
    var r2 := ApplyUpdate(r, p);
    UpdatedPlanned(r, p, k);
    SavedReal(RawId(r), form, isReceive, stringify, k);
    DecodedPlannedFirst(r2, parse, k);
  }

  /** The payload carries the form's shipped quantity of each slot. */
  lemma SavedReal(id: string, form: ShipmentForm, isReceive: bool, stringify: seq<Item> -> string, k: nat)
    requires k < 3
    ensures RealAt(SavePayload(id, form, isReceive, stringify), k) == ActualAt(form.itemsActual, k)
  {
  }

  /** The decoded items start with the planned ones. */
  lemma DecodedPlannedFirst(r: RawRecord, parse: string -> Option<seq<Slot>>, k: nat)
    requires k < |PlannedItems(r)|
    ensures k < |DecodeRecord(r, parse).items| && DecodeRecord(r, parse).items[k] == PlannedItems(r)[k]
  {
  }

  /** On a row with a gap before a filled slot, the shipped quantity of that
      slot is written into the gap and reads back as empty. */
  lemma SaveAcrossGap(x: string)
    requires x != ""
    ensures var r := RawRecord("", "", "", "", "", "", "", "", "", "", "", "", "",
                               EmptySlot, Slot("A", "1", x, ""), EmptySlot, "");
      var form := ShipmentForm("", "", "", [x], []);
      var r2 := ApplyUpdate(r, SavePayload("", form, false, _ => ""));
      PlannedItems(r)[0].actual == x && PlannedItems(r2)[0].actual == ""
  {
  }

  /** The serialised extras as the JSON objects the cell holds. */
  function EntriesOf(xs: seq<Item>): (es: seq<Slot>)
    ensures |es| == |xs|
  {
    seq(|xs|, i requires 0 <= i < |xs| => Slot(xs[i].desc, xs[i].qtd, xs[i].actual, xs[i].m3))
  }

  /** A serialised array starts with `[` and ends with `]`. */
  predicate Bracketed(t: string) {
    |t| >= 2 && t[0] == '[' && t[|t| - 1] == ']'
  }

  lemma TrimBracketed(t: string)
    requires Bracketed(t)
    ensures Trim(t) == t
  {
    assert TrimStart(t) == t;
    assert TrimEnd(t) == t;
  }

  /** Saved extras read back unchanged when `JSON.parse` inverts
      `JSON.stringify` and every extra shows its quantity. */
  lemma SaveThenDecodeExtras(xs: seq<Item>, stringify: seq<Item> -> string, parse: string -> Option<seq<Slot>>)
    requires |xs| > 0
    requires Bracketed(stringify(xs))
    requires parse(stringify(xs)) == Some(EntriesOf(xs))
    requires forall k :: 0 <= k < |xs| ==> xs[k].isExtra && QuantityShown(xs[k])
    ensures DecodeExtras(stringify(xs), parse) == xs
  {
    TrimBracketed(stringify(xs));
    var r := DecodeExtras(stringify(xs), parse);
    assert |r| == |xs|;
    forall k | 0 <= k < |xs| ensures r[k] == xs[k] {
      assert r[k] == ExtraItem(EntriesOf(xs)[k]);
    }
  }

  // ----- Creating and deleting -----

  /** What the create form submits. */
  datatype CreateData = CreateData(id: string, supplier: string, start: string, end: string, items: seq<CreateForm.FormItem>)

  /** The "create" payload; "Total M3" is kept as a number. */
  datatype CreatePayload = CreatePayload(
    id: string, supplier: string, start: string, end: string, totalM3: real, status: string,
    slot1: Slot, slot2: Slot, slot3: Slot)

  /** `data.items[k]?.desc || ''` and so on; no shipped quantity yet. */
  function SlotOf(items: seq<CreateForm.FormItem>, k: nat): Slot {
    if k < |items| then Slot(items[k].desc, items[k].qtd, "", items[k].m3) else EmptySlot
  }

  /** The row has a description: `i.desc.trim() !== ''`. */
  predicate Described(x: CreateForm.FormItem) {
    Trim(x.desc) != ""
  }

  /** The rows on which `p` is `keep`, in order. */
  function Keep(p: CreateForm.FormItem -> bool, items: seq<CreateForm.FormItem>, keep: bool): (r: seq<CreateForm.FormItem>)
    ensures |r| <= |items|
    ensures forall k :: 0 <= k < |r| ==> p(r[k]) == keep
  {
    if |items| == 0 then []
    else if p(items[0]) == keep then [items[0]] + Keep(p, items[1..], keep)
    else Keep(p, items[1..], keep)
  }

  /** The rows with a description. */
  function Used(items: seq<CreateForm.FormItem>): seq<CreateForm.FormItem> {
    Keep(Described, items, true)
  }

  /** "Total M3": the parsed m³ of the rows with a description. */
  function UsedTotal(items: seq<CreateForm.FormItem>): real {
    CreateForm.Sum(CreateForm.Map(CreateForm.M3Value, Used(items)))
  }

  /** `handleCreateContainer`: a new container is planned. */
  function CreatePayloadOf(data: CreateData): (p: CreatePayload)
    ensures StatusOf(p.status) == Planning
    ensures p.totalM3 == UsedTotal(data.items)
  {
    CreatePayload(data.id, data.supplier, data.start, data.end, UsedTotal(data.items), StatusText(Planning),
      SlotOf(data.items, 0), SlotOf(data.items, 1), SlotOf(data.items, 2))
  }

  lemma MapCons(f: CreateForm.FormItem -> real, x: CreateForm.FormItem, items: seq<CreateForm.FormItem>)
    ensures CreateForm.Map(f, [x] + items) == [f(x)] + CreateForm.Map(f, items)
  {
  }

  lemma SumCons(v: real, vs: seq<real>)
    ensures CreateForm.Sum([v] + vs) == v + CreateForm.Sum(vs)
  {
    assert ([v] + vs)[1..] == vs;
  }

  /** Any measure of the rows is the measure of the rows `p` keeps plus that
      of the rows it drops. */
  lemma {:induction false} KeepSplit(f: CreateForm.FormItem -> real, p: CreateForm.FormItem -> bool, items: seq<CreateForm.FormItem>)
    ensures CreateForm.Sum(CreateForm.Map(f, items))
         == CreateForm.Sum(CreateForm.Map(f, Keep(p, items, true))) + CreateForm.Sum(CreateForm.Map(f, Keep(p, items, false)))
    decreases |items|
  {
    if |items| > 0 {
      var x := items[0];
      var rest := items[1..];
      KeepSplit(f, p, rest);
      assert items == [x] + rest;
      MapCons(f, x, rest);
      SumCons(f(x), CreateForm.Map(f, rest));
      MapCons(f, x, Keep(p, rest, p(x)));
      SumCons(f(x), CreateForm.Map(f, Keep(p, rest, p(x))));
    }
  }

  /** Dropped rows that weigh nothing add nothing. */
  lemma {:induction false} DroppedWeighNothing(f: CreateForm.FormItem -> real, p: CreateForm.FormItem -> bool, items: seq<CreateForm.FormItem>)
    requires forall k :: 0 <= k < |items| && !p(items[k]) ==> f(items[k]) == 0.0
    ensures CreateForm.Sum(CreateForm.Map(f, Keep(p, items, false))) == 0.0
    decreases |items|
  {
    if |items| > 0 {
      var x := items[0];
      var rest := items[1..];
      DroppedWeighNothing(f, p, rest);
      if !p(x) {
        MapCons(f, x, Keep(p, rest, false));
        SumCons(f(x), CreateForm.Map(f, Keep(p, rest, false)));
      }
    }
  }

  /** The saved total agrees with the create form's running total over all
      rows whenever the blank rows carry no m³. */
  lemma UsedTotalAgrees(items: seq<CreateForm.FormItem>)
    requires forall k :: 0 <= k < |items| && !Described(items[k]) ==> CreateForm.M3Value(items[k]) == 0.0
    ensures UsedTotal(items) == CreateForm.TotalM3(items, |items|)
  {
    CreateForm.VisibleAll(items);
    KeepSplit(CreateForm.M3Value, Described, items);
    DroppedWeighNothing(CreateForm.M3Value, Described, items);
  }

  /** The row the store adds for a create payload. */
  function Created(p: CreatePayload): RawRecord {
    RawRecord(p.id, "", p.status, p.supplier, "", "", "", "", "", "", p.start, "", p.end,
      p.slot1, p.slot2, p.slot3, "")
  }

  /** A form row as the planned item a created row decodes to: nothing
      shipped yet. */
  function RowItem(x: CreateForm.FormItem): Item {
    Item(x.desc, x.qtd, "", x.m3, false)
  }

  /** The row fills its slot: `desc || ''` is not empty. */
  predicate Filled(x: CreateForm.FormItem) {
    x.desc != ""
  }

  /** The form rows the three slots hold. */
  function SlotRows(items: seq<CreateForm.FormItem>): (rows: seq<CreateForm.FormItem>)
    ensures |rows| <= 3 && |rows| <= |items| && rows == items[..|rows|]
    ensures |rows| == 3 || rows == items
  {
    if |items| <= 3 then items else items[..3]
  }

  /** The items a created row should read back as: the filled rows among
      the first three, in order, none shipped yet. */
  function FilledRowItems(items: seq<CreateForm.FormItem>): seq<Item> {
    MapSeq(RowItem, Keep(Filled, SlotRows(items), true))
  }

  /** A created row reads back as a planned container with the form's id,
      supplier and dates, no extras, and the filled rows among the first
      three, in order, as its items. The payload has no priority, material,
      invoice, pickup or arrival cell, so those read back empty. */
  lemma CreateThenDecode(data: CreateData, parse: string -> Option<seq<Slot>>)
    ensures var c := DecodeRecord(Created(CreatePayloadOf(data)), parse);
      && c.status == Planning
      && c.id == NormalizeId(data.id)
      && c.supplier == data.supplier && c.dateStart == data.start && c.dateEnd == data.end
      && c.priority == "" && c.measuresRequested == "" && c.measuresActual == ""
      && c.nf == "" && c.datePickup == "" && c.dateArrivalForecast == ""
      && c.items == FilledRowItems(data.items)
  {
    var r := Created(CreatePayloadOf(data));
    CreatedItems(data);
    CreatedRow(data);
    DecodedWithoutExtras(r, parse);
    HeaderOf(r, data, parse);
  }

  /** A row with a created row's cells decodes to the form's header fields. */
  lemma HeaderOf(r: RawRecord, data: CreateData, parse: string -> Option<seq<Slot>>)
    requires r.status == StatusText(Planning) && RawId(r) == data.id && r.supplier == data.supplier
    requires r.startAccented == "" && r.start == data.start && r.end == data.end
    requires r.priority == "" && r.requested == "" && r.shipped == "" && r.nf == "" && r.pickup == "" && r.arrival == ""
    ensures var c := DecodeRecord(r, parse);
      && c.status == Planning
      && c.id == NormalizeId(data.id)
      && c.supplier == data.supplier && c.dateStart == data.start && c.dateEnd == data.end
      && c.priority == "" && c.measuresRequested == "" && c.measuresActual == ""
      && c.nf == "" && c.datePickup == "" && c.dateArrivalForecast == ""
  {
    DecodedFields(r, parse);
    StatusRoundTrip(Planning, "");
  }

  /** The cells of a created row. */
  lemma CreatedRow(data: CreateData)
    ensures var r := Created(CreatePayloadOf(data));
      && r.status == StatusText(Planning) && RawId(r) == data.id && r.supplier == data.supplier
      && r.startAccented == "" && r.start == data.start && r.end == data.end && r.extras == ""
      && r.priority == "" && r.requested == "" && r.shipped == "" && r.nf == "" && r.pickup == "" && r.arrival == ""
  {
  }

  /** The header fields of a decoded row. */
  lemma DecodedFields(r: RawRecord, parse: string -> Option<seq<Slot>>)
    ensures var c := DecodeRecord(r, parse);
      && c.status == StatusOf(r.status) && c.id == NormalizeId(RawId(r)) && c.supplier == r.supplier
      && c.dateStart == (if r.start != "" then r.start else r.startAccented) && c.dateEnd == r.end
      && c.priority == r.priority && c.measuresRequested == r.requested && c.measuresActual == r.shipped
      && c.nf == r.nf && c.datePickup == r.pickup && c.dateArrivalForecast == r.arrival
  {
  }

  /** A row with an empty extras cell decodes to its planned items alone. */
  lemma DecodedWithoutExtras(r: RawRecord, parse: string -> Option<seq<Slot>>)
    requires r.extras == ""
    ensures DecodeRecord(r, parse).items == PlannedItems(r)
  {
    NoExtrasText(parse);
    assert PlannedItems(r) + [] == PlannedItems(r);
  }

  /** After the submit's clean-up of a form with `numItems` visible rows,
      all described, the items a created row reads back as (see
      `CreateThenDecode`) are exactly the visible rows: the blanked rows
      leave no trace. */
  lemma CleanedRows(items: seq<CreateForm.FormItem>, numItems: nat)
    requires |items| == 3 && numItems <= 3
    requires forall k :: 0 <= k < numItems ==> Filled(items[k])
    ensures FilledRowItems(CreateForm.CleanItems(items, numItems)) == MapSeq(RowItem, items[..numItems])
  {
    var visible, blanked := CleanedParts(items, numItems);
    KeepAppend(Filled, visible, blanked, true);
    KeepAll(Filled, visible, true);
    KeepAll(Filled, blanked, false);
  }

  /** The cleaned rows are the visible rows followed by blank ones. */
  lemma CleanedParts(items: seq<CreateForm.FormItem>, numItems: nat)
      returns (visible: seq<CreateForm.FormItem>, blanked: seq<CreateForm.FormItem>)
    requires |items| == 3 && numItems <= 3
    ensures SlotRows(CreateForm.CleanItems(items, numItems)) == visible + blanked
    ensures visible == items[..numItems]
    ensures forall k :: 0 <= k < |blanked| ==> !Filled(blanked[k])
  {
    var cleaned := CreateForm.CleanItems(items, numItems);
    visible, blanked := items[..numItems], cleaned[numItems..];
    assert cleaned == visible + blanked;
  }

  lemma {:induction false} KeepAppend(p: CreateForm.FormItem -> bool, a: seq<CreateForm.FormItem>, b: seq<CreateForm.FormItem>, keep: bool)
    ensures Keep(p, a + b, keep) == Keep(p, a, keep) + Keep(p, b, keep)
    decreases |a|
  {
    if |a| > 0 {
      assert (a + b)[0] == a[0];
      assert (a + b)[1..] == a[1..] + b;
      KeepAppend(p, a[1..], b, keep);
    } else {
      assert a + b == b;
    }
  }

  /** Rows all on one side of `p` are all kept on that side and all dropped
      on the other. */
  lemma {:induction false} KeepAll(p: CreateForm.FormItem -> bool, xs: seq<CreateForm.FormItem>, side: bool)
    requires forall k :: 0 <= k < |xs| ==> p(xs[k]) == side
    ensures Keep(p, xs, side) == xs
    ensures Keep(p, xs, !side) == []
  {
    if |xs| > 0 {
      KeepAll(p, xs[1..], side);
      assert xs == [xs[0]] + xs[1..];
    }
  }

  /** The slot a form row fills decodes to the row's item, when it is filled. */
  function Piece(items: seq<CreateForm.FormItem>, k: nat): seq<Item> {
    if k < |items| then MapSeq(RowItem, Keep(Filled, [items[k]], true)) else []
  }

  lemma SlotPiece(items: seq<CreateForm.FormItem>, k: nat)
    ensures SlotItem(SlotOf(items, k)) == Piece(items, k)
  {
    if k < |items| {
      assert [items[k]][1..] == [];
    }
  }

  lemma CreatedItems(data: CreateData)
    ensures PlannedItems(Created(CreatePayloadOf(data))) == FilledRowItems(data.items)
  {
    var items := data.items;
    CreatedSlots(data);
    SlotPiece(items, 0);
    SlotPiece(items, 1);
    SlotPiece(items, 2);
    SlotRowsPieces(items);
  }

  /** The kept first three rows are the three slots' pieces in order. */
  lemma SlotRowsPieces(items: seq<CreateForm.FormItem>)
    ensures MapSeq(RowItem, Keep(Filled, SlotRows(items), true)) == Piece(items, 0) + Piece(items, 1) + Piece(items, 2)
  {
    var rows := SlotRows(items);
    var n := |rows|;
    if n == 0 {
    } else if n == 1 {
      assert rows == [items[0]];
    } else if n == 2 {
      assert rows == [items[0]] + [items[1]];
      KeepAppend(Filled, [items[0]], [items[1]], true);
      MapSeqAppend(RowItem, Keep(Filled, [items[0]], true), Keep(Filled, [items[1]], true));
    } else {
      assert rows == [items[0]] + [items[1]] + [items[2]];
      KeepAppend(Filled, [items[0]] + [items[1]], [items[2]], true);
      KeepAppend(Filled, [items[0]], [items[1]], true);
      MapSeqAppend(RowItem, Keep(Filled, [items[0]], true) + Keep(Filled, [items[1]], true), Keep(Filled, [items[2]], true));
      MapSeqAppend(RowItem, Keep(Filled, [items[0]], true), Keep(Filled, [items[1]], true));
    }
  }

  /** The created row holds the first three form rows in its slots. */
  lemma CreatedSlots(data: CreateData)
    ensures var r := Created(CreatePayloadOf(data));
      r.slot1 == SlotOf(data.items, 0) && r.slot2 == SlotOf(data.items, 1) && r.slot3 == SlotOf(data.items, 2)
  {
  }

  lemma NoExtrasText(parse: string -> Option<seq<Slot>>)
    ensures DecodeExtras("", parse) == []
  {
    assert Trim("") == "";
  }

  /** The "delete" payload: the row is kept, marked deleted. */
  datatype DeletePayload = DeletePayload(id: string, status: string)

  /** `handleDeleteContainer`: nothing is sent for an empty id or when the
      user does not confirm. */
  function DeletePayloadOf(id: string, confirmed: bool): (p: Option<DeletePayload>)
    ensures p.Some? <==> NormalizeId(id) != "" && confirmed
    ensures p.Some? ==> p.value.id == NormalizeId(id)
  {
    var cleanId := NormalizeId(id);
    if cleanId == "" || !confirmed then None else Some(DeletePayload(cleanId, Deleted))
  }

  function ApplyDelete(r: RawRecord, p: DeletePayload): RawRecord {
    r.(status := p.status)
  }

  /** A deleted row disappears from the decoded list. */
  lemma DeleteThenDecode(r: RawRecord, id: string, parse: string -> Option<seq<Slot>>)
    requires NormalizeId(id) != ""
    ensures DecodeAll([ApplyDelete(r, DeletePayloadOf(id, true).value)], parse) == []
  {
    DecodeOne(ApplyDelete(r, DeletePayloadOf(id, true).value), parse);
  }

  // ----- Board columns -----

  /** Ordinal text order (`localeCompare` taken as code-point order):
      `a` sorts no later than `b`. */
  predicate Below(a: string, b: string) {
    if |a| == 0 then true
    else if |b| == 0 then false
    else if a[0] != b[0] then a[0] < b[0]
    else Below(a[1..], b[1..])
  }

  lemma {:induction false} BelowTotal(a: string, b: string)
    ensures Below(a, b) || Below(b, a)
    decreases |a|
  {
    if |a| > 0 && |b| > 0 && a[0] == b[0] {
      BelowTotal(a[1..], b[1..]);
    }
  }

  lemma {:induction false} BelowTransitive(a: string, b: string, c: string)
    requires Below(a, b) && Below(b, c)
    ensures Below(a, c)
    decreases |a|
  {
    if |a| > 0 && |c| > 0 && a[0] == b[0] && b[0] == c[0] {
      BelowTransitive(a[1..], b[1..], c[1..]);
    }
  }

  /** The elements in stage `s`, in list order. */
  function InStage<T>(stage: T -> Status, xs: seq<T>, s: Status): (r: seq<T>)
    ensures |r| <= |xs|
  {
    if |xs| == 0 then []
    else if stage(xs[0]) == s then [xs[0]] + InStage(stage, xs[1..], s)
    else InStage(stage, xs[1..], s)
  }

  function StageOf(c: Container): Status {
    c.status
  }

  /** The containers in one stage, in list order. */
  function OfStatus(cs: seq<Container>, s: Status): seq<Container> {
    InStage(StageOf, cs, s)
  }

  /** The list is in order of `key`. */
  predicate SortedBy<T>(key: T -> string, xs: seq<T>) {
    forall i, j :: 0 <= i < j < |xs| ==> Below(key(xs[i]), key(xs[j]))
  }

  /** Insertion in front of the first element whose key does not sort
      earlier than `c`'s: `c` goes before the elements with an equal key. */
  function Insert<T>(key: T -> string, c: T, sorted: seq<T>): (r: seq<T>)
    ensures multiset(r) == multiset(sorted) + multiset{c}
  {
    if |sorted| == 0 then [c]
    else if Below(key(c), key(sorted[0])) then [c] + sorted
    else
      assert sorted == [sorted[0]] + sorted[1..];
      [sorted[0]] + Insert(key, c, sorted[1..])
  }

  /** An element no later than the head of a sorted list goes in front. */
  lemma InsertFront<T>(key: T -> string, c: T, sorted: seq<T>)
    requires SortedBy(key, sorted)
    requires |sorted| > 0 && Below(key(c), key(sorted[0]))
    ensures SortedBy(key, [c] + sorted)
  {
    var r := [c] + sorted;
    forall j | 0 < j < |r| ensures Below(key(c), key(r[j])) {
      if j > 1 {
        BelowTransitive(key(c), key(sorted[0]), key(r[j]));
      }
    }
  }

  /** Everything in the tail of a sorted list sorts no earlier than its head. */
  lemma HeadFirst<T>(key: T -> string, c: T, sorted: seq<T>, rest: seq<T>)
    requires SortedBy(key, sorted) && |sorted| > 0
    requires Below(key(sorted[0]), key(c))
    requires multiset(rest) == multiset(sorted[1..]) + multiset{c}
    ensures forall x :: x in rest ==> Below(key(sorted[0]), key(x))
  {
    forall x | x in rest ensures Below(key(sorted[0]), key(x)) {
      assert x in multiset(rest);
      if x != c {
        assert x in multiset(sorted[1..]);
        var j :| 0 <= j < |sorted[1..]| && sorted[1..][j] == x;
        assert sorted[j + 1] == x;
      }
    }
  }

  lemma Prepend<T>(key: T -> string, first: T, rest: seq<T>)
    requires SortedBy(key, rest)
    requires forall x :: x in rest ==> Below(key(first), key(x))
    ensures SortedBy(key, [first] + rest)
  {
    var r := [first] + rest;
    forall i, j | 0 <= i < j < |r| ensures Below(key(r[i]), key(r[j])) {
      if i > 0 {
        assert r[i] == rest[i - 1] && r[j] == rest[j - 1];
      } else {
        assert r[j] in rest;
      }
    }
  }

  /** Insertion keeps a list in key order. */
  lemma {:induction false} InsertSorted<T>(key: T -> string, c: T, sorted: seq<T>)
    requires SortedBy(key, sorted)
    ensures SortedBy(key, Insert(key, c, sorted))
    decreases |sorted|
  {
    if |sorted| > 0 {
      if Below(key(c), key(sorted[0])) {
        InsertFront(key, c, sorted);
      } else {
        BelowTotal(key(c), key(sorted[0]));
        var rest := Insert(key, c, sorted[1..]);
        InsertSorted(key, c, sorted[1..]);
        HeadFirst(key, c, sorted, rest);
        Prepend(key, sorted[0], rest);
      }
    }
  }

  /** A stable sort by key: a permutation in key order in which the elements
      with any one key keep their order in `xs`. */
  function SortBy<T>(key: T -> string, xs: seq<T>): (r: seq<T>)
    ensures SortedBy(key, r)
    ensures multiset(r) == multiset(xs)
    ensures forall k :: WithKey(key, r, k) == WithKey(key, xs, k)
  {
    if |xs| == 0 then []
    else
      assert xs == [xs[0]] + xs[1..];
      var rest := SortBy(key, xs[1..]);
      InsertSorted(key, xs[0], rest);
      assert forall k :: WithKey(key, Insert(key, xs[0], rest), k) == WithKey(key, xs, k) by {
        forall k ensures WithKey(key, Insert(key, xs[0], rest), k) == WithKey(key, xs, k) {
          InsertWithKey(key, xs[0], rest, k);
        }
      }
      Insert(key, xs[0], rest)
  }

  /** The elements whose key is `k`, in list order. */
  function WithKey<T>(key: T -> string, xs: seq<T>, k: string): (r: seq<T>)
    ensures |r| <= |xs|
  {
    if |xs| == 0 then []
    else Only(key, xs[0], k) + WithKey(key, xs[1..], k)
  }

  lemma {:induction false} BelowReflexive(a: string)
    ensures Below(a, a)
    decreases |a|
  {
    if |a| > 0 {
      BelowReflexive(a[1..]);
    }
  }

  /** Inserting `c` puts it before every element with the same key. */
  lemma {:induction false} InsertWithKey<T>(key: T -> string, c: T, xs: seq<T>, k: string)
    ensures WithKey(key, Insert(key, c, xs), k) == Only(key, c, k) + WithKey(key, xs, k)
    decreases |xs|
  {
    if |xs| == 0 {
      WithKeyCons(key, c, [], k);
    } else if Below(key(c), key(xs[0])) {
      WithKeyCons(key, c, xs, k);
    } else {
      var x := xs[0];
      BelowReflexive(key(c));
      InsertWithKey(key, c, xs[1..], k);
      WithKeyCons(key, x, Insert(key, c, xs[1..]), k);
      WithKeyCons(key, x, xs[1..], k);
      assert xs == [x] + xs[1..];
      assert Only(key, c, k) == [] || Only(key, x, k) == [];
    }
  }

  /** `[x]` when `x` has key `k`, otherwise nothing. */
  function Only<T>(key: T -> string, x: T, k: string): seq<T> {
    if key(x) == k then [x] else []
  }

  lemma WithKeyCons<T>(key: T -> string, x: T, xs: seq<T>, k: string)
    ensures WithKey(key, [x] + xs, k) == Only(key, x, k) + WithKey(key, xs, k)
  {
    assert ([x] + xs)[0] == x && ([x] + xs)[1..] == xs;
  }

  /** `(c.date_end || '')` */
  function EndOf(c: Container): string {
    c.dateEnd
  }

  /** `renderColumn`: the containers in one stage, planning sorted by its
      end date. */
  function Column(cs: seq<Container>, s: Status): (r: seq<Container>)
    ensures multiset(r) == multiset(OfStatus(cs, s))
    ensures s == Planning ==> SortedBy(EndOf, r)
    ensures forall k :: WithKey(EndOf, r, k) == WithKey(EndOf, OfStatus(cs, s), k)
    ensures s != Planning ==> r == OfStatus(cs, s)
  {
    if s == Planning then SortBy(EndOf, OfStatus(cs, s)) else OfStatus(cs, s)
  }

  /** A column holds exactly the containers of its stage. */
  lemma {:induction false} OfStatusMembers(cs: seq<Container>, s: Status)
    ensures forall x :: x in OfStatus(cs, s) <==> x in cs && x.status == s
  {
    if |cs| > 0 {
      OfStatusMembers(cs[1..], s);
      assert cs == [cs[0]] + cs[1..];
    }
  }

  lemma ColumnMembers(cs: seq<Container>, s: Status, x: Container)
    ensures x in Column(cs, s) <==> x in cs && x.status == s
  {
    OfStatusMembers(cs, s);
    assert x in Column(cs, s) <==> x in multiset(Column(cs, s));
  }

  /** The three columns share out the containers, each exactly once. */
  lemma {:induction false} StagesPartition<T>(stage: T -> Status, xs: seq<T>)
    ensures multiset(InStage(stage, xs, Planning)) + multiset(InStage(stage, xs, Transit))
          + multiset(InStage(stage, xs, Yard)) == multiset(xs)
  {
    if |xs| > 0 {
      var x := xs[0];
      var rest := xs[1..];
      StagesPartition(stage, rest);
      StageStep(stage, xs, Planning);
      StageStep(stage, xs, Transit);
      StageStep(stage, xs, Yard);
      var p, t, y := multiset(InStage(stage, rest, Planning)), multiset(InStage(stage, rest, Transit)),
                     multiset(InStage(stage, rest, Yard));
      assert multiset(xs) == multiset{x} + multiset(rest) by {
        assert xs == [x] + rest;
      }
      match stage(x)
      case Planning => Regroup(multiset{x}, p, t, y);
      case Transit => Regroup(multiset{x}, t, p, y);
      case Yard => Regroup(multiset{x}, y, p, t);
    }
  }

  lemma StageStep<T>(stage: T -> Status, xs: seq<T>, s: Status)
    requires |xs| > 0
    ensures multiset(InStage(stage, xs, s))
         == (if stage(xs[0]) == s then multiset{xs[0]} else multiset{}) + multiset(InStage(stage, xs[1..], s))
  {
  }

  lemma Regroup<T>(a: multiset<T>, b: multiset<T>, c: multiset<T>, d: multiset<T>)
    ensures (a + b) + c + d == a + (b + c + d)
    ensures c + (a + b) + d == a + (c + b + d)
    ensures c + d + (a + b) == a + (c + d + b)
    ensures b + c + d == c + b + d == c + d + b
  {
  }

  lemma ColumnsPartition(cs: seq<Container>)
    ensures multiset(OfStatus(cs, Planning)) + multiset(OfStatus(cs, Transit)) + multiset(OfStatus(cs, Yard))
         == multiset(cs)
  {
    StagesPartition(StageOf, cs);
  }

  lemma ColumnsCount(cs: seq<Container>)
    ensures |Column(cs, Planning)| + |Column(cs, Transit)| + |Column(cs, Yard)| == |cs|
  {
    ColumnsPartition(cs);
    assert |multiset(Column(cs, Planning))| == |Column(cs, Planning)|;
    assert |multiset(Column(cs, Transit))| == |Column(cs, Transit)|;
    assert |multiset(Column(cs, Yard))| == |Column(cs, Yard)|;
    assert |multiset(cs)| == |cs|;
  }
}
