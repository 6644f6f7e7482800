/**
 The read-only details view of one container: its status label, the
 invoice, dates and priority with their display defaults, and the items
 split into the programmed and the extra ones.
 */
module Details {

  import opened Optional
  import opened Text
  import opened Domain
  import opened Dates
  import Records

  /** `formatDate`: "N/D" for empty text; otherwise the `-` fields of the
      day part, reversed and joined by `/` (a missing field prints as
      "undefined"). */
  function FormatDate(s: string): (r: string)
    ensures s == "" ==> r == "N/D"
    ensures s != "" ==> '/' in r
  {
    if s == "" then "N/D"
    else
      var p := Split(BeforeT(s), '-');
      var r := Part(p, 2) + "/" + Part(p, 1) + "/" + Part(p, 0);
      assert r[|Part(p, 2)|] == '/';
      r
  }

  /** The day part of a date-time text is the text before its `T`. */
  lemma BeforeTOfDateTime(day: string, time: string)
    requires 'T' !in day
    requires time == "" || time[0] == 'T'
    ensures BeforeT(day + time) == day
  {
    if time == "" {
      assert day + time == day;
    } else {
      assert day + time == day + ['T'] + time[1..];
      SplitCons(day, 'T', time[1..]);
    }
  }

  /** `YYYY-MM-DD`, with or without a time part, prints as `DD/MM/YYYY`. */
  lemma FormatIsoDate(y: string, m: string, d: string, time: string)
    requires '-' !in y && '-' !in m && '-' !in d
    requires 'T' !in y && 'T' !in m && 'T' !in d
    requires time == "" || time[0] == 'T'
    ensures FormatDate(y + "-" + m + "-" + d + time) == d + "/" + m + "/" + y
  {
    var day := y + "-" + m + "-" + d;
    assert 'T' !in day by {
      assert forall i :: 0 <= i < |day| ==> day[i] in y || day[i] == '-' || day[i] in m || day[i] in d;
    }
    BeforeTOfDateTime(day, time);
    assert day == y + ['-'] + m + ['-'] + d;
    SplitThree(y, m, d, '-');
  }

  /** The printed date splits on `/` into the day, month and year fields. */
  lemma FormatIsoDateFields(y: string, m: string, d: string, time: string)
    requires '-' !in y && '-' !in m && '-' !in d
    requires 'T' !in y && 'T' !in m && 'T' !in d
    requires '/' !in y && '/' !in m && '/' !in d
    requires time == "" || time[0] == 'T'
    ensures Split(FormatDate(y + "-" + m + "-" + d + time), '/') == [d, m, y]
  {
    FormatIsoDate(y, m, d, time);
    assert d + "/" + m + "/" + y == d + ['/'] + m + ['/'] + y;
    SplitThree(d, m, y, '/');
  }

  /** A date with only two fields prints "undefined" for the day. */
  lemma FormatShortDate(y: string, m: string)
    requires '-' !in y && '-' !in m
    requires 'T' !in y && 'T' !in m
    ensures FormatDate(y + "-" + m) == "undefined/" + m + "/" + y
  {
    var day := y + "-" + m;
    assert 'T' !in day by {
      assert forall i :: 0 <= i < |day| ==> day[i] in y || day[i] == '-' || day[i] in m;
    }
    BeforeTOfDateTime(day, "");
    assert day + "" == day;
    assert day == y + ['-'] + m;
    SplitCons(y, '-', m);
    SplitSingle(m, '-');
  }

  /** `value || fallback` for text. */
  function OrDefault(s: string, fallback: string): (r: string)
    ensures r != "" <== fallback != ""
    ensures s != "" ==> r == s
  {
    if s != "" then s else fallback
  }

  /** What the view shows. `shipped` is the "Embarcado" figure of each
      programmed item. */
  datatype View = View(
    status: string,
    nf: string,
    pickup: string,
    arrival: string,
    priority: string,
    programmed: seq<Item>,
    shipped: seq<string>,
    extras: seq<Item>)

  /** The view of a container. */
  function DetailsOf(c: Container): (v: View)
    ensures Records.StatusOf(v.status) == c.status
    ensures v.nf != "" && v.priority != "" && v.pickup != "" && v.arrival != ""
    ensures c.nf == "" ==> v.nf == "PENDENTE"
    ensures c.priority == "" ==> v.priority == "Normal"
    ensures |v.shipped| == |v.programmed|
    ensures forall k :: 0 <= k < |v.shipped| ==> v.shipped[k] != ""
    ensures multiset(v.programmed) + multiset(v.extras) == multiset(c.items)
  {
    Records.StatusRoundTrip(c.status, "");
    ItemsWithFlagPartition(c.items);
    var programmed := ItemsWithFlag(c.items, false);
    View(
      Records.StatusText(c.status),
      OrDefault(c.nf, "PENDENTE"),
      FormatDate(c.datePickup),
      FormatDate(c.dateArrivalForecast),
      OrDefault(c.priority, "Normal"),
      programmed,
      seq(|programmed|, k requires 0 <= k < |programmed| => OrDefault(programmed[k].actual, "0")),
      ItemsWithFlag(c.items, true))
  }

  /** On a decoded row the view lists the filled slots as programmed and
      the decoded extras as extras, and labels the status with the row's
      own text whenever that text is one of the three the payloads write. */
  lemma DetailsOfDecoded(r: Records.RawRecord, parse: string -> Option<seq<Records.Slot>>)
    ensures var v := DetailsOf(Records.DecodeRecord(r, parse));
      && v.programmed == Records.PlannedItems(r)
      && v.extras == Records.DecodeExtras(r.extras, parse)
      && (r.status in {Records.Planned, Records.InTransit, Records.Delivered} ==> v.status == r.status)
  {
    Records.DecodedItemsPartition(r, parse);
    Records.StatusRoundTrip(Planning, r.status);
  }
}
