/**
 * transform_data (src/etl.py:112-381) as the loop it is: pick the first
 * non-empty frame, walk the retained rows once, append events and update the
 * three accumulator maps, then turn each map into its output list.
 */
module Transform {
  import opened Wrappers
  import opened Dates
  import opened Reconstruct
  import opened Aggregate
  import opened Metrics

  /** The data frames produced by the download step, by file name; a frame that failed to load is None. */
  type Frames = seq<(string, Option<Table>)>

  datatype Output = Output(
    events: seq<Event>, daily: seq<DailyRow>, traffic: seq<TrafficRow>, products: seq<ProductRow>)

  const NoOutput := Output([], [], [], [])

  predicate Usable(f: Option<Table>) { f.Some? && f.value != [] }

  /** The first frame that is present and has rows, if any. */
  function FirstNonEmpty(frames: Frames): (r: Option<Table>)
    ensures r.None? <==> forall i :: 0 <= i < |frames| ==> !Usable(frames[i].1)
    ensures r.Some? ==> exists i :: 0 <= i < |frames| && frames[i].1 == r && Usable(r)
                                    && forall j :: 0 <= j < i ==> !Usable(frames[j].1)
  {
    if frames == [] then None
    else if Usable(frames[0].1) then frames[0].1
    else
      var r := FirstNonEmpty(frames[1..]);
      assert forall i :: 1 <= i < |frames| ==> frames[i] == frames[1..][i - 1];
      r
  }

  /** What transform_data returns, or the message of the exception it raises. */
  function TransformSpec(frames: Frames, today: Date): Result<Output, string> {
    match FirstNonEmpty(frames)
    case None => Success(NoOutput)
    case Some(t) => ProcessSpec(Retained(t), today)
  }

  /** The loop over the frames that stops at the first usable one. */
  method PickFrame(frames: Frames) returns (r: Option<Table>)
    ensures r == FirstNonEmpty(frames)
  {
    var i := 0;
    while i < |frames|
      invariant 0 <= i <= |frames|
      invariant FirstNonEmpty(frames) == FirstNonEmpty(frames[i..])
    {
      assert frames[i..][1..] == frames[i + 1..];
      if Usable(frames[i].1) {
        return frames[i].1;
      }
      i := i + 1;
    }
    return None;
  }

  /** The daily block of the loop body: create the date's accumulator if new, then update it. */
  method AddDaily(daily: map<Date, DailyAcc>, order: seq<Date>, ghost evs: seq<Event>, e: Event)
    returns (daily': map<Date, DailyAcc>, order': seq<Date>)
    requires Tracks(daily, order, evs, DayOf, DailyOf)
    ensures Tracks(daily', order', evs + [e], DayOf, DailyOf)
  {
    var k := e.date;
    ghost var g := Group(evs, DayOf, k);
    var acc := NewDaily;
    order' := order;
    if k in daily {
      acc := daily[k];
    } else {
      FirstSeenMembers(evs, DayOf, k);
      order' := order + [k];
    }
    DailyOfStep(g, e);
    GroupSnoc(evs, e, DayOf, k);
    daily' := daily[k := DailyStep(acc, e)];
    TracksStep(daily, order, evs, DayOf, DailyOf, e, k, DailyStep(acc, e));
  }

  /** The traffic block of the loop body, keyed by (date, source, medium). */
  method AddTraffic(traffic: map<ChannelKey, TrafficAcc>, order: seq<ChannelKey>, ghost evs: seq<Event>, e: Event)
    returns (traffic': map<ChannelKey, TrafficAcc>, order': seq<ChannelKey>)
    requires Tracks(traffic, order, evs, ChannelOf, TrafficOf)
    ensures Tracks(traffic', order', evs + [e], ChannelOf, TrafficOf)
  {
    var k := (e.date, e.source, e.medium);
    ghost var g := Group(evs, ChannelOf, k);
    var acc := NewTraffic;
    order' := order;
    if k in traffic {
      acc := traffic[k];
    } else {
      FirstSeenMembers(evs, ChannelOf, k);
      order' := order + [k];
    }
    TrafficOfStep(g, e);
    GroupSnoc(evs, e, ChannelOf, k);
    traffic' := traffic[k := TrafficStep(acc, e)];
    TracksStep(traffic, order, evs, ChannelOf, TrafficOf, e, k, TrafficStep(acc, e));
  }

  /**
   * The product block of the loop body: only an event with an item id touches a
   * product key, and a new key takes its name and category from that event.
   */
  method AddProduct(product: map<ItemKey, ProductAcc>, order: seq<ItemKey>, ghost evs: seq<Event>, e: Event)
    returns (product': map<ItemKey, ProductAcc>, order': seq<ItemKey>)
    requires Tracks(product, order, evs, ItemOf, ProductOf)
    ensures Tracks(product', order', evs + [e], ItemOf, ProductOf)
  {
    if e.itemId.None? {
      TracksSkip(product, order, evs, ItemOf, ProductOf, e);
      return product, order;
    }
    var k := (e.date, e.itemId.value);
    ghost var g := Group(evs, ItemOf, k);
    var acc := NewProduct(e);
    order' := order;
    FirstSeenMembers(evs, ItemOf, k);
    if k in product {
      acc := product[k];
    } else {
      order' := order + [k];
    }
    ProductOfStep(g, e);
    GroupSnoc(evs, e, ItemOf, k);
    product' := product[k := ProductStep(acc, e)];
    TracksStep(product, order, evs, ItemOf, ProductOf, e, k, ProductStep(acc, e));
  }

  /** The three accumulator maps of the loop, each with its insertion order. */
  datatype Accumulators = Accumulators(
    daily: map<Date, DailyAcc>, dailyOrder: seq<Date>,
    traffic: map<ChannelKey, TrafficAcc>, trafficOrder: seq<ChannelKey>,
    product: map<ItemKey, ProductAcc>, productOrder: seq<ItemKey>)

  const NoAccumulators := Accumulators(map[], [], map[], [], map[], [])

  /** The three maps are those the loop has built from the events `evs`. */
  ghost predicate Summarises(acc: Accumulators, evs: seq<Event>) {
    Tracks(acc.daily, acc.dailyOrder, evs, DayOf, DailyOf)
    && Tracks(acc.traffic, acc.trafficOrder, evs, ChannelOf, TrafficOf)
    && Tracks(acc.product, acc.productOrder, evs, ItemOf, ProductOf)
  }

  /** The aggregation part of the loop body for one event: every map takes it in. */
  method AddEvent(acc: Accumulators, ghost evs: seq<Event>, e: Event) returns (acc': Accumulators)
    requires Summarises(acc, evs)
    ensures Summarises(acc', evs + [e])
  {
    var daily, dailyOrder := AddDaily(acc.daily, acc.dailyOrder, evs, e);
    var traffic, trafficOrder := AddTraffic(acc.traffic, acc.trafficOrder, evs, e);
    var product, productOrder := AddProduct(acc.product, acc.productOrder, evs, e);
    acc' := Accumulators(daily, dailyOrder, traffic, trafficOrder, product, productOrder);
  }

  /** The loop that turns the daily map into daily_list. */
  method FinishDaily(daily: map<Date, DailyAcc>, order: seq<Date>, ghost evs: seq<Event>)
    returns (rows: seq<DailyRow>)
    requires Tracks(daily, order, evs, DayOf, DailyOf)
    ensures rows == DailyRows(evs)
  {
    rows := [];
    for i := 0 to |order|
      invariant rows == DailyRowsOver(evs, order[..i])
    {
      var k := order[i];
      assert k in order;
      assert DailyRowsOver(evs, order[..i + 1]) == DailyRowsOver(evs, order[..i]) + [FinalDaily(k, daily[k])] by {
        assert order[..i + 1] == order[..i] + [k];
      }
      rows := rows + [FinalDaily(k, daily[k])];
    }
    assert order[..|order|] == order;
  }

  /** The loop that turns the traffic map into traffic_list. */
  method FinishTraffic(traffic: map<ChannelKey, TrafficAcc>, order: seq<ChannelKey>, ghost evs: seq<Event>)
    returns (rows: seq<TrafficRow>)
    requires Tracks(traffic, order, evs, ChannelOf, TrafficOf)
    ensures rows == TrafficRows(evs)
  {
    rows := [];
    for i := 0 to |order|
      invariant rows == TrafficRowsOver(evs, order[..i])
    {
      var k := order[i];
      assert k in order;
      assert TrafficRowsOver(evs, order[..i + 1]) == TrafficRowsOver(evs, order[..i]) + [FinalTraffic(k, traffic[k])] by {
        assert order[..i + 1] == order[..i] + [k];
      }
      rows := rows + [FinalTraffic(k, traffic[k])];
    }
    assert order[..|order|] == order;
  }

  /** The loop that turns the product map into product_list. */
  method FinishProduct(product: map<ItemKey, ProductAcc>, order: seq<ItemKey>, ghost evs: seq<Event>)
    returns (rows: seq<ProductRow>)
    requires Tracks(product, order, evs, ItemOf, ProductOf)
    ensures rows == ProductRows(evs)
  {
    rows := [];
    for i := 0 to |order|
      invariant rows == ProductRowsOver(evs, order[..i])
    {
      var k := order[i];
      assert k in order;
      assert ProductRowsOver(evs, order[..i + 1]) == ProductRowsOver(evs, order[..i]) + [FinalProduct(k, product[k])] by {
        assert order[..i + 1] == order[..i] + [k];
      }
      rows := rows + [FinalProduct(k, product[k])];
    }
    assert order[..|order|] == order;
  }

  /** What the row loop and the finalisation produce from the retained rows. */
  function ProcessSpec(rows: Table, today: Date): Result<Output, string> {
    match Events(rows, today)
    case Failure(m) => Failure(m)
    case Success(evs) => Success(Output(evs, DailyRows(evs), TrafficRows(evs), ProductRows(evs)))
  }

  /**
   * The row loop: the events of the retained rows with the maps built from
   * them, or the message of the first row that raises.
   */
  method Scan(rows: Table, today: Date) returns (r: Result<seq<Event>, string>, acc: Accumulators)
    ensures r == Events(rows, today)
    ensures r.Success? ==> Summarises(acc, r.value)
  {
    var events: seq<Event> := [];
    acc := NoAccumulators;
    assert rows[..0] == [];
    var i := 0;
    while i < |rows|
      invariant 0 <= i <= |rows|
      invariant Events(rows[..i], today) == Success(events)
      invariant Summarises(acc, events)
      decreases |rows| - i
    {
      var d := Derive(rows[i], today);
      ScanStep(rows, i, today, events);
      if d.Raise? {
        return Failure(d.message), acc;
      }
      if d.Keep? {
        acc := AddEvent(acc, events, d.event);
        events := events + [d.event];
      }
      i := i + 1;
    }
    assert rows[..i] == rows;
    r := Success(events);
  }

  /** One turn of the row loop, in terms of the events of the rows before it. */
  lemma ScanStep(rows: Table, i: nat, today: Date, evs: seq<Event>)
    requires i < |rows| && Events(rows[..i], today) == Success(evs)
    ensures Derive(rows[i], today).Skip? ==> Events(rows[..i + 1], today) == Success(evs)
    ensures Derive(rows[i], today).Keep? ==> Events(rows[..i + 1], today) == Success(evs + [Derive(rows[i], today).event])
    ensures Derive(rows[i], today).Raise? ==> Events(rows, today) == Failure(Derive(rows[i], today).message)
  {
    EventsSnoc(rows, i, today);
    if Derive(rows[i], today).Raise? {
      EventsFailurePersists(rows, i + 1, today);
    }
  }

  /** The row loop followed by the three finalisation loops. */
  method Process(rows: Table, today: Date) returns (r: Result<Output, string>)
    ensures r == ProcessSpec(rows, today)
  {
    var scanned, acc := Scan(rows, today);
    if scanned.Failure? {
      return Failure(scanned.error);
    }
    var events := scanned.value;
    var dailyRows := FinishDaily(acc.daily, acc.dailyOrder, events);
    var trafficRows := FinishTraffic(acc.traffic, acc.trafficOrder, events);
    var productRows := FinishProduct(acc.product, acc.productOrder, events);
    return Success(Output(events, dailyRows, trafficRows, productRows));
  }

  /**
   * transform_data: the events and the three metric lists of the first usable
   * frame, empty lists when there is none, or the exception of the first row
   * whose quantity cannot be read.
   */
  method Run(frames: Frames, today: Date) returns (r: Result<Output, string>)
    ensures r == TransformSpec(frames, today)
  {
    var picked := PickFrame(frames);
    if picked.None? {
      return Success(NoOutput);
    }
    r := Process(Retained(picked.value), today);
  }
}
