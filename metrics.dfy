/**
 * Finalisation of transform_data (src/etl.py): every accumulator becomes one
 * flat output row, sets become their sizes and ratios are guarded against zero.
 * The row lists are specified over the events; the lemmas state what they mean.
 */
module Metrics {
  import opened Wrappers
  import opened Dates
  import opened Reconstruct
  import opened Aggregate

  datatype DailyRow = DailyRow(
    date: Date, sessions: nat, totalUsers: nat, pageViews: nat, totalRevenue: real,
    transactions: nat, itemsSold: nat, averageOrderValue: real, conversionRate: real,
    bounceRate: real, uniquePurchases: nat,
    viewItemEvents: nat, addToCartEvents: nat, beginCheckoutEvents: nat)

  datatype TrafficRow = TrafficRow(
    date: Date, source: string, medium: string, campaign: Option<string>,
    sessions: nat, users: nat, pageViews: nat, transactions: nat, revenue: real,
    conversionRate: real)

  datatype ProductRow = ProductRow(
    date: Date, itemId: string, itemName: Option<string>, itemCategory: Option<string>,
    views: nat, addToCarts: nat, checkouts: nat, purchases: nat, revenue: real,
    quantitySold: int, refundAmount: real)

  /** x / n, or 0 when n is 0. */
  function Ratio(x: real, n: nat): (r: real)
    ensures n > 0 ==> r * (n as real) == x
    ensures n == 0 ==> r == 0.0
  {
    if n > 0 then x / (n as real) else 0.0
  }

  /** part / whole * 100, or 0 when whole is 0. */
  function Percent(part: nat, whole: nat): (r: real)
    ensures whole > 0 ==> r * (whole as real) == 100.0 * (part as real)
    ensures whole == 0 ==> r == 0.0
    ensures r >= 0.0
  {
    if whole > 0 then (part as real) / (whole as real) * 100.0 else 0.0
  }

  function FinalDaily(d: Date, a: DailyAcc): DailyRow {
    DailyRow(
      date := d,
      sessions := |a.sessions|,
      totalUsers := |a.users|,
      pageViews := a.pageViews,
      totalRevenue := a.revenue,
      transactions := a.purchases,
      itemsSold := 0,
      averageOrderValue := Ratio(a.revenue, |a.transactions|),
      conversionRate := Percent(a.purchases, |a.sessions|),
      bounceRate := 0.0,
      uniquePurchases := |a.transactions|,
      viewItemEvents := a.viewItems,
      addToCartEvents := a.addCarts,
      beginCheckoutEvents := a.checkouts)
  }

  function FinalTraffic(k: ChannelKey, a: TrafficAcc): TrafficRow {
    TrafficRow(
      date := k.0, source := k.1, medium := k.2, campaign := None,
      sessions := |a.sessions|, users := |a.users|, pageViews := a.pageViews,
      transactions := a.transactions, revenue := a.revenue,
      conversionRate := Percent(a.transactions, |a.sessions|))
  }

  function FinalProduct(k: ItemKey, a: ProductAcc): ProductRow {
    ProductRow(
      date := k.0, itemId := k.1, itemName := a.itemName, itemCategory := a.itemCategory,
      views := a.views, addToCarts := a.addToCarts, checkouts := 0, purchases := a.purchases,
      revenue := a.revenue, quantitySold := a.quantitySold, refundAmount := 0.0)
  }

  // ---------------------------------------------------------------------
  // The three output lists
  // ---------------------------------------------------------------------

  function DailyRowsOver(evs: seq<Event>, ks: seq<Date>): (rows: seq<DailyRow>)
    ensures |rows| == |ks|
  {
    seq(|ks|, i requires 0 <= i < |ks| => FinalDaily(ks[i], DailyOf(Group(evs, DayOf, ks[i]))))
  }

  function TrafficRowsOver(evs: seq<Event>, ks: seq<ChannelKey>): (rows: seq<TrafficRow>)
    ensures |rows| == |ks|
  {
    seq(|ks|, i requires 0 <= i < |ks| => FinalTraffic(ks[i], TrafficOf(Group(evs, ChannelOf, ks[i]))))
  }

  function ProductRowsOver(evs: seq<Event>, ks: seq<ItemKey>): (rows: seq<ProductRow>)
    ensures |rows| == |ks|
  {
    seq(|ks|, i requires 0 <= i < |ks| => FinalProduct(ks[i], ProductOf(Group(evs, ItemOf, ks[i]))))
  }

  /** daily_list: one row per date, in order of first appearance. */
  function DailyRows(evs: seq<Event>): seq<DailyRow> {
    DailyRowsOver(evs, FirstSeen(evs, DayOf))
  }

  /** traffic_list: one row per (date, source, medium), in order of first appearance. */
  function TrafficRows(evs: seq<Event>): seq<TrafficRow> {
    TrafficRowsOver(evs, FirstSeen(evs, ChannelOf))
  }

  /** product_list: one row per (date, item id) among events with an item id, in order of first appearance. */
  function ProductRows(evs: seq<Event>): seq<ProductRow> {
    ProductRowsOver(evs, FirstSeen(evs, ItemOf))
  }

  // ---------------------------------------------------------------------
  // Which rows exist
  // ---------------------------------------------------------------------

  /** There is exactly one daily row per date that some event has. */
  lemma DailyRowsCoverDates(evs: seq<Event>)
    ensures forall i, j :: 0 <= i < j < |DailyRows(evs)| ==> DailyRows(evs)[i].date != DailyRows(evs)[j].date
    ensures forall i :: 0 <= i < |DailyRows(evs)| ==> exists j :: 0 <= j < |evs| && evs[j].date == DailyRows(evs)[i].date
    ensures forall j :: 0 <= j < |evs| ==> exists i :: 0 <= i < |DailyRows(evs)| && DailyRows(evs)[i].date == evs[j].date
  {
    var ks := FirstSeen(evs, DayOf);
    var rows := DailyRows(evs);
    forall i | 0 <= i < |rows|
      ensures exists j :: 0 <= j < |evs| && evs[j].date == rows[i].date
    {
      FirstSeenMembers(evs, DayOf, ks[i]);
    }
    forall j | 0 <= j < |evs|
      ensures exists i :: 0 <= i < |rows| && rows[i].date == evs[j].date
    {
      FirstSeenMembers(evs, DayOf, evs[j].date);
      var i :| 0 <= i < |ks| && ks[i] == evs[j].date;
      assert rows[i].date == evs[j].date;
    }
  }

  /** The natural key of a traffic row. */
  function RowChannel(r: TrafficRow): ChannelKey { (r.date, r.source, r.medium) }

  /** The natural key of a product row. */
  function RowItem(r: ProductRow): ItemKey { (r.date, r.itemId) }

  /** There is exactly one traffic row per (date, source, medium) that some event has. */
  lemma TrafficRowsCoverChannels(evs: seq<Event>)
    ensures forall i, j :: 0 <= i < j < |TrafficRows(evs)| ==> RowChannel(TrafficRows(evs)[i]) != RowChannel(TrafficRows(evs)[j])
    ensures forall i :: 0 <= i < |TrafficRows(evs)| ==>
      exists j :: 0 <= j < |evs| && ChannelOf(evs[j]) == Some(RowChannel(TrafficRows(evs)[i]))
    ensures forall j :: 0 <= j < |evs| ==>
      exists i :: 0 <= i < |TrafficRows(evs)| && Some(RowChannel(TrafficRows(evs)[i])) == ChannelOf(evs[j])
  {
    var ks := FirstSeen(evs, ChannelOf);
    var rows := TrafficRows(evs);
    assert forall i :: 0 <= i < |rows| ==> RowChannel(rows[i]) == ks[i];
    forall i | 0 <= i < |rows|
      ensures exists j :: 0 <= j < |evs| && ChannelOf(evs[j]) == Some(RowChannel(rows[i]))
    {
      FirstSeenMembers(evs, ChannelOf, ks[i]);
    }
    forall j | 0 <= j < |evs|
      ensures exists i :: 0 <= i < |rows| && Some(RowChannel(rows[i])) == ChannelOf(evs[j])
    {
      var k := ChannelOf(evs[j]).value;
      FirstSeenMembers(evs, ChannelOf, k);
      var i :| 0 <= i < |ks| && ks[i] == k;
      assert RowChannel(rows[i]) == k;
    }
  }

  /** There is exactly one product row per (date, item id) that some event with an item id has. */
  lemma ProductRowsCoverItems(evs: seq<Event>)
    ensures forall i, j :: 0 <= i < j < |ProductRows(evs)| ==> RowItem(ProductRows(evs)[i]) != RowItem(ProductRows(evs)[j])
    ensures forall i :: 0 <= i < |ProductRows(evs)| ==>
      exists j :: 0 <= j < |evs| && ItemOf(evs[j]) == Some(RowItem(ProductRows(evs)[i]))
    ensures forall j :: 0 <= j < |evs| && evs[j].itemId.Some? ==>
      exists i :: 0 <= i < |ProductRows(evs)| && Some(RowItem(ProductRows(evs)[i])) == ItemOf(evs[j])
  {
    var ks := FirstSeen(evs, ItemOf);
    var rows := ProductRows(evs);
    assert forall i :: 0 <= i < |rows| ==> RowItem(rows[i]) == ks[i];
    forall i | 0 <= i < |rows|
      ensures exists j :: 0 <= j < |evs| && ItemOf(evs[j]) == Some(RowItem(rows[i]))
    {
      FirstSeenMembers(evs, ItemOf, ks[i]);
    }
    forall j | 0 <= j < |evs| && evs[j].itemId.Some?
      ensures exists i :: 0 <= i < |rows| && Some(RowItem(rows[i])) == ItemOf(evs[j])
    {
      var k := ItemOf(evs[j]).value;
      FirstSeenMembers(evs, ItemOf, k);
      var i :| 0 <= i < |ks| && ks[i] == k;
      assert RowItem(rows[i]) == k;
    }
  }

  // ---------------------------------------------------------------------
  // What a row holds
  // ---------------------------------------------------------------------

  /**
   * The ratio columns of a daily row agree with its counts: conversion rate is
   * purchases per session in percent, average order value is revenue per
   * distinct transaction id, or 0 when there is none.
   */
  predicate DailyRatesHold(r: DailyRow) {
    r.conversionRate * (r.sessions as real) == 100.0 * (r.transactions as real)
    && (r.uniquePurchases > 0 ==> r.averageOrderValue * (r.uniquePurchases as real) == r.totalRevenue)
    && (r.uniquePurchases == 0 ==> r.averageOrderValue == 0.0)
  }

  /** The conversion rate of a traffic row is purchases per session in percent. */
  predicate TrafficRatesHold(r: TrafficRow) {
    r.conversionRate * (r.sessions as real) == 100.0 * (r.transactions as real)
  }

  /** Every key listed in first-seen order has at least one session and one user among its events. */
  lemma ListedGroupHasVisitor<K>(evs: seq<Event>, key: Event -> Option<K>, i: nat)
    requires i < |FirstSeen(evs, key)|
    ensures var g := Group(evs, key, FirstSeen(evs, key)[i]);
      |Image(g, EventSession)| >= 1 && |Image(g, EventUser)| >= 1
  {
    var k := FirstSeen(evs, key)[i];
    var g := Group(evs, key, k);
    FirstSeenMembers(evs, key, k);
    assert EventSession(g[0]) == Some(g[0].session) && EventUser(g[0]) == Some(g[0].user);
    ImageMembers(g, EventSession, g[0].session);
    ImageMembers(g, EventUser, g[0].user);
  }

  /**
   * A daily row counts at least one session and one user; its conversion rate
   * is purchases per session in percent, and its average order value is revenue
   * per distinct transaction id, or 0 when there is none.
   */
  lemma DailyRowRatios(evs: seq<Event>, i: nat)
    requires i < |DailyRows(evs)|
    ensures DailyRows(evs)[i].sessions >= 1 && DailyRows(evs)[i].totalUsers >= 1
    ensures DailyRatesHold(DailyRows(evs)[i])
  {
    var k := FirstSeen(evs, DayOf)[i];
    var a := DailyOf(Group(evs, DayOf, k));
    ListedGroupHasVisitor(evs, DayOf, i);
    var r := DailyRows(evs)[i];
    assert r == FinalDaily(k, a);
    FinalDailyRatios(k, a);
    assert r.sessions >= 1 && r.totalUsers >= 1;
  }

  /** The ratios of a daily row, for any accumulator with at least one session. */
  lemma FinalDailyRatios(d: Date, a: DailyAcc)
    requires |a.sessions| >= 1
    ensures DailyRatesHold(FinalDaily(d, a))
  {
    var p := Percent(a.purchases, |a.sessions|);
    assert p * (|a.sessions| as real) == 100.0 * (a.purchases as real);
  }

  /** A traffic row counts at least one session; its conversion rate is purchases per session in percent. */
  lemma TrafficRowRatios(evs: seq<Event>, i: nat)
    requires i < |TrafficRows(evs)|
    ensures TrafficRows(evs)[i].sessions >= 1 && TrafficRows(evs)[i].users >= 1
    ensures TrafficRows(evs)[i].campaign.None?
    ensures TrafficRatesHold(TrafficRows(evs)[i])
  {
    var k := FirstSeen(evs, ChannelOf)[i];
    var a := TrafficOf(Group(evs, ChannelOf, k));
    ListedGroupHasVisitor(evs, ChannelOf, i);
    var r := TrafficRows(evs)[i];
    assert r == FinalTraffic(k, a);
    assert r.sessions >= 1 && r.users >= 1;
    FinalTrafficRatios(k, a);
  }

  /** The conversion rate of a traffic row, for any accumulator with at least one session. */
  lemma FinalTrafficRatios(k: ChannelKey, a: TrafficAcc)
    requires |a.sessions| >= 1
    ensures TrafficRatesHold(FinalTraffic(k, a))
  {
    var p := Percent(a.transactions, |a.sessions|);
    assert p * (|a.sessions| as real) == 100.0 * (a.transactions as real);
  }

  /** The first event of a group is the first event of `evs` with that key. */
  lemma {:induction false} GroupFirst<K>(evs: seq<Event>, key: Event -> Option<K>, k: K)
    requires Group(evs, key, k) != []
    ensures exists j :: 0 <= j < |evs| && evs[j] == Group(evs, key, k)[0] && key(evs[j]) == Some(k)
                        && forall l :: 0 <= l < j ==> key(evs[l]) != Some(k)
    decreases |evs|
  {
    var init := evs[..|evs| - 1];
    if Group(init, key, k) != [] {
      GroupFirst(init, key, k);
      var j :| 0 <= j < |init| && init[j] == Group(init, key, k)[0] && key(init[j]) == Some(k)
                && forall l :: 0 <= l < j ==> key(init[l]) != Some(k);
      assert evs[j] == init[j];
      forall l | 0 <= l < j
        ensures key(evs[l]) != Some(k)
      {
        assert evs[l] == init[l];
      }
    } else {
      GroupMembers(init, key, k);
      forall l | 0 <= l < |evs| - 1
        ensures key(evs[l]) != Some(k)
      {
        assert evs[l] == init[l];
        assert evs[l] in init;
      }
    }
  }

  /** A product row's name and category are those of the first event that created its key. */
  lemma ProductNameFromFirstEvent(evs: seq<Event>, i: nat)
    requires i < |ProductRows(evs)|
    ensures var r := ProductRows(evs)[i];
      exists j :: 0 <= j < |evs| && evs[j].date == r.date && evs[j].itemId == Some(r.itemId)
        && r.itemName == evs[j].itemName && r.itemCategory == evs[j].itemCategory
        && forall l :: 0 <= l < j ==> !(evs[l].date == r.date && evs[l].itemId == Some(r.itemId))
  {
    var ks := FirstSeen(evs, ItemOf);
    var k := ks[i];
    FirstSeenMembers(evs, ItemOf, k);
    GroupFirst(evs, ItemOf, k);
    var j :| 0 <= j < |evs| && evs[j] == Group(evs, ItemOf, k)[0] && ItemOf(evs[j]) == Some(k)
              && forall l :: 0 <= l < j ==> ItemOf(evs[l]) != Some(k);
    forall l | 0 <= l < j
      ensures !(evs[l].date == k.0 && evs[l].itemId == Some(k.1))
    {
      assert ItemOf(evs[l]) != Some(k);
    }
  }

  /** Distinct counting: when every event of a date shares one session id, that date counts one session. */
  lemma RepeatedSessionCountsOnce(evs: seq<Event>, i: nat, s: string)
    requires i < |DailyRows(evs)|
    requires forall j :: 0 <= j < |evs| && evs[j].date == DailyRows(evs)[i].date ==> evs[j].session == s
    ensures DailyRows(evs)[i].sessions == 1
  {
    var ks := FirstSeen(evs, DayOf);
    var g := Group(evs, DayOf, ks[i]);
    FirstSeenMembers(evs, DayOf, ks[i]);
    GroupMembers(evs, DayOf, ks[i]);
    forall j | 0 <= j < |g|
      ensures EventSession(g[j]) == Some(s)
    {
      assert g[j] in g;
    }
    ImageOfRepeated(g, EventSession, s);
  }

  // ---------------------------------------------------------------------
  // Revenue conservation across the groups
  // ---------------------------------------------------------------------

  /** The events that have a key. */
  function Keyed<K>(evs: seq<Event>, key: Event -> Option<K>): seq<Event> {
    if evs == [] then []
    else Keyed(evs[..|evs| - 1], key) + (if key(evs[|evs| - 1]).Some? then [evs[|evs| - 1]] else [])
  }

  /** The sum, over the keys `ks`, of the totals of their groups. */
  function GroupTotals<K(==)>(evs: seq<Event>, key: Event -> Option<K>, ks: seq<K>, w: Event -> real): real {
    if ks == [] then 0.0
    else GroupTotals(evs, key, ks[..|ks| - 1], w) + Total(Group(evs, key, ks[|ks| - 1]), w)
  }

  lemma TotalSnoc(es: seq<Event>, e: Event, w: Event -> real)
    ensures Total(es + [e], w) == Total(es, w) + w(e)
  {
    assert (es + [e])[..|es|] == es;
  }

  lemma {:induction false} GroupTotalsUntouched<K>(evs: seq<Event>, e: Event, key: Event -> Option<K>, ks: seq<K>, w: Event -> real)
    requires key(e).None? || key(e).value !in ks
    ensures GroupTotals(evs + [e], key, ks, w) == GroupTotals(evs, key, ks, w)
    decreases |ks|
  {
    if ks != [] {
      var init := ks[..|ks| - 1];
      var last := ks[|ks| - 1];
      assert key(e).None? || key(e).value !in init;
      GroupTotalsUntouched(evs, e, key, init, w);
      GroupSnoc(evs, e, key, last);
      assert Group(evs + [e], key, last) == Group(evs, key, last);
    }
  }

  lemma {:induction false} GroupTotalsBump<K>(evs: seq<Event>, e: Event, key: Event -> Option<K>, ks: seq<K>, w: Event -> real)
    requires key(e).Some? && key(e).value in ks
    requires forall i, j :: 0 <= i < j < |ks| ==> ks[i] != ks[j]
    ensures GroupTotals(evs + [e], key, ks, w) == GroupTotals(evs, key, ks, w) + w(e)
    decreases |ks|
  {
    var init := ks[..|ks| - 1];
    var last := ks[|ks| - 1];
    var k := key(e).value;
    GroupSnoc(evs, e, key, last);
    if last == k {
      assert k !in init by {
        forall i | 0 <= i < |init|
          ensures init[i] != k
        {
          assert init[i] == ks[i];
        }
      }
      GroupTotalsUntouched(evs, e, key, init, w);
      TotalSnoc(Group(evs, key, last), e, w);
    } else {
      assert k in init by {
        var i :| 0 <= i < |ks| && ks[i] == k;
        assert i < |ks| - 1;
        assert init[i] == k;
      }
      GroupTotalsBump(evs, e, key, init, w);
      assert Group(evs + [e], key, last) == Group(evs, key, last);
    }
  }

  /** Each keyed event is counted in exactly one group: the group totals add up to the total of the keyed events. */
  lemma {:induction false} Partition<K>(evs: seq<Event>, key: Event -> Option<K>, w: Event -> real)
    ensures GroupTotals(evs, key, FirstSeen(evs, key), w) == Total(Keyed(evs, key), w)
    decreases |evs|
  {
    if evs != [] {
      var init := evs[..|evs| - 1];
      var e := evs[|evs| - 1];
      assert evs == init + [e];
      var ks := FirstSeen(init, key);
      Partition(init, key, w);
      FirstSeenSnoc(init, e, key);
      if key(e).None? {
        GroupTotalsUntouched(init, e, key, ks, w);
        assert Keyed(evs, key) == Keyed(init, key);
      } else if key(e).value in ks {
        GroupTotalsBump(init, e, key, ks, w);
        assert Keyed(evs, key) == Keyed(init, key) + [e];
        TotalSnoc(Keyed(init, key), e, w);
      } else {
        var k := key(e).value;
        PartitionNewKey(init, e, key, w, ks, k);
        assert Keyed(evs, key) == Keyed(init, key) + [e];
        TotalSnoc(Keyed(init, key), e, w);
      }
    }
  }

  lemma PartitionNewKey<K>(init: seq<Event>, e: Event, key: Event -> Option<K>, w: Event -> real, ks: seq<K>, k: K)
    requires ks == FirstSeen(init, key) && key(e) == Some(k) && k !in ks
    ensures GroupTotals(init + [e], key, ks + [k], w) == GroupTotals(init, key, ks, w) + w(e)
  {
    GroupTotalsUntouched(init, e, key, ks, w);
    FirstSeenMembers(init, key, k);
    GroupSnoc(init, e, key, k);
    assert Group(init + [e], key, k) == [e];
    assert (ks + [k])[..|ks|] == ks;
    assert Total([e], w) == w(e) by {
      assert [e][..0] == [];
    }
  }

  /** Every event has a date and a channel: nothing is left out of those groupings. */
  lemma {:induction false} KeyedAll<K>(evs: seq<Event>, key: Event -> Option<K>)
    requires forall i :: 0 <= i < |evs| ==> key(evs[i]).Some?
    ensures Keyed(evs, key) == evs
    decreases |evs|
  {
    if evs != [] {
      KeyedAll(evs[..|evs| - 1], key);
    }
  }

  function SumBy<R>(rows: seq<R>, f: R -> real): real {
    if rows == [] then 0.0 else SumBy(rows[..|rows| - 1], f) + f(rows[|rows| - 1])
  }

  lemma {:induction false} SumOverKeys<K, R>(evs: seq<Event>, key: Event -> Option<K>, ks: seq<K>, w: Event -> real,
                                             rows: seq<R>, f: R -> real)
    requires |rows| == |ks|
    requires forall i :: 0 <= i < |ks| ==> f(rows[i]) == Total(Group(evs, key, ks[i]), w)
    ensures SumBy(rows, f) == GroupTotals(evs, key, ks, w)
    decreases |ks|
  {
    if ks != [] {
      SumOverKeys(evs, key, ks[..|ks| - 1], w, rows[..|rows| - 1], f);
    }
  }

  function DailyRevenue(r: DailyRow): real { r.totalRevenue }
  function TrafficRevenue(r: TrafficRow): real { r.revenue }
  function ProductRevenue(r: ProductRow): real { r.revenue }

  /**
   * Revenue is conserved: the daily rows and the traffic rows each add up to
   * the paid revenue of all events, and the product rows to the item revenue
   * of the purchase events that have an item id.
   */
  lemma RevenueConservation(evs: seq<Event>)
    ensures SumBy(DailyRows(evs), DailyRevenue) == Total(evs, PaidRevenue)
    ensures SumBy(TrafficRows(evs), TrafficRevenue) == Total(evs, PaidRevenue)
    ensures SumBy(ProductRows(evs), ProductRevenue) == Total(Keyed(evs, ItemOf), ItemPaidRevenue)
  {
    SumOverKeys(evs, DayOf, FirstSeen(evs, DayOf), PaidRevenue, DailyRows(evs), DailyRevenue);
    Partition(evs, DayOf, PaidRevenue);
    KeyedAll(evs, DayOf);
    SumOverKeys(evs, ChannelOf, FirstSeen(evs, ChannelOf), PaidRevenue, TrafficRows(evs), TrafficRevenue);
    Partition(evs, ChannelOf, PaidRevenue);
    KeyedAll(evs, ChannelOf);
    SumOverKeys(evs, ItemOf, FirstSeen(evs, ItemOf), ItemPaidRevenue, ProductRows(evs), ProductRevenue);
    Partition(evs, ItemOf, ItemPaidRevenue);
  }

  // ---------------------------------------------------------------------
  // Worked cases
  // ---------------------------------------------------------------------

  /**
   * Two purchases on one date by one user, with transaction ids t1 and t2 and
   * revenues 10 and 20, give one daily row with 2 transactions, revenue 30 and
   * an average order value of 15.
   */
  lemma TwoPurchasesScenario(e1: Event, e2: Event)
    requires e1.name == "purchase" && e2.name == "purchase" && e1.date == e2.date
    requires e1.transactionId == Some("t1") && e2.transactionId == Some("t2")
    requires e1.transactionRevenue == Some(10.0) && e2.transactionRevenue == Some(20.0)
    ensures |DailyRows([e1, e2])| == 1
    ensures var r := DailyRows([e1, e2])[0];
      r.date == e1.date && r.transactions == 2 && r.uniquePurchases == 2
      && r.totalRevenue == 30.0 && r.averageOrderValue == 15.0
  {
    var evs := [e1, e2];
    assert evs[..1] == [e1];
    assert [e1][..0] == [];
    assert FirstSeen([e1], DayOf) == [e1.date] by {
      assert FirstSeen([], DayOf) == [];
    }
    assert FirstSeen(evs, DayOf) == [e1.date];
    assert Group([e1], DayOf, e1.date) == [e1] by {
      assert Group([], DayOf, e1.date) == [];
    }
    assert Group(evs, DayOf, e1.date) == evs;
    DailyOfStep([e1], e2);
    DailyOfStep([], e1);
    assert [] + [e1] == [e1];
    assert {"t1", "t2"} - {"t1"} == {"t2"};
  }

  /**
   * Daily revenue and product revenue come from different columns (purchase
   * revenue on every event, item revenue on purchases), so they need not agree
   * even when every purchase carries an item id.
   */
  lemma DailyAndProductRevenueDiffer(e: Event)
    requires e.name == "purchase" && e.itemId.Some?
    requires e.transactionRevenue == Some(10.0) && e.itemRevenue == Some(5.0)
    ensures SumBy(DailyRows([e]), DailyRevenue) == 10.0
    ensures SumBy(ProductRows([e]), ProductRevenue) == 5.0
  {
    RevenueConservation([e]);
    assert [e][..0] == [];
  }
}
