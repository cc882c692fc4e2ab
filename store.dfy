/**
 * load_data (src/etl.py:522-663) against a database modelled as a class: the
 * fields hold the committed state, the open transaction is a local value, a
 * rollback discards it and a commit writes it to the fields.
 */
module Store {
  import opened Wrappers
  import opened Dates
  import opened Reconstruct
  import opened Aggregate
  import opened Metrics
  import opened Transform

  // ---------------------------------------------------------------------
  // Upserts by natural key
  // ---------------------------------------------------------------------

  /** INSERT ... ON CONFLICT (key) DO UPDATE, for each row in turn. */
  function UpsertAll<K, V>(m: map<K, V>, rows: seq<V>, keyOf: V -> K, merge: (V, V) -> V): map<K, V> {
    if rows == [] then m
    else
      var m' := UpsertAll(m, rows[..|rows| - 1], keyOf, merge);
      var r := rows[|rows| - 1];
      if keyOf(r) in m' then m'[keyOf(r) := merge(m'[keyOf(r)], r)] else m'[keyOf(r) := r]
  }

  /** The upserts keep every stored key and add the key of each row, and no other. */
  lemma {:induction false} UpsertAllKeys<K, V>(m: map<K, V>, rows: seq<V>, keyOf: V -> K, merge: (V, V) -> V)
    ensures forall k :: k in UpsertAll(m, rows, keyOf, merge) <==>
      k in m || exists i :: 0 <= i < |rows| && keyOf(rows[i]) == k
  {
    if rows != [] {
      var init := rows[..|rows| - 1];
      UpsertAllKeys(m, init, keyOf, merge);
      forall i | 0 <= i < |init|
        ensures keyOf(rows[i]) == keyOf(init[i])
      {
        assert init[i] == rows[i];
      }
    }
  }

  ghost predicate DistinctKeys<K, V>(rows: seq<V>, keyOf: V -> K) {
    forall i, j :: 0 <= i < j < |rows| ==> keyOf(rows[i]) != keyOf(rows[j])
  }

  /**
   * With one row per key: a key of the rows holds that row, merged into the old
   * record when there was one; every other key keeps its old record.
   */
  lemma {:induction false} UpsertAllAt<K, V>(m: map<K, V>, rows: seq<V>, keyOf: V -> K, merge: (V, V) -> V, k: K)
    requires DistinctKeys(rows, keyOf)
    ensures k in UpsertAll(m, rows, keyOf, merge) <==> k in m || exists i :: 0 <= i < |rows| && keyOf(rows[i]) == k
    ensures forall i :: 0 <= i < |rows| && keyOf(rows[i]) == k ==>
      UpsertAll(m, rows, keyOf, merge)[k] == if k in m then merge(m[k], rows[i]) else rows[i]
    ensures k in m && (forall i :: 0 <= i < |rows| ==> keyOf(rows[i]) != k) ==> UpsertAll(m, rows, keyOf, merge)[k] == m[k]
    decreases |rows|
  {
    if rows != [] {
      var init := rows[..|rows| - 1];
      var last := rows[|rows| - 1];
      UpsertAllAt(m, init, keyOf, merge, k);
      if keyOf(last) == k {
        assert forall i :: 0 <= i < |init| ==> keyOf(init[i]) != k by {
          forall i | 0 <= i < |init|
            ensures keyOf(init[i]) != k
          {
            assert init[i] == rows[i];
          }
        }
      }
      if exists i :: 0 <= i < |init| && keyOf(init[i]) == k {
        var i :| 0 <= i < |init| && keyOf(init[i]) == k;
        assert rows[i] == init[i];
      }
      if exists i :: 0 <= i < |rows| && keyOf(rows[i]) == k {
        var i :| 0 <= i < |rows| && keyOf(rows[i]) == k;
        if i < |init| {
          assert init[i] == rows[i];
        }
      }
      forall i | 0 <= i < |rows| && keyOf(rows[i]) == k
        ensures UpsertAll(m, rows, keyOf, merge)[k] == if k in m then merge(m[k], rows[i]) else rows[i]
      {
        if i < |init| {
          assert init[i] == rows[i];
        }
      }
    }
  }

  /** Replaying the same rows changes nothing, when a merge only overwrites columns. */
  lemma UpsertAllIdempotent<K(!new), V>(m: map<K, V>, rows: seq<V>, keyOf: V -> K, merge: (V, V) -> V)
    requires DistinctKeys(rows, keyOf)
    requires forall o, a :: merge(merge(o, a), a) == merge(o, a)
    requires forall a :: merge(a, a) == a
    ensures UpsertAll(UpsertAll(m, rows, keyOf, merge), rows, keyOf, merge) == UpsertAll(m, rows, keyOf, merge)
  {
    var once := UpsertAll(m, rows, keyOf, merge);
    var twice := UpsertAll(once, rows, keyOf, merge);
    forall k
      ensures k in twice <==> k in once
      ensures k in once ==> twice[k] == once[k]
    {
      UpsertAllAt(m, rows, keyOf, merge, k);
      UpsertAllAt(once, rows, keyOf, merge, k);
      if exists i :: 0 <= i < |rows| && keyOf(rows[i]) == k {
        var i :| 0 <= i < |rows| && keyOf(rows[i]) == k;
        assert twice[k] == merge(once[k], rows[i]);
        if k in m {
          assert once[k] == merge(m[k], rows[i]);
          assert merge(merge(m[k], rows[i]), rows[i]) == merge(m[k], rows[i]);
        } else {
          assert once[k] == rows[i];
          assert merge(rows[i], rows[i]) == rows[i];
        }
      }
    }
    assert forall k :: k in twice.Keys <==> k in once.Keys;
    assert twice.Keys == once.Keys;
  }

  function DailyKey(r: DailyRow): Date { r.date }

  /** ON CONFLICT (metric_date): only the listed columns take the incoming values. */
  function MergeDaily(stored: DailyRow, incoming: DailyRow): (r: DailyRow)
    ensures DailyKey(r) == DailyKey(stored)
  {
    stored.(sessions := incoming.sessions, totalUsers := incoming.totalUsers, pageViews := incoming.pageViews,
         totalRevenue := incoming.totalRevenue, transactions := incoming.transactions,
         averageOrderValue := incoming.averageOrderValue, conversionRate := incoming.conversionRate)
  }

  /** ON CONFLICT (metric_date, source, medium): the campaign is kept. */
  function MergeTraffic(stored: TrafficRow, incoming: TrafficRow): (r: TrafficRow)
    ensures RowChannel(r) == RowChannel(stored)
  {
    stored.(sessions := incoming.sessions, users := incoming.users, pageViews := incoming.pageViews,
         transactions := incoming.transactions, revenue := incoming.revenue, conversionRate := incoming.conversionRate)
  }

  /** ON CONFLICT (metric_date, item_id): name, category, checkouts and refunds are kept. */
  function MergeProduct(stored: ProductRow, incoming: ProductRow): (r: ProductRow)
    ensures RowItem(r) == RowItem(stored)
  {
    stored.(views := incoming.views, addToCarts := incoming.addToCarts, purchases := incoming.purchases,
         revenue := incoming.revenue, quantitySold := incoming.quantitySold)
  }

  /**
   * Upserting an existing date overwrites sessions, users, page views, revenue,
   * transactions, average order value and conversion rate, and keeps items sold,
   * bounce rate, unique purchases and the three event counts.
   */
  lemma DailyUpsertColumns(m: map<Date, DailyRow>, rows: seq<DailyRow>, i: nat)
    requires DistinctKeys(rows, DailyKey) && i < |rows| && rows[i].date in m
    ensures rows[i].date in UpsertAll(m, rows, DailyKey, MergeDaily)
    ensures var stored := m[rows[i].date];
      var r := UpsertAll(m, rows, DailyKey, MergeDaily)[rows[i].date];
      r.sessions == rows[i].sessions && r.totalUsers == rows[i].totalUsers && r.pageViews == rows[i].pageViews
      && r.totalRevenue == rows[i].totalRevenue && r.transactions == rows[i].transactions
      && r.averageOrderValue == rows[i].averageOrderValue && r.conversionRate == rows[i].conversionRate
      && r.itemsSold == stored.itemsSold && r.bounceRate == stored.bounceRate
      && r.uniquePurchases == stored.uniquePurchases && r.viewItemEvents == stored.viewItemEvents
      && r.addToCartEvents == stored.addToCartEvents && r.beginCheckoutEvents == stored.beginCheckoutEvents
  {
    UpsertAllAt(m, rows, DailyKey, MergeDaily, rows[i].date);
  }

  /** Upserting an existing channel overwrites the counters and revenue and keeps the campaign. */
  lemma TrafficUpsertColumns(m: map<ChannelKey, TrafficRow>, rows: seq<TrafficRow>, i: nat)
    requires DistinctKeys(rows, RowChannel) && i < |rows| && RowChannel(rows[i]) in m
    ensures RowChannel(rows[i]) in UpsertAll(m, rows, RowChannel, MergeTraffic)
    ensures var stored := m[RowChannel(rows[i])];
      var r := UpsertAll(m, rows, RowChannel, MergeTraffic)[RowChannel(rows[i])];
      r.sessions == rows[i].sessions && r.users == rows[i].users && r.pageViews == rows[i].pageViews
      && r.transactions == rows[i].transactions && r.revenue == rows[i].revenue
      && r.conversionRate == rows[i].conversionRate && r.campaign == stored.campaign
  {
    UpsertAllAt(m, rows, RowChannel, MergeTraffic, RowChannel(rows[i]));
  }

  /** Upserting an existing item overwrites the counters and keeps name, category, checkouts and refunds. */
  lemma ProductUpsertColumns(m: map<ItemKey, ProductRow>, rows: seq<ProductRow>, i: nat)
    requires DistinctKeys(rows, RowItem) && i < |rows| && RowItem(rows[i]) in m
    ensures RowItem(rows[i]) in UpsertAll(m, rows, RowItem, MergeProduct)
    ensures var stored := m[RowItem(rows[i])];
      var r := UpsertAll(m, rows, RowItem, MergeProduct)[RowItem(rows[i])];
      r.views == rows[i].views && r.addToCarts == rows[i].addToCarts && r.purchases == rows[i].purchases
      && r.revenue == rows[i].revenue && r.quantitySold == rows[i].quantitySold
      && r.itemName == stored.itemName && r.itemCategory == stored.itemCategory
      && r.checkouts == stored.checkouts && r.refundAmount == stored.refundAmount
  {
    UpsertAllAt(m, rows, RowItem, MergeProduct, RowItem(rows[i]));
  }

  /** The loop of single-row upserts. */
  method Upserts<K, V>(m: map<K, V>, rows: seq<V>, keyOf: V -> K, merge: (V, V) -> V) returns (m': map<K, V>)
    ensures m' == UpsertAll(m, rows, keyOf, merge)
  {
    m' := m;
    for i := 0 to |rows|
      invariant m' == UpsertAll(m, rows[..i], keyOf, merge)
    {
      assert rows[..i + 1][..i] == rows[..i];
      var r := rows[i];
      if keyOf(r) in m' {
        m' := m'[keyOf(r) := merge(m'[keyOf(r)], r)];
      } else {
        m' := m'[keyOf(r) := r];
      }
    }
    assert rows[..|rows|] == rows;
  }

  const BatchSize: nat := 500

  /** The raw-event insert, 500 rows per executemany: batching does not change what is appended. */
  method AppendBatches(raw: seq<Event>, events: seq<Event>) returns (raw': seq<Event>)
    ensures raw' == raw + events
  {
    raw' := raw;
    var i := 0;
    while i < |events|
      invariant 0 <= i <= |events|
      invariant raw' == raw + events[..i]
    {
      var end := if i + BatchSize < |events| then i + BatchSize else |events|;
      assert events[..end] == events[..i] + events[i..end];
      raw' := raw' + events[i..end];
      i := end;
    }
    assert events[..i] == events;
  }

  // ---------------------------------------------------------------------
  // Run records, stages and the outcome of a load
  // ---------------------------------------------------------------------

  datatype RunStatus = Running | Completed | Failed

  /** A row of etl_runs; its run id is its position. */
  datatype RunRecord = RunRecord(status: RunStatus, rowsProcessed: nat, errorMessage: Option<string>)

  /** The persisted state: the three metric tables, raw_events and etl_runs. */
  datatype Tables = Tables(
    daily: map<Date, DailyRow>, traffic: map<ChannelKey, TrafficRow>, products: map<ItemKey, ProductRow>,
    rawEvents: seq<Event>, runs: seq<RunRecord>)

  /** The steps of load_data, in order; each can raise. */
  datatype Stage = OpenRun | InsertRaw | UpsertDaily | UpsertTraffic | UpsertProduct | RefreshView | CompleteRun

  /** The one failure injected into a load: the stage whose statement or commit raises, and the message. */
  datatype Fault = Fault(stage: Stage, message: string)

  datatype LoadResult = Loaded | Raised(message: string)

  /** A fault strikes unless it names the raw-event stage of a load with no events, which executes nothing. */
  predicate Strikes(fault: Option<Fault>, out: Output) {
    fault.Some? && (fault.value.stage != InsertRaw || out.events != [])
  }

  /** How many of the four data stages (raw events, daily, traffic, product) come before `s`. */
  function DataStagesBefore(s: Stage): nat {
    match s
    case OpenRun => 0
    case InsertRaw => 0
    case UpsertDaily => 1
    case UpsertTraffic => 2
    case UpsertProduct => 3
    case RefreshView => 4
    case CompleteRun => 4
  }

  /** The state after the first `n` data stages have run. */
  function Applied(t: Tables, out: Output, n: nat): Tables {
    var t1 := if n >= 1 then t.(rawEvents := t.rawEvents + out.events) else t;
    var t2 := if n >= 2 then t1.(daily := UpsertAll(t1.daily, out.daily, DailyKey, MergeDaily)) else t1;
    var t3 := if n >= 3 then t2.(traffic := UpsertAll(t2.traffic, out.traffic, RowChannel, MergeTraffic)) else t2;
    if n >= 4 then t3.(products := UpsertAll(t3.products, out.products, RowItem, MergeProduct)) else t3
  }

  /** The tables after `n` data stages, field by field; the run ledger is untouched. */
  lemma AppliedTables(t: Tables, out: Output, n: nat)
    ensures var a := Applied(t, out, n);
      a.runs == t.runs
      && a.rawEvents == (if n >= 1 then t.rawEvents + out.events else t.rawEvents)
      && a.daily == (if n >= 2 then UpsertAll(t.daily, out.daily, DailyKey, MergeDaily) else t.daily)
      && a.traffic == (if n >= 3 then UpsertAll(t.traffic, out.traffic, RowChannel, MergeTraffic) else t.traffic)
      && a.products == (if n >= 4 then UpsertAll(t.products, out.products, RowItem, MergeProduct) else t.products)
  {
  }

  /**
   * Whether some commit precedes a failure at `s` (after the run record was
   * inserted). As written, the first commit follows the raw events when there
   * are any and the daily upserts otherwise; committing the run record at once
   * makes it always so.
   */
  predicate CommittedBefore(s: Stage, out: Output, commitRunAtOnce: bool) {
    commitRunAtOnce || DataStagesBefore(s) >= 2 || (DataStagesBefore(s) == 1 && out.events != [])
  }

  /** The UPDATE of the except branch; it matches no row when the run record is not there. */
  function MarkFailed(t: Tables, id: nat, message: string): (r: Tables)
    ensures r.rawEvents == t.rawEvents && r.daily == t.daily && r.traffic == t.traffic && r.products == t.products
    ensures |r.runs| == |t.runs| && forall j :: 0 <= j < |t.runs| && j != id ==> r.runs[j] == t.runs[j]
    ensures id < |t.runs| ==> r.runs[id] == RunRecord(Failed, t.runs[id].rowsProcessed, Some(message))
  {
    if id < |t.runs| then t.(runs := t.runs[id := RunRecord(Failed, t.runs[id].rowsProcessed, Some(message))]) else t
  }

  function OpenedRun(t: Tables): Tables {
    t.(runs := t.runs + [RunRecord(Running, 0, None)])
  }

  /** The committed state after load_data and what it returns or raises. */
  function Outcome(t: Tables, out: Output, fault: Option<Fault>, commitRunAtOnce: bool): (Tables, LoadResult) {
    if Strikes(fault, out) && fault.value.stage == OpenRun then (t, Raised(fault.value.message))
    else
      var id := |t.runs|;
      var started := OpenedRun(t);
      if !Strikes(fault, out) then
        var done := Applied(started, out, 4);
        (done.(runs := done.runs[id := RunRecord(Completed, |out.events|, None)]), Loaded)
      else
        var s := fault.value.stage;
        var committed := if CommittedBefore(s, out, commitRunAtOnce) then Applied(started, out, DataStagesBefore(s)) else t;
        (MarkFailed(committed, id, fault.value.message), Raised(fault.value.message))
  }

  // ---------------------------------------------------------------------
  // The database
  // ---------------------------------------------------------------------

  class Database {
    var daily: map<Date, DailyRow>
    var traffic: map<ChannelKey, TrafficRow>
    var products: map<ItemKey, ProductRow>
    var rawEvents: seq<Event>
    var runs: seq<RunRecord>

    constructor (t: Tables)
      ensures State() == t
    {
      daily, traffic, products, rawEvents, runs := t.daily, t.traffic, t.products, t.rawEvents, t.runs;
    }

    function State(): Tables
      reads this
    {
      Tables(daily, traffic, products, rawEvents, runs)
    }

    /** conn.commit(): the open transaction becomes the committed state. */
    method Commit(t: Tables)
      modifies this
      ensures State() == t
    {
      daily, traffic, products, rawEvents, runs := t.daily, t.traffic, t.products, t.rawEvents, t.runs;
    }

    /** The except branch: roll back, mark run `id` failed with the message, commit. */
    method Abort(id: nat, message: string)
      modifies this
      ensures State() == MarkFailed(old(State()), id, message)
    {
      if id < |runs| {
        runs := runs[id := RunRecord(Failed, runs[id].rowsProcessed, Some(message))];
      }
    }

    /**
     * The body of the try block, from the raw events to the completed run record;
     * `pending` is the open transaction, holding the inserted run record `id`.
     */
    method RunStages(ghost t: Tables, pending: Tables, id: nat, out: Output, fault: Option<Fault>,
                     ghost commitRunAtOnce: bool)
      returns (r: LoadResult)
      modifies this
      requires id == |t.runs| && pending == OpenedRun(t)
      requires !(Strikes(fault, out) && fault.value.stage == OpenRun)
      requires State() == if commitRunAtOnce then pending else t
      ensures (State(), r) == Outcome(t, out, fault, commitRunAtOnce)
    {
      var p := pending;
      if out.events != [] {
        var raw := AppendBatches(p.rawEvents, out.events);
        if fault.Some? && fault.value.stage == InsertRaw {
          Abort(id, fault.value.message);
          return Raised(fault.value.message);
        }
        p := p.(rawEvents := raw);
        Commit(p);
      }
      assert p == Applied(pending, out, 1);
      var daily' := Upserts(p.daily, out.daily, DailyKey, MergeDaily);
      if fault.Some? && fault.value.stage == UpsertDaily {
        Abort(id, fault.value.message);
        return Raised(fault.value.message);
      }
      p := p.(daily := daily');
      Commit(p);
      var traffic' := Upserts(p.traffic, out.traffic, RowChannel, MergeTraffic);
      if fault.Some? && fault.value.stage == UpsertTraffic {
        Abort(id, fault.value.message);
        return Raised(fault.value.message);
      }
      p := p.(traffic := traffic');
      Commit(p);
      var products' := Upserts(p.products, out.products, RowItem, MergeProduct);
      if fault.Some? && fault.value.stage == UpsertProduct {
        Abort(id, fault.value.message);
        return Raised(fault.value.message);
      }
      p := p.(products := products');
      Commit(p);
      assert p == Applied(pending, out, 4);
      if fault.Some? && fault.value.stage == RefreshView {
        Abort(id, fault.value.message);
        return Raised(fault.value.message);
      }
      Commit(p);
      p := p.(runs := p.runs[id := RunRecord(Completed, |out.events|, None)]);
      if fault.Some? && fault.value.stage == CompleteRun {
        Abort(id, fault.value.message);
        return Raised(fault.value.message);
      }
      Commit(p);
      return Loaded;
    }

    /**
     * load_data as written: the run record is inserted in the open transaction
     * and first committed together with the raw events (or the daily rows).
     */
    method LoadAsWritten(out: Output, fault: Option<Fault>) returns (r: LoadResult)
      modifies this
      ensures (State(), r) == Outcome(old(State()), out, fault, false)
    {
      if fault.Some? && fault.value.stage == OpenRun {
        return Raised(fault.value.message);
      }
      ghost var t := State();
      var id := |runs|;
      var pending := OpenedRun(State());
      r := RunStages(t, pending, id, out, fault, false);
    }

    /** load_data with the run record committed as soon as it is inserted. */
    method Load(out: Output, fault: Option<Fault>) returns (r: LoadResult)
      modifies this
      ensures (State(), r) == Outcome(old(State()), out, fault, true)
    {
      if fault.Some? && fault.value.stage == OpenRun {
        return Raised(fault.value.message);
      }
      ghost var t := State();
      var id := |runs|;
      var pending := OpenedRun(State());
      Commit(pending);
      r := RunStages(t, pending, id, out, fault, true);
    }
  }

  // ---------------------------------------------------------------------
  // What a load guarantees
  // ---------------------------------------------------------------------

  /**
   * With the run record committed at once, every load that gets past the insert
   * leaves exactly one new run record, never `running`: `completed` with the
   * number of events when it returns, `failed` with the message when it raises.
   * Older records are untouched.
   */
  lemma RunRecordClosed(t: Tables, out: Output, fault: Option<Fault>)
    ensures var (t', r) := Outcome(t, out, fault, true);
      if Strikes(fault, out) && fault.value.stage == OpenRun then t' == t && r == Raised(fault.value.message)
      else
        |t'.runs| == |t.runs| + 1 && t'.runs[..|t.runs|] == t.runs
        && t'.runs[|t.runs|].status != Running
        && (r == Loaded <==> t'.runs[|t.runs|] == RunRecord(Completed, |out.events|, None))
        && (r.Raised? ==> t'.runs[|t.runs|] == RunRecord(Failed, 0, Some(r.message)))
  {
    var (t', r) := Outcome(t, out, fault, true);
    if !(Strikes(fault, out) && fault.value.stage == OpenRun) {
      assert Applied(OpenedRun(t), out, 4).runs == t.runs + [RunRecord(Running, 0, None)];
      if Strikes(fault, out) {
        var s := fault.value.stage;
        assert Applied(OpenedRun(t), out, DataStagesBefore(s)).runs == t.runs + [RunRecord(Running, 0, None)];
      }
    }
  }

  /**
   * In either commit mode a load never leaves a `running` record behind: a
   * return leaves one new `completed` record with the number of events, and a
   * raise leaves either the tables as they were or one new `failed` record with
   * the message. Older records are untouched.
   */
  lemma RunRecordSettles(t: Tables, out: Output, fault: Option<Fault>, commitRunAtOnce: bool)
    ensures var (t', r) := Outcome(t, out, fault, commitRunAtOnce);
      (r == Loaded ==> |t'.runs| == |t.runs| + 1 && t'.runs[..|t.runs|] == t.runs
                       && t'.runs[|t.runs|] == RunRecord(Completed, |out.events|, None))
      && (r.Raised? ==> t' == t || (|t'.runs| == |t.runs| + 1 && t'.runs[..|t.runs|] == t.runs
                                   && t'.runs[|t.runs|] == RunRecord(Failed, 0, Some(r.message))))
  {
    if !(Strikes(fault, out) && fault.value.stage == OpenRun) {
      assert Applied(OpenedRun(t), out, 4).runs == t.runs + [RunRecord(Running, 0, None)];
      if Strikes(fault, out) {
        var s := fault.value.stage;
        assert Applied(OpenedRun(t), out, DataStagesBefore(s)).runs == t.runs + [RunRecord(Running, 0, None)];
        if !CommittedBefore(s, out, commitRunAtOnce) {
          assert MarkFailed(t, |t.runs|, fault.value.message) == t;
        }
      }
    }
  }

  /**
   * Stages committed before a failure stay committed: in either commit mode, a
   * failure at stage `s` keeps exactly the data stages before it, and none
   * after. As written, a failure before the first commit keeps nothing, which
   * is what the data stages before it (none, or raw events of an empty load)
   * amount to.
   */
  lemma FailureKeepsEarlierStages(t: Tables, out: Output, s: Stage, message: string, commitRunAtOnce: bool)
    requires s != OpenRun && (s != InsertRaw || out.events != [])
    ensures var t' := Outcome(t, out, Some(Fault(s, message)), commitRunAtOnce).0;
      t'.rawEvents == (if DataStagesBefore(s) >= 1 then t.rawEvents + out.events else t.rawEvents)
      && t'.daily == (if DataStagesBefore(s) >= 2 then UpsertAll(t.daily, out.daily, DailyKey, MergeDaily) else t.daily)
      && t'.traffic == (if DataStagesBefore(s) >= 3 then UpsertAll(t.traffic, out.traffic, RowChannel, MergeTraffic) else t.traffic)
      && t'.products == (if DataStagesBefore(s) >= 4 then UpsertAll(t.products, out.products, RowItem, MergeProduct) else t.products)
  {
    if CommittedBefore(s, out, commitRunAtOnce) {
      var committed := Applied(OpenedRun(t), out, DataStagesBefore(s));
      AppliedTables(OpenedRun(t), out, DataStagesBefore(s));
      assert Outcome(t, out, Some(Fault(s, message)), commitRunAtOnce).0 == MarkFailed(committed, |t.runs|, message);
    } else {
      assert Outcome(t, out, Some(Fault(s, message)), commitRunAtOnce).0 == MarkFailed(t, |t.runs|, message) == t;
      if DataStagesBefore(s) >= 1 {
        assert out.events == [];
        assert t.rawEvents + out.events == t.rawEvents;
      }
    }
  }

  /**
   * As written, a failure before the first commit (while inserting the raw
   * events, or in the daily upserts of a load without events) rolls back the
   * `running` record with everything else, so the failure UPDATE matches no
   * row: the run leaves no record at all.
   */
  lemma RunRecordLostAsWritten(t: Tables, out: Output, s: Stage, message: string)
    requires (s == InsertRaw && out.events != []) || (s == UpsertDaily && out.events == [])
    ensures Outcome(t, out, Some(Fault(s, message)), false) == (t, Raised(message))
  {
  }

  /**
   * Loading the same output twice leaves the metric tables as one load does (the
   * rows of one output have distinct keys); raw events are appended again.
   */
  lemma ReloadIsIdempotent(t: Tables, out: Output, commitRunAtOnce: bool)
    requires DistinctKeys(out.daily, DailyKey) && DistinctKeys(out.traffic, RowChannel) && DistinctKeys(out.products, RowItem)
    ensures var once := Outcome(t, out, None, commitRunAtOnce).0;
      var twice := Outcome(once, out, None, commitRunAtOnce).0;
      twice.daily == once.daily && twice.traffic == once.traffic && twice.products == once.products
      && twice.rawEvents == once.rawEvents + out.events && |twice.runs| == |once.runs| + 1
  {
    UpsertAllIdempotent(t.daily, out.daily, DailyKey, MergeDaily);
    UpsertAllIdempotent(t.traffic, out.traffic, RowChannel, MergeTraffic);
    UpsertAllIdempotent(t.products, out.products, RowItem, MergeProduct);
  }
}
