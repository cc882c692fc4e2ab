/**
 * Event reconstruction (src/etl.py, transform_data up to the aggregation).
 *
 * Three columns are forward-filled in row order, rows still without an event
 * name are dropped, and every remaining row with a user id becomes one event.
 */
module Reconstruct {
  import opened Wrappers
  import opened Normalize
  import opened Dates

  /** One raw row of the flattened event export, restricted to the columns the transform reads. */
  datatype Row = Row(
    eventName: Cell, eventTimestamp: Cell, eventDate: Cell, userPseudoId: Cell,
    source: Cell, medium: Cell,
    deviceCategory: Cell, browser: Cell, operatingSystem: Cell,
    country: Cell, city: Cell,
    transactionId: Cell, purchaseRevenue: Cell,
    itemId: Cell, itemName: Cell, itemCategory: Cell, itemQuantity: Cell, itemRevenue: Cell)

  /** One data frame: its rows in file order. */
  type Table = seq<Row>

  function EventNameOf(r: Row): Cell { r.eventName }
  function UserOf(r: Row): Cell { r.userPseudoId }
  function TimestampOf(r: Row): Cell { r.eventTimestamp }

  function Column(rows: Table, f: Row -> Cell): (col: seq<Cell>)
    ensures |col| == |rows| && forall i :: 0 <= i < |rows| ==> col[i] == f(rows[i])
  {
    seq(|rows|, i requires 0 <= i < |rows| => f(rows[i]))
  }

  // ---------------------------------------------------------------------
  // Forward fill
  // ---------------------------------------------------------------------

  /** Series.ffill(): each missing cell takes the last value seen so far (`carry` before the first). */
  function FillForward(carry: Cell, col: seq<Cell>): (r: seq<Cell>)
    ensures |r| == |col|
    decreases |col|
  {
    if col == [] then []
    else
      var c := if col[0].Some? then col[0] else carry;
      [c] + FillForward(c, col[1..])
  }

  /** The last present value of `s`, searching backwards. */
  function LastPresent(s: seq<Cell>): Cell {
    if s == [] then None
    else if s[|s| - 1].Some? then s[|s| - 1]
    else LastPresent(s[..|s| - 1])
  }

  /** `v` is the nearest present value of `col` at or before index `i` (None when there is none). */
  ghost predicate NearestPreceding(col: seq<Cell>, i: nat, v: Cell)
    requires i < |col|
  {
    if v.None? then forall j :: 0 <= j <= i ==> col[j].None?
    else exists j :: 0 <= j <= i && col[j] == v && forall k :: j < k <= i ==> col[k].None?
  }

  lemma {:induction false} LastPresentAppend(s: seq<Cell>, t: seq<Cell>)
    ensures LastPresent(s + t) == if LastPresent(t).Some? then LastPresent(t) else LastPresent(s)
    decreases |t|
  {
    if t == [] {
      assert s + t == s;
    } else {
      var u := s + t;
      assert u[..|u| - 1] == s + t[..|t| - 1];
      LastPresentAppend(s, t[..|t| - 1]);
    }
  }

  lemma LastPresentPair(a: Cell, b: Cell)
    ensures LastPresent([a, b]) == (if b.Some? then b else a)
    ensures LastPresent([a]) == a
  {
    assert LastPresent([a]) == a by {
      assert [a][..0] == [];
    }
    if b.None? {
      assert [a, b][..1] == [a];
    }
  }

  lemma {:induction false} FillIsLastPresent(carry: Cell, col: seq<Cell>, i: nat)
    requires i < |col|
    ensures FillForward(carry, col)[i] == LastPresent([carry] + col[..i + 1])
    decreases |col|
  {
    var c := if col[0].Some? then col[0] else carry;
    LastPresentPair(carry, col[0]);
    if i == 0 {
      assert [carry] + col[..1] == [carry, col[0]];
    } else {
      FillIsLastPresent(c, col[1..], i - 1);
      var x := col[1..][..i];
      assert [carry] + col[..i + 1] == [carry, col[0]] + x;
      LastPresentAppend([carry, col[0]], x);
      LastPresentAppend([c], x);
      LastPresentPair(c, c);
    }
  }

  lemma {:induction false} LastPresentIsNearest(s: seq<Cell>)
    ensures LastPresent(s).None? ==> forall k :: 0 <= k < |s| ==> s[k].None?
    ensures LastPresent(s).Some? ==>
      exists j :: 0 <= j < |s| && s[j] == LastPresent(s) && forall k :: j < k < |s| ==> s[k].None?
    decreases |s|
  {
    if s != [] && s[|s| - 1].None? {
      var init := s[..|s| - 1];
      LastPresentIsNearest(init);
      if LastPresent(s).Some? {
        var j :| 0 <= j < |init| && init[j] == LastPresent(init) && forall k :: j < k < |init| ==> init[k].None?;
        assert s[j] == LastPresent(s);
      }
    }
  }

  /** Forward fill gives every cell the nearest present value at or before it. */
  lemma FillForwardIsNearest(col: seq<Cell>, i: nat)
    requires i < |col|
    ensures NearestPreceding(col, i, FillForward(None, col)[i])
  {
    var s := [None] + col[..i + 1];
    assert |s| == i + 2;
    assert forall j :: 0 <= j <= i ==> s[j + 1] == col[j];
    FillIsLastPresent(None, col, i);
    LastPresentIsNearest(s);
    var v := FillForward(None, col)[i];
    assert v == LastPresent(s);
    if v.Some? {
      var j :| 0 <= j < |s| && s[j] == v && forall k :: j < k < |s| ==> s[k].None?;
      assert j > 0;
      assert col[j - 1] == v;
      assert forall k :: j - 1 < k <= i ==> col[k].None?;
    }
  }

  /** The rows after the three forward fills of transform_data. */
  function Filled(rows: Table): (r: Table)
    ensures |r| == |rows|
  {
    var names := FillForward(None, Column(rows, EventNameOf));
    var users := FillForward(None, Column(rows, UserOf));
    var stamps := FillForward(None, Column(rows, TimestampOf));
    seq(|rows|, i requires 0 <= i < |rows| =>
      rows[i].(eventName := names[i], userPseudoId := users[i], eventTimestamp := stamps[i]))
  }

  /**
   * After the fill, a row's event name, user id and timestamp are the nearest
   * present values at or before it, each column on its own; no other column changes.
   */
  lemma FilledIsNearestPreceding(rows: Table, i: nat)
    requires i < |rows|
    ensures NearestPreceding(Column(rows, EventNameOf), i, Filled(rows)[i].eventName)
    ensures NearestPreceding(Column(rows, UserOf), i, Filled(rows)[i].userPseudoId)
    ensures NearestPreceding(Column(rows, TimestampOf), i, Filled(rows)[i].eventTimestamp)
    ensures Filled(rows)[i].(eventName := rows[i].eventName, userPseudoId := rows[i].userPseudoId,
                             eventTimestamp := rows[i].eventTimestamp) == rows[i]
  {
    FillForwardIsNearest(Column(rows, EventNameOf), i);
    FillForwardIsNearest(Column(rows, UserOf), i);
    FillForwardIsNearest(Column(rows, TimestampOf), i);
  }

  // ---------------------------------------------------------------------
  // Dropping rows without an event name
  // ---------------------------------------------------------------------

  /** df[df['event_name'].notna()]: the rows that have an event name, in order. */
  function Named(rows: Table): (r: Table)
    ensures |r| <= |rows|
    ensures forall i :: 0 <= i < |r| ==> r[i].eventName.Some?
    ensures forall i :: 0 <= i < |rows| && rows[i].eventName.Some? ==> rows[i] in r
    ensures (forall i :: 0 <= i < |rows| ==> rows[i].eventName.Some?) ==> r == rows
  {
    if rows == [] then []
    else
      var last := rows[|rows| - 1];
      Named(rows[..|rows| - 1]) + (if last.eventName.Some? then [last] else [])
  }

  /** The rows the aggregation loop visits. */
  function Retained(rows: Table): (r: Table)
    ensures |r| <= |rows| && forall i :: 0 <= i < |r| ==> r[i].eventName.Some?
  {
    Named(Filled(rows))
  }

  /** Index of the first row with a present event name (|rows| when there is none). */
  function FirstNamed(rows: Table): (p: nat)
    ensures p <= |rows|
    ensures forall k :: 0 <= k < p ==> rows[k].eventName.None?
    ensures p < |rows| ==> rows[p].eventName.Some?
  {
    if rows == [] then 0
    else if rows[0].eventName.Some? then 0
    else 1 + FirstNamed(rows[1..])
  }

  lemma {:induction false} NamedOfSplit(rows: Table, p: nat)
    requires p <= |rows|
    requires forall k :: 0 <= k < p ==> rows[k].eventName.None?
    requires forall k :: p <= k < |rows| ==> rows[k].eventName.Some?
    ensures Named(rows) == rows[p..]
    decreases |rows|
  {
    if rows != [] {
      var init := rows[..|rows| - 1];
      if p == |rows| {
        NamedOfSplit(init, p - 1);
      } else {
        NamedOfSplit(init, p);
        assert rows[p..] == init[p..] + [rows[|rows| - 1]];
      }
    }
  }

  /**
   * Exactly the rows before the first row with an event name are dropped:
   * every later row is kept, with its name filled from the nearest one before it.
   */
  lemma RetainedIsSuffix(rows: Table)
    ensures Retained(rows) == Filled(rows)[FirstNamed(rows)..]
  {
    var p := FirstNamed(rows);
    var fs := Filled(rows);
    var col := Column(rows, EventNameOf);
    forall k | 0 <= k < |fs|
      ensures fs[k].eventName.Some? <==> p <= k
    {
      FillForwardIsNearest(col, k);
      if p <= k {
        assert col[p].Some?;
      }
    }
    NamedOfSplit(fs, p);
  }

  // ---------------------------------------------------------------------
  // From a kept row to an event
  // ---------------------------------------------------------------------

  /** The raw event record appended to all_events for one row. */
  datatype Event = Event(
    name: string, timestamp: Cell, date: Date, user: string, session: string,
    country: string, city: string, deviceCategory: string, browser: string, os: string,
    source: string, medium: string,
    itemId: Option<string>, itemName: Option<string>, itemCategory: Option<string>,
    itemRevenue: Option<real>, itemQuantity: int,
    transactionId: Option<string>, transactionRevenue: Option<real>)

  /** str() of the filled timestamp; a missing one is a float NaN and prints as 'nan'. */
  function TimestampText(ts: Cell): string {
    match ts
    case None => "nan"
    case Some(t) => t
  }

  /** Python's s[:n]. */
  function Prefix(s: string, n: nat): (p: string)
    ensures |p| <= n && |p| <= |s| && p == s[..|p|]
    ensures |s| >= n ==> |p| == n
    ensures |s| <= n ==> p == s
  {
    if |s| <= n then s else s[..n]
  }

  /** The synthetic session id: the user id, '_', and the first 10 characters of the timestamp text. */
  function SessionId(user: string, ts: Cell): (s: string)
    ensures |user| + 1 <= |s| <= |user| + 11 && s[..|user| + 1] == user + "_"
    ensures ts.Some? && |ts.value| >= 10 ==> s[|user| + 1..] == ts.value[..10]
  {
    user + "_" + Prefix(TimestampText(ts), 10)
  }

  /** The text int() reads for the quantity: the cleaned cell, or '1' when it is absent. */
  function QuantityText(row: Row): string {
    CleanVal(row.itemQuantity).GetOr("1")
  }

  datatype Derived = Skip | Raise(message: string) | Keep(event: Event)

  /**
   * One iteration of the row loop up to the aggregation: a row whose cleaned
   * user id is absent is skipped, a quantity int() cannot read raises, and
   * every other row becomes one event.
   */
  function Derive(row: Row, today: Date): (d: Derived)
    ensures d.Skip? <==> CleanVal(row.userPseudoId).None?
    ensures d.Raise? <==> CleanVal(row.userPseudoId).Some? && ParseInt(QuantityText(row)).None?
    ensures d.Raise? ==> d.message == InvalidIntMessage(QuantityText(row))
  {
    match CleanVal(row.userPseudoId)
    case None => Skip
    case Some(user) =>
      match ParseInt(QuantityText(row))
      case None => Raise(InvalidIntMessage(QuantityText(row)))
      case Some(quantity) => Keep(MakeEvent(row, user, quantity, today))
  }

  /** The event record of a row with a present user id and a readable quantity. */
  function MakeEvent(row: Row, user: string, quantity: int, today: Date): (e: Event)
    ensures e.user == user && e.itemQuantity == quantity
    ensures e.session == SessionId(user, row.eventTimestamp)
    ensures e.date == EventDate(row.eventDate, today)
  {
    Event(
      name := CleanVal(row.eventName).GetOr("unknown"),
      timestamp := row.eventTimestamp,
      date := EventDate(row.eventDate, today),
      user := user,
      session := SessionId(user, row.eventTimestamp),
      country := CleanVal(row.country).GetOr("(none)"),
      city := CleanVal(row.city).GetOr("(none)"),
      deviceCategory := CleanVal(row.deviceCategory).GetOr("(none)"),
      browser := CleanVal(row.browser).GetOr("(none)"),
      os := CleanVal(row.operatingSystem).GetOr("(none)"),
      source := CleanVal(row.source).GetOr("(none)"),
      medium := CleanVal(row.medium).GetOr("(none)"),
      itemId := CleanVal(row.itemId),
      itemName := CleanVal(row.itemName),
      itemCategory := CleanVal(row.itemCategory),
      itemRevenue := CleanNum(row.itemRevenue),
      itemQuantity := quantity,
      transactionId := CleanVal(row.transactionId),
      transactionRevenue := CleanNum(row.purchaseRevenue))
  }

  /** Every event's session id starts with its user id and '_', and its user id is a present clean value. */
  lemma DerivedSession(row: Row, today: Date)
    requires Derive(row, today).Keep?
    ensures var e := Derive(row, today).event;
      e.user != [] && CleanVal(Some(e.user)) == Some(e.user)
      && |e.session| > |e.user| && e.session[..|e.user| + 1] == e.user + "_"
  {
    CleanValIdempotent(row.userPseudoId);
  }

  /** A quantity that is absent or blank counts as 1; a present integer counts as itself. */
  lemma QuantityDefault(row: Row, today: Date)
    requires CleanVal(row.userPseudoId).Some?
    ensures CleanVal(row.itemQuantity).None? ==> Derive(row, today).Keep? && Derive(row, today).event.itemQuantity == 1
    ensures forall n: int :: row.itemQuantity == Some(IntText(n)) ==>
              Derive(row, today).Keep? && Derive(row, today).event.itemQuantity == n
  {
    ParseIntRoundTrip(1);
    assert IntText(1) == "1";
    forall n: int | row.itemQuantity == Some(IntText(n))
      ensures Derive(row, today).Keep? && Derive(row, today).event.itemQuantity == n
    {
      CleanValOfIntText(n);
      ParseIntRoundTrip(n);
    }
  }

  /** The outcome of the loop body for every row, in row order. */
  function Derivations(rows: Table, today: Date): (ds: seq<Derived>)
    ensures |ds| == |rows| && forall i :: 0 <= i < |rows| ==> ds[i] == Derive(rows[i], today)
  {
    seq(|rows|, i requires 0 <= i < |rows| => Derive(rows[i], today))
  }

  /**
   * Running the loop over the per-row outcomes: the events in order, or the
   * first error raised.
   */
  function Collect(ds: seq<Derived>): Result<seq<Event>, string> {
    if ds == [] then Success([])
    else
      match Collect(ds[..|ds| - 1])
      case Failure(m) => Failure(m)
      case Success(evs) =>
        match ds[|ds| - 1]
        case Skip => Success(evs)
        case Raise(m) => Failure(m)
        case Keep(e) => Success(evs + [e])
  }

  /** The events of the row loop over `rows`, or the error of the first row that raises. */
  function Events(rows: Table, today: Date): Result<seq<Event>, string> {
    Collect(Derivations(rows, today))
  }

  /** Number of outcomes that produce an event. */
  function KeepCount(ds: seq<Derived>): nat {
    if ds == [] then 0 else KeepCount(ds[..|ds| - 1]) + (if ds[|ds| - 1].Keep? then 1 else 0)
  }

  /** The collected events are exactly the kept ones, in order. */
  lemma {:induction false} CollectKept(ds: seq<Derived>)
    requires Collect(ds).Success?
    ensures |Collect(ds).value| == KeepCount(ds)
    ensures forall i :: 0 <= i < |ds| ==> !ds[i].Raise?
    decreases |ds|
  {
    if ds != [] {
      var init := ds[..|ds| - 1];
      CollectKept(init);
      forall i | 0 <= i < |ds|
        ensures !ds[i].Raise?
      {
        if i < |init| {
          assert ds[i] == init[i];
        }
      }
    }
  }

  /** The loop raises exactly when some outcome raises. */
  lemma {:induction false} CollectFailureIff(ds: seq<Derived>)
    ensures Collect(ds).Failure? <==> exists i :: 0 <= i < |ds| && ds[i].Raise?
    decreases |ds|
  {
    if ds != [] {
      var init := ds[..|ds| - 1];
      CollectFailureIff(init);
      if Collect(init).Failure? {
        var i :| 0 <= i < |init| && init[i].Raise?;
        assert ds[i] == init[i];
      } else if !ds[|ds| - 1].Raise? {
        forall i | 0 <= i < |ds|
          ensures !ds[i].Raise?
        {
          if i < |init| {
            assert ds[i] == init[i];
          }
        }
      }
    }
  }

  /** When the loop raises, the message is that of the first outcome that raises. */
  lemma {:induction false} CollectFailureFirst(ds: seq<Derived>)
    requires Collect(ds).Failure?
    ensures exists i :: (0 <= i < |ds| && ds[i].Raise? && Collect(ds).error == ds[i].message
      && forall j :: 0 <= j < i ==> !ds[j].Raise?)
    decreases |ds|
  {
    var init := ds[..|ds| - 1];
    if Collect(init).Failure? {
      CollectFailureFirst(init);
      var i :| 0 <= i < |init| && init[i].Raise? && Collect(init).error == init[i].message
        && forall j :: 0 <= j < i ==> !init[j].Raise?;
      assert ds[i] == init[i];
      forall j | 0 <= j < i
        ensures !ds[j].Raise?
      {
        assert ds[j] == init[j];
      }
    } else {
      CollectFailureIff(init);
      forall j | 0 <= j < |ds| - 1
        ensures !ds[j].Raise?
      {
        assert ds[j] == init[j];
      }
    }
  }

  /** Once a prefix of the outcomes raises, the whole loop raises with the same message. */
  lemma {:induction false} CollectFailurePersists(ds: seq<Derived>, n: nat)
    requires n <= |ds| && Collect(ds[..n]).Failure?
    ensures Collect(ds) == Collect(ds[..n])
    decreases |ds| - n
  {
    if n < |ds| {
      assert ds[..n + 1][..n] == ds[..n];
      CollectFailurePersists(ds, n + 1);
    } else {
      assert ds[..n] == ds;
    }
  }

  /** Number of rows whose cleaned user id is present. */
  function RowsWithUser(rows: Table): nat {
    if rows == [] then 0
    else RowsWithUser(rows[..|rows| - 1]) + (if CleanVal(rows[|rows| - 1].userPseudoId).Some? then 1 else 0)
  }

  lemma {:induction false} KeepCountIsRowsWithUser(rows: Table, today: Date)
    requires forall i :: 0 <= i < |rows| ==> !Derive(rows[i], today).Raise?
    ensures KeepCount(Derivations(rows, today)) == RowsWithUser(rows)
    decreases |rows|
  {
    if rows != [] {
      var init := rows[..|rows| - 1];
      assert Derivations(rows, today)[..|rows| - 1] == Derivations(init, today);
      forall i | 0 <= i < |init|
        ensures !Derive(init[i], today).Raise?
      {
        assert init[i] == rows[i];
      }
      KeepCountIsRowsWithUser(init, today);
    }
  }

  /**
   * The row loop: it raises exactly when some row raises, with the message of
   * the first such row; otherwise it yields one event per row with a user id.
   */
  lemma EventsOutcome(rows: Table, today: Date)
    ensures Events(rows, today).Failure? <==> exists i :: 0 <= i < |rows| && Derive(rows[i], today).Raise?
    ensures Events(rows, today).Failure? ==>
      exists i :: (0 <= i < |rows| && Derive(rows[i], today).Raise?
        && Events(rows, today).error == Derive(rows[i], today).message
        && forall j :: 0 <= j < i ==> !Derive(rows[j], today).Raise?)
    ensures Events(rows, today).Success? ==> |Events(rows, today).value| == RowsWithUser(rows)
  {
    var ds := Derivations(rows, today);
    CollectFailureIff(ds);
    if Collect(ds).Failure? {
      CollectFailureFirst(ds);
    } else {
      CollectKept(ds);
      KeepCountIsRowsWithUser(rows, today);
    }
  }

  lemma DerivationsPrefix(rows: Table, n: nat, today: Date)
    requires n <= |rows|
    ensures Derivations(rows, today)[..n] == Derivations(rows[..n], today)
  {
  }

  /** One more row runs the loop body once more on the events so far. */
  lemma EventsSnoc(rows: Table, n: nat, today: Date)
    requires n < |rows|
    ensures Events(rows[..n + 1], today) ==
      match Events(rows[..n], today)
      case Failure(m) => Failure(m)
      case Success(evs) =>
        match Derive(rows[n], today)
        case Skip => Success(evs)
        case Raise(m) => Failure(m)
        case Keep(e) => Success(evs + [e])
  {
    var ds := Derivations(rows[..n + 1], today);
    assert rows[..n + 1][..n] == rows[..n];
    DerivationsPrefix(rows[..n + 1], n, today);
    assert ds[..|ds| - 1] == Derivations(rows[..n], today);
  }

  /** Once the rows up to `n` raise, the whole loop raises with the same message. */
  lemma EventsFailurePersists(rows: Table, n: nat, today: Date)
    requires n <= |rows| && Events(rows[..n], today).Failure?
    ensures Events(rows, today) == Events(rows[..n], today)
  {
    DerivationsPrefix(rows, n, today);
    CollectFailurePersists(Derivations(rows, today), n);
  }
}
