# GA4 e-commerce ETL: transform and load, modelled in Dafny

This project models the core of `src/etl.py`, the extract-transform-load job of a
GA4 e-commerce analytics dashboard. It covers:

- **Cell cleaning.** `clean_val` and `clean_num` turn a raw cell into "absent", or
  into a trimmed string or a number. Absent cells are missing cells and the null
  markers `<Other>`, `NULL`, `null`, `(not set)`, `not set`, the empty string,
  `NaN` and `nan`.
- **`transform_data`.** It does four things:
  - picks the first downloaded frame that has rows;
  - forward-fills the event name, user id and timestamp, and drops rows that
    still have no event name;
  - turns each remaining row with a user id into one event record, with its date
    key (`YYYYMMDD`, or today) and its synthetic session id (user, `_`, first ten
    characters of the timestamp);
  - folds the events into three accumulator maps (per date; per date, source and
    medium; per date and item id), then turns the maps into the daily, traffic
    and product metric lists.
- **`load_data`.** It opens a run record in `running`, appends the raw events in
  batches of 500, and upserts the three metric lists by natural key, committing
  after each stage. It then marks the run `completed` with the event count. On an
  error it rolls back, marks the run `failed` with the error message, and
  re-raises. As written, the rollback can also discard the `running` record
  itself (see "## Findings"), and then the run leaves no record at all.
- **`run_etl`.** It chains download, transform and load, and turns any exception
  into a failure report.

## How the model is organised

- **`Wrappers`:** `Option` and `Result`.
- **`Normalize`:**
  - `CleanVal` and `CleanNum`;
  - `str.strip`, `int()` and `float()` restricted to the forms the pipeline meets.
- **`Dates`:** `strptime(..., '%Y%m%d')` on an 8-character cell, with the fallback to `today`.
- **`Reconstruct`:**
  - the forward fill (`Filled`) and the name filter (`Retained`);
  - one loop iteration up to the aggregation (`Derive`, `MakeEvent`);
  - the events of a table as a fold that stops at the first row whose quantity
    `int()` cannot read (`Events`).
- **`Aggregate`:**
  - each accumulator is a function of its key's group of events (`DailyOf`,
    `TrafficOf`, `ProductOf`);
  - `Group` and `FirstSeen` keep keys in the order the loop first sees them;
  - `Tracks` is the invariant linking an accumulator map to those functions.
- **`Metrics`:** the finalisation into rows (`DailyRows`, `TrafficRows`,
  `ProductRows`) and what those rows guarantee.
- **`Transform`:** `transform_data` as the loops it is.
  - `PickFrame` is the loop over the frames.
  - `Scan` walks the rows and updates the three maps through
    `AddDaily`/`AddTraffic`/`AddProduct`.
  - `FinishDaily`/`FinishTraffic`/`FinishProduct` turn the maps into lists.
  - Each loop is proved against a declarative function (`TransformSpec`).
- **`Store`:**
  - the database is a class `Database` whose fields are the committed tables; a
    transaction is a local value, rolled back by discarding it;
  - `Outcome` states what a load leaves committed and what it returns or raises,
    for a fault injected at any stage;
  - the upserts are `UpsertAll` with the merge each `ON CONFLICT ... DO UPDATE`
    performs.
- **`Pipeline`:** `RunEtl` (over the load as written), `RunEtlCorrected` (over
  the corrected load) and the guarantees of the whole run, which `EtlOutcome`
  states for either commit mode.

### Where the model follows the code rather than the design

- **Revenue is not conserved between daily and product rows.** One might expect
  product revenue to add up to daily revenue, but the two sums use different
  columns:
  - daily and traffic revenue add `ecommerce.purchase_revenue` on every event
    that has one;
  - product revenue adds `items.item_revenue` on purchase events with an item id.

  `Metrics.RevenueConservation` proves what does hold. Each of the daily and
  traffic lists sums to the total paid revenue, and the product list sums to the
  item revenue of purchases. `Metrics.DailyAndProductRevenueDiffer` gives a
  one-event case where daily revenue is 10 and product revenue is 5.
- **The daily `transactions` column counts purchase events.** It is not the
  number of distinct transaction ids; that number is `unique_purchases`.
- **A quantity `int()` cannot read aborts the transform.** Examples are `2.0` and
  `abc`. The whole run is then reported as failed, and the database is not
  touched.

## Model

| member | source | states |
|---|---|---|
| Normalize.Trim | src/etl.py:43 | `str.strip()`: the result is a slice of the input with whitespace removed at both ends and none left at either end |
| Normalize.IsSpace | src/etl.py:43 | the characters `str.strip()` removes: Python's whitespace set |
| Normalize.CleanVal | src/etl.py:39-46 | absent exactly when the cell is missing or its trimmed text is a null marker or `nan`; otherwise the trimmed text, which is non-empty and has no edge whitespace |
| Normalize.CleanValIdempotent | src/etl.py:39-46 | cleaning an already cleaned value returns it unchanged |
| Normalize.CleanValIgnoresPadding | src/etl.py:39-46 | surrounding whitespace never changes the cleaned value |
| Normalize.CleanValOfIntText | src/etl.py:39-46 | the text of any integer survives cleaning unchanged |
| Normalize.TrimIsSlice | src/etl.py:43 | the stripped text is a slice of the input, with only whitespace cut before and after it |
| Normalize.ParseInt | src/etl.py:204 | `int()` accepts only a sign or digit followed by digits |
| Normalize.ParseFloat | src/etl.py:55 | `float()` of a decimal literal: accepted text is non-empty, and the value is negative only when the text starts with `-` |
| Normalize.InvalidIntMessage | src/etl.py:204 | the `ValueError` message of `int()` for text it cannot read |
| Normalize.ParseIntRoundTrip | src/etl.py:204 | `int()` reads back what `str()` writes, for every integer, negative ones included |
| Normalize.CleanNum | src/etl.py:49-57 | absent exactly when `clean_val` is absent or `float()` rejects the cleaned text; when present, it is `float()` of the cleaned text (never an exception) |
| Normalize.CleanNumOfInteger | src/etl.py:49-57 | a whitespace-padded integer cell reads as that number |
| Normalize.DecimalLiteral | src/etl.py:55 | `float()` of `digits.digits` is the decimal value of the literal |
| Dates.EventDate | src/etl.py:169-182 | the date key is `today` unless the cell is 8 characters that `strptime('%Y%m%d')` accepts; when it is such a cell, the key is the parsed date; a valid `today` gives a valid date |
| Dates.ParseYmd | src/etl.py:174 | `strptime('%Y%m%d')` on 8 characters: a parsed date is always a valid calendar date |
| Dates.EventDateRoundTrip | src/etl.py:169-182 | the `YYYYMMDD` text of any valid date parses back to that date |
| Dates.ParsedTextIsCompact | src/etl.py:173-174 | any 8-character text that parses is the date's `YYYYMMDD` text, or that text with the day's leading zero written as a space (the form `strptime` also accepts) |
| Reconstruct.Filled | src/etl.py:144-146 | the forward fill keeps the number of rows; `FilledIsNearestPreceding` states its cells |
| Reconstruct.FillForward | src/etl.py:144-146 | `ffill` of one column keeps its length; `FillForwardIsNearest` states each filled cell |
| Reconstruct.FillForwardIsNearest | src/etl.py:144-146 | each filled cell is the nearest present cell at or before it, or missing when there is none |
| Reconstruct.FilledIsNearestPreceding | src/etl.py:144-146 | after the fill, event name, user id and timestamp of each row are the nearest preceding present values; all other cells are unchanged |
| Reconstruct.Named | src/etl.py:150 | only rows with a present event name remain, and every row with one is kept; a table whose rows all have one is kept as it is |
| Reconstruct.Retained | src/etl.py:144-150 | the rows the loop visits are at most the downloaded rows, and all have an event name |
| Reconstruct.RetainedIsSuffix | src/etl.py:144-150 | the retained rows are exactly the filled rows from the first one with an event name on |
| Reconstruct.FirstNamed | src/etl.py:150 | the first row with an event name: every earlier row lacks one |
| Reconstruct.Prefix | src/etl.py:208 | Python's `s[:10]`: a prefix, of length 10 when the text is that long, and the whole text when it is shorter |
| Reconstruct.TimestampText | src/etl.py:208 | `str()` of the filled timestamp: its text, or `nan` for a missing one |
| Reconstruct.SessionId | src/etl.py:208 | the session id is the user id and `_`, followed by at most 10 characters, which are the first 10 of the timestamp when it has that many |
| Reconstruct.QuantityText | src/etl.py:204 | the text `int()` reads for the quantity: the cleaned cell, or `1` when it is absent; `QuantityDefault` states its values |
| Reconstruct.Derive | src/etl.py:161-234 | a row is skipped exactly when its cleaned user id is absent; it raises `int()`'s message exactly when the quantity text (default `1`) is not an integer; otherwise it yields one event |
| Reconstruct.MakeEvent | src/etl.py:161-234 | the event carries the cleaned user id, the parsed quantity, the session id `user_` plus 10 timestamp characters, and the derived date key |
| Reconstruct.DerivedSession | src/etl.py:164-208 | every event's user id is a present cleaned value, and its session id begins with that user id and `_` |
| Reconstruct.QuantityDefault | src/etl.py:204 | an absent quantity gives 1; a quantity cell holding an integer's text gives that integer |
| Reconstruct.Events | src/etl.py:159-234 | the events of the loop: the fold of the per-row outcomes, whose properties `EventsOutcome` and the `Collect` lemmas state |
| Reconstruct.CollectFailureIff | src/etl.py:159-234 | the fold fails if and only if some row raises |
| Reconstruct.CollectFailureFirst | src/etl.py:159-234 | a failure carries the message of the first raising row |
| Reconstruct.CollectKept | src/etl.py:159-234 | a successful fold holds one event per kept row, and no row raised |
| Reconstruct.EventsOutcome | src/etl.py:159-234 | the events are computed if and only if no row raises; the exception is the first raising row's; on success there is one event per retained row with a user id |
| Reconstruct.KeepCountIsRowsWithUser | src/etl.py:164-167 | without a raising row, the kept rows are exactly the rows with a present user id |
| Reconstruct.EventsSnoc | src/etl.py:159-234 | one more row extends the events by that row's outcome |
| Reconstruct.EventsFailurePersists | src/etl.py:204 | once a row has raised, later rows change nothing |
| Aggregate.Group | src/etl.py:237-320 | a key's group, the events the loop adds to that key, holds only events with that key, and is never longer than the events |
| Aggregate.FirstSeen | src/etl.py:237-320 | the keys in first-seen (dict insertion) order have no repeats |
| Aggregate.GroupMembers | src/etl.py:237-320 | an event is in a key's group exactly when it has that key |
| Aggregate.FirstSeenMembers | src/etl.py:237-320 | a key is listed exactly when some event has it, exactly when its group is non-empty |
| Aggregate.CountNamedIsCardinality | src/etl.py:253-263 | each counter is the number of events whose name equals its event name exactly |
| Aggregate.ImageMembers | src/etl.py:252-265 | a distinct-value set holds exactly the values some event carries |
| Aggregate.ImageOfRepeated | src/etl.py:252-255 | repeating one value any number of times adds one element |
| Aggregate.DailyStep | src/etl.py:251-267 | the daily loop body: the event's session and user join the sets, each counter moves by one for its event name, the transaction id joins its set and the purchase revenue is added |
| Aggregate.TrafficStep | src/etl.py:284-292 | the traffic loop body, the same for its counters |
| Aggregate.ProductStep | src/etl.py:311-320 | the product loop body: counters, item revenue of purchases and quantity sold move; name and category stay |
| Aggregate.DailyOf | src/etl.py:237-267 | a date's accumulator from its events: sessions, users and transaction ids as sets, each counter the number of events with its name, revenue the sum of paid revenue; `DailyOfStep` ties it to the loop body |
| Aggregate.TrafficOf | src/etl.py:270-292 | a channel's accumulator from its events, in the same way; `TrafficOfStep` ties it to the loop body |
| Aggregate.ProductOf | src/etl.py:295-320 | an item's accumulator: name and category of its first event, counters, item revenue of purchases and quantity sold; `ProductOfStep` ties it to the loop body |
| Aggregate.DailyOfStep | src/etl.py:237-267 | the daily loop body, applied to one more event, gives the accumulator of the longer group; a new date starts from the empty accumulator |
| Aggregate.TrafficOfStep | src/etl.py:270-292 | the same for the traffic loop body and its fresh accumulator |
| Aggregate.ProductOfStep | src/etl.py:295-320 | a new item key starts from its creating event's name and category; later events only move counters, revenue and quantity |
| Aggregate.OtherNamesCountNothing | src/etl.py:253-320 | event names outside `page_view`, `purchase`, `view_item`, `add_to_cart`, `begin_checkout` leave every counter unchanged |
| Aggregate.GroupSnoc | src/etl.py:237-320 | one more event extends only its own key's group |
| Aggregate.FirstSeenSnoc | src/etl.py:237-320 | one more event appends its key to the order only when the key is new |
| Aggregate.TracksStep | src/etl.py:237-320 | updating a key with the accumulator of its extended group keeps the map and its order equal to the group summaries of the extended events |
| Aggregate.TracksSkip | src/etl.py:295 | an event without an item id leaves the product map valid for the extended events |
| Metrics.Ratio | src/etl.py:335 | the quotient times the divisor gives back the dividend, and 0 when the divisor is 0 |
| Metrics.Percent | src/etl.py:336 | the percentage times the whole is 100 times the part, and 0 when the whole is 0; never negative |
| Metrics.FinalDaily | src/etl.py:322-342 | a daily row from its accumulator; `FinalDailyRatios` states its ratios |
| Metrics.FinalTraffic | src/etl.py:347-358 | a traffic row from its accumulator, with no campaign; `FinalTrafficRatios` states its conversion rate |
| Metrics.FinalProduct | src/etl.py:362-374 | a product row from its accumulator, with checkouts and refunds 0; `ProductNameFromFirstEvent` states its name and category |
| Metrics.DailyRows | src/etl.py:322-342 | the daily list, one row per date in first-seen order; `DailyRowsCoverDates` states its keys |
| Metrics.TrafficRows | src/etl.py:344-358 | the traffic list; `TrafficRowsCoverChannels` states its keys |
| Metrics.ProductRows | src/etl.py:360-374 | the product list; `ProductRowsCoverItems` states its keys |
| Metrics.DailyRowsCoverDates | src/etl.py:322-342 | one daily row per date some event has: no repeated dates, and no missing ones |
| Metrics.TrafficRowsCoverChannels | src/etl.py:344-358 | one traffic row per (date, source, medium) some event has |
| Metrics.ProductRowsCoverItems | src/etl.py:360-374 | one product row per (date, item id) of the events that have an item id, and no others |
| Metrics.ListedGroupHasVisitor | src/etl.py:251-255 | every listed key has at least one session and one user |
| Metrics.DailyRowRatios | src/etl.py:322-342 | every daily row has at least one session and one user; conversion rate is purchases per session in percent; average order value is revenue per distinct transaction id, or 0 when there is none |
| Metrics.FinalDailyRatios | src/etl.py:325-338 | the two ratios of a daily row, for any accumulator with a session |
| Metrics.TrafficRowRatios | src/etl.py:344-358 | every traffic row has at least one session and one user and no campaign; its conversion rate is purchases per session in percent |
| Metrics.FinalTrafficRatios | src/etl.py:357 | the traffic conversion rate, for any accumulator with a session |
| Metrics.GroupFirst | src/etl.py:297-309 | a group's first event is the first event of the whole sequence with that key |
| Metrics.ProductNameFromFirstEvent | src/etl.py:297-309 | a product row's item name and category are those of the first event with its date and item id |
| Metrics.RepeatedSessionCountsOnce | src/etl.py:255 | a date whose events all share one session id has sessions = 1, however many events there are |
| Metrics.TotalSnoc | src/etl.py:266-267 | a running sum grows by the new event's contribution |
| Metrics.GroupTotalsUntouched | src/etl.py:237-320 | an event whose key is not listed leaves the per-key totals unchanged |
| Metrics.GroupTotalsBump | src/etl.py:237-320 | an event whose key is listed adds its contribution to exactly one key's total |
| Metrics.Partition | src/etl.py:237-320 | the per-key totals add up to the total over the keyed events |
| Metrics.PartitionNewKey | src/etl.py:237-320 | a new key's total is the new event's contribution |
| Metrics.KeyedAll | src/etl.py:237-292 | when every event has a key, the keyed events are all of them |
| Metrics.SumOverKeys | src/etl.py:322-374 | summing a column over the rows is summing the group totals |
| Metrics.RevenueConservation | src/etl.py:237-374 | daily revenue and traffic revenue each sum to the total paid revenue; product revenue sums to the item revenue of purchases that have an item id |
| Metrics.TwoPurchasesScenario | src/etl.py:237-342 | two purchases on one day with ids t1, t2 and revenues 10 and 20 give one daily row: 2 transactions, 2 unique purchases, revenue 30, average order value 15 |
| Metrics.DailyAndProductRevenueDiffer | src/etl.py:264-318 | daily and product revenue come from different columns, so they can differ (10 against 5 for one purchase) |
| Transform.TransformSpec | src/etl.py:112-381 | `transform_data` as a function: empty output when no frame has rows, otherwise `ProcessSpec` of the retained rows of the first one that has |
| Transform.ProcessSpec | src/etl.py:139-381 | the events of the rows and their three metric lists, or the first row's exception |
| Transform.FirstNonEmpty | src/etl.py:124-137 | absent exactly when no frame is present with rows; otherwise the first frame that is |
| Transform.PickFrame | src/etl.py:124-137 | the frame loop stops at the first usable frame |
| Transform.AddDaily | src/etl.py:237-267 | the daily block of the loop keeps the daily map equal to the per-date accumulators, in first-seen order |
| Transform.AddTraffic | src/etl.py:270-292 | the traffic block keeps the traffic map equal to the per-channel accumulators |
| Transform.AddProduct | src/etl.py:295-320 | the product block keeps the product map equal to the per-item accumulators, touching it only for events with an item id |
| Transform.AddEvent | src/etl.py:237-320 | one event keeps all three maps equal to the summaries of the extended events |
| Transform.Scan | src/etl.py:159-320 | the row loop yields exactly `Events` of the rows, or the first row's exception, with the three maps summarising the events |
| Transform.ScanStep | src/etl.py:159-234 | one loop turn in terms of the events before it: skip, append, or raise for the whole table |
| Transform.FinishDaily | src/etl.py:322-342 | the daily list is `DailyRows` of the events |
| Transform.FinishTraffic | src/etl.py:344-358 | the traffic list is `TrafficRows` of the events |
| Transform.FinishProduct | src/etl.py:360-374 | the product list is `ProductRows` of the events |
| Transform.Process | src/etl.py:139-381 | the events and three lists of the retained rows, or the exception |
| Transform.Run | src/etl.py:112-381 | `transform_data`: empty output when no frame has rows; otherwise the result of the retained rows of the first usable frame |
| Store.UpsertAll | src/etl.py:561-632 | each `INSERT ... ON CONFLICT ... DO UPDATE` in turn: a new key gets the row, an existing one the merge of the stored and incoming rows |
| Store.UpsertAllKeys | src/etl.py:561-632 | the upserts keep every stored key and add the key of each row, and no other |
| Store.MergeDaily | src/etl.py:561-587 | the daily `DO UPDATE` never changes the date key; `DailyUpsertColumns` states its columns |
| Store.MergeTraffic | src/etl.py:589-610 | the traffic `DO UPDATE` never changes the channel key |
| Store.MergeProduct | src/etl.py:612-632 | the product `DO UPDATE` never changes the item key |
| Store.UpsertAllAt | src/etl.py:561-632 | with one row per key: a row's key holds the row, merged into the stored record when there was one; every other key keeps its record |
| Store.UpsertAllIdempotent | src/etl.py:561-632 | replaying the same rows leaves the table unchanged (for idempotent merges) |
| Store.DailyUpsertColumns | src/etl.py:561-587 | an existing date gets sessions, users, page views, revenue, transactions, average order value and conversion rate from the new row; items sold, bounce rate, unique purchases and the three event counts keep their stored values |
| Store.TrafficUpsertColumns | src/etl.py:589-610 | an existing channel gets sessions, users, page views, transactions, revenue and conversion rate from the new row; campaign keeps its stored value |
| Store.ProductUpsertColumns | src/etl.py:612-632 | an existing item gets views, add-to-carts, purchases, revenue and quantity sold from the new row; name, category, checkouts and refund amount keep their stored values |
| Store.Upserts | src/etl.py:561-632 | the per-record upsert loop computes `UpsertAll` |
| Store.AppendBatches | src/etl.py:546-555 | inserting in batches of 500 appends exactly the events, in order |
| Store.Database.Commit | src/etl.py:558 | a commit makes the open transaction the committed state |
| Store.Database.Abort | src/etl.py:653-663 | the failure branch rolls back, then marks the run `failed` with the message if its record is committed |
| Store.Database.RunStages | src/etl.py:535-651 | the try block leaves exactly the committed state and result that `Outcome` gives |
| Store.Database.LoadAsWritten | src/etl.py:522-663 | `load_data` as written, where the run record is first committed together with the raw events (or the daily rows): the result is `Outcome` without the early commit |
| Store.Database.Load | src/etl.py:522-663 | `load_data` with the run record committed as soon as it is inserted: the result is `Outcome` with the early commit |
| Store.OpenedRun | src/etl.py:530-533 | the `INSERT` of a `running` run record with no rows processed, appended to the ledger |
| Store.MarkFailed | src/etl.py:655-659 | the failure `UPDATE`: only the run's record changes, to `failed` with the message; no row changes when the record is not there |
| Store.Outcome | src/etl.py:522-663 | the committed state and the return or raise of `load_data` for a fault at any stage, in either commit mode; `RunRecordSettles`, `RunRecordClosed` and `FailureKeepsEarlierStages` state what it guarantees |
| Store.RunRecordSettles | src/etl.py:529-663 | in either commit mode no load leaves a `running` record: a return adds one `completed` record with the event count; a raise leaves the tables as they were or adds one `failed` record with the message |
| Store.RunRecordClosed | src/etl.py:529-663 | in the corrected load (run record committed at once), every load that gets past the insert leaves one new run record, never `running`: `completed` with the event count exactly when it returns, `failed` with the message when it raises; older records are untouched |
| Store.FailureKeepsEarlierStages | src/etl.py:535-663 | in either commit mode, a failure keeps exactly the data stages committed before it (raw events, daily, traffic, product, in that order) and nothing after; as written, a failure before the first commit keeps nothing |
| Store.RunRecordLostAsWritten | src/etl.py:529-558 | as written, a failure in the raw-event stage (or, with no events, in the daily stage) leaves the database as it was: no run record at all |
| Store.ReloadIsIdempotent | src/etl.py:535-632 | loading the same output twice leaves the three metric tables as once, appends the raw events again, and adds one more run record |
| Pipeline.EtlOutcome | src/etl.py:669-699 | the committed state and report of `run_etl`: download or transform errors reach no table; otherwise the load's outcome, with the event count on success |
| Pipeline.RunEtl | src/etl.py:669-699 | `run_etl` over `load_data` as written: the committed state and report are `EtlOutcome` with the late commit |
| Pipeline.RunEtlCorrected | src/etl.py:669-699 | `run_etl` over the corrected load: `EtlOutcome` with the early commit |
| Pipeline.ReportMatchesRunRecord | src/etl.py:669-699 | in either commit mode, a success report matches one new `completed` run record with the reported count; a failure report either left the database unchanged or matches one new `failed` record with the reported error |
| Pipeline.TransformFailureTouchesNothing | src/etl.py:682-699 | a transform exception is reported and reaches no table |
| Pipeline.ReportedCountIsRowsWithUser | src/etl.py:693 | the reported event count is the number of retained rows with a user id |
| Pipeline.OutputKeysDistinct | src/etl.py:322-374 | each output list has one row per natural key, as the `ON CONFLICT` keys require |
| Pipeline.RerunKeepsMetrics | src/etl.py:669-699 | running the pipeline twice on the same download leaves the metric tables as one run does; only the raw events are appended twice |

## Left out

- `download_from_kaggle` (network download, CSV files, cache fallback): the frames it returns, or the message of what it raises, are a parameter of `Pipeline.RunEtl`.
- `init_database`, `get_connection` and the SQL text: the database is the `Store.Database` class. A failure of the connection or of the run-record insert is the fault stage `OpenRun`.
- `REFRESH MATERIALIZED VIEW dashboard_summary`: the view is not modelled. The refresh is only a stage that can fail after the product upserts.
- `completed_at`, `started_at`, `updated_at` and the durations: clock values are not modelled.
- `log` and all printing: output only.
- `datetime.now()`: `today` is a parameter.
- Dates.EventDate: a numeric date cell is taken by its text as `str(int(...))` would write it. pandas' choice of dtype for the column is not modelled.
- Floating point: revenue and ratios are exact `real` numbers, so rounding and `inf`/`nan` arithmetic are not modelled.
- Normalize.CleanNum: `float()` is modelled for optionally signed decimal literals only. Exponents, `inf`, `infinity`, underscores and the NaN spellings `clean_val` lets through (`NAN`, `Nan`, `-nan`, `+nan`) are read as "not a number" here, while Python accepts them; a NaN revenue is truthy and passes the tests at src/etl.py:266, :291 and :318.
- Dates.ParseYmd: `strptime`'s `%Y`, `%m` and `%d` also accept non-ASCII decimal digits; the model reads ASCII digits only, so such a cell falls back to `today` here.
- Normalize.InvalidIntMessage: the text is quoted with `'` as `repr()` does for plain text; `repr()`'s double quotes and escapes for text holding `'` or `\` are not modelled.
- Normalize.ParseInt: `int()` is modelled for optionally signed ASCII digits. Underscore separators (`1_000`) and non-ASCII digits, which Python accepts, are rejected.
- The raw event's `event_timestamp` column (`int(timestamp)`, or 0): the event keeps the filled timestamp cell. The conversion, and any exception it could raise, are not modelled. The session id uses the cell text, as `str(timestamp)` does.
- Cells are modelled as their text, `str(value)`. pandas dtypes and float formatting of numeric cells are not modelled.
- `items.price` and the `page_location`/`page_title` constants (always `None`): read or written but never used, so they are not modelled.
- The traffic key: the source joins date, source and medium with `|` into one string. Two channels whose source or medium contain `|` can share that string, so the source would merge them. The model keys by the triple and keeps them apart.
- Store.Database.Abort: a failure of the failure handler's own UPDATE or commit is not modelled, and neither are partial writes within one statement.
- Concurrency and `src/scheduler.py`: runs are sequential here.
- `src/dashboard.py`: read-only presentation.

## Findings

| source | as written | input that shows it | evidently intended | confidence | as-written member | corrected member |
|---|---|---|---|---|---|---|
| src/etl.py:529-558 | The `running` run record is inserted on a connection without autocommit and first committed together with the raw events. When there are no events, it is first committed with the daily upserts. The except branch rolls back first, which also discards the run record. Its `UPDATE ... status = 'failed'` then matches no row. | A load whose raw-event insert raises (say, a constraint violation), or a load with no events whose daily upsert raises. The run leaves no record in `etl_runs`. | Every run that reaches the database is recorded, and ends `failed` with its error. | not executed | Store.Database.LoadAsWritten, Store.RunRecordLostAsWritten | Store.Database.Load, Store.RunRecordClosed |
