/**
 * run_etl (src/etl.py:669-699): download, transform and load, with every
 * exception turned into a failure report.
 */
module Pipeline {
  import opened Wrappers
  import opened Dates
  import opened Reconstruct
  import opened Metrics
  import opened Transform
  import opened Store

  datatype Report = Succeeded(events: nat) | Errored(error: string)

  /**
   * The committed state after run_etl and the report it returns. `download` is
   * the frames the download step returned, or the message of what it raised;
   * `commitRunAtOnce` selects the load as written (false) or corrected (true).
   */
  function EtlOutcome(t: Tables, download: Result<Frames, string>, today: Date, fault: Option<Fault>,
                      commitRunAtOnce: bool): (Tables, Report) {
    match download
    case Failure(m) => (t, Errored(m))
    case Success(frames) =>
      match TransformSpec(frames, today)
      case Failure(m) => (t, Errored(m))
      case Success(out) =>
        var (t', r) := Outcome(t, out, fault, commitRunAtOnce);
        match r
        case Loaded => (t', Succeeded(|out.events|))
        case Raised(m) => (t', Errored(m))
  }

  /** run_etl as written: the load is load_data with its own commit order. */
  method RunEtl(db: Database, download: Result<Frames, string>, today: Date, fault: Option<Fault>)
    returns (report: Report)
    modifies db
    ensures (db.State(), report) == EtlOutcome(old(db.State()), download, today, fault, false)
  {
    if download.Failure? {
      return Errored(download.error);
    }
    var data := Run(download.value, today);
    if data.Failure? {
      return Errored(data.error);
    }
    var loaded := db.LoadAsWritten(data.value, fault);
    if loaded.Raised? {
      return Errored(loaded.message);
    }
    return Succeeded(|data.value.events|);
  }

  /** run_etl over the corrected load, which commits the `running` record before any data. */
  method RunEtlCorrected(db: Database, download: Result<Frames, string>, today: Date, fault: Option<Fault>)
    returns (report: Report)
    modifies db
    ensures (db.State(), report) == EtlOutcome(old(db.State()), download, today, fault, true)
  {
    if download.Failure? {
      return Errored(download.error);
    }
    var data := Run(download.value, today);
    if data.Failure? {
      return Errored(data.error);
    }
    var loaded := db.Load(data.value, fault);
    if loaded.Raised? {
      return Errored(loaded.message);
    }
    return Succeeded(|data.value.events|);
  }

  /**
   * The report agrees with the run ledger: a success leaves one new record,
   * `completed` with the reported count; a failure leaves either no change at
   * all (nothing reached the database) or one new record, `failed` with the
   * reported error.
   */
  lemma ReportMatchesRunRecord(t: Tables, download: Result<Frames, string>, today: Date, fault: Option<Fault>,
                               commitRunAtOnce: bool)
    ensures var (t', report) := EtlOutcome(t, download, today, fault, commitRunAtOnce);
      (report.Succeeded? ==> |t'.runs| == |t.runs| + 1 && t'.runs[..|t.runs|] == t.runs
                             && t'.runs[|t.runs|] == RunRecord(Completed, report.events, None))
      && (report.Errored? ==> t' == t || (|t'.runs| == |t.runs| + 1 && t'.runs[..|t.runs|] == t.runs
                                         && t'.runs[|t.runs|] == RunRecord(Failed, 0, Some(report.error))))
  {
    if download.Success? && TransformSpec(download.value, today).Success? {
      RunRecordSettles(t, TransformSpec(download.value, today).value, fault, commitRunAtOnce);
    }
  }

  /** A failing transform (an unreadable quantity) is reported, and the database is not touched. */
  lemma TransformFailureTouchesNothing(t: Tables, frames: Frames, today: Date, fault: Option<Fault>, commitRunAtOnce: bool)
    requires TransformSpec(frames, today).Failure?
    ensures EtlOutcome(t, Success(frames), today, fault, commitRunAtOnce) == (t, Errored(TransformSpec(frames, today).error))
  {
  }

  /** The reported event count is the number of retained rows with a user id. */
  lemma ReportedCountIsRowsWithUser(t: Tables, frames: Frames, today: Date, fault: Option<Fault>, commitRunAtOnce: bool)
    requires FirstNonEmpty(frames).Some?
    ensures EtlOutcome(t, Success(frames), today, fault, commitRunAtOnce).1.Succeeded? ==>
      EtlOutcome(t, Success(frames), today, fault, commitRunAtOnce).1.events == RowsWithUser(Retained(FirstNonEmpty(frames).value))
  {
    EventsOutcome(Retained(FirstNonEmpty(frames).value), today);
  }

  /** The three output lists of a transform have one row per natural key. */
  lemma OutputKeysDistinct(frames: Frames, today: Date)
    requires TransformSpec(frames, today).Success?
    ensures var out := TransformSpec(frames, today).value;
      DistinctKeys(out.daily, DailyKey) && DistinctKeys(out.traffic, RowChannel) && DistinctKeys(out.products, RowItem)
  {
    var out := TransformSpec(frames, today).value;
    DailyRowsCoverDates(out.events);
    TrafficRowsCoverChannels(out.events);
    ProductRowsCoverItems(out.events);
  }

  /**
   * Running the pipeline twice on the same download leaves the metric tables as
   * one run does; only the raw events are appended a second time.
   */
  lemma RerunKeepsMetrics(t: Tables, frames: Frames, today: Date, commitRunAtOnce: bool)
    requires TransformSpec(frames, today).Success?
    ensures var once := EtlOutcome(t, Success(frames), today, None, commitRunAtOnce).0;
      var twice := EtlOutcome(once, Success(frames), today, None, commitRunAtOnce).0;
      twice.daily == once.daily && twice.traffic == once.traffic && twice.products == once.products
      && twice.rawEvents == once.rawEvents + TransformSpec(frames, today).value.events
  {
    OutputKeysDistinct(frames, today);
    ReloadIsIdempotent(t, TransformSpec(frames, today).value, commitRunAtOnce);
  }
}
