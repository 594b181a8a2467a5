/** `handler`: the Lambda entry point as a script of effects. Every call
    into S3, the web, rrdtool, the local log file and CloudFront is
    recorded, in order, as an `Effect`; the model returns that trace
    together with the response or the exception the invocation ends with. */
module Handler {
  import opened Wrappers
  import opened Decimal
  import opened Scraper
  import opened Storage
  import opened CsvLog
  import opened Periods

  /** The environment variables the script reads when it is loaded. */
  datatype Config = Config(
    rrdFile: string,              // RRD_FILE
    csvFile: string,              // CSV_FILE
    distribution: string,         // CLOUDFRONT_DISTRIBUTION
    refreshDistribution: string,  // REFRESH_DISTRIBUTION
    url: string,                  // GUMTREE_URL
    bucket: string)               // S3_BUCKET

  datatype Effect =
    | S3(transfer: Transfer)
    | FetchPage(url: string)                                        // requests.get
    | RrdUpdate(path: string, sample: string)                       // rrdtool.update
    | LogAppend(path: string, text: string)                         // update_csv
    | RenderGraph(output: string, period: string, seconds: nat)     // rrdtool.graph
    | Invalidate(distribution: string, quantity: nat, items: seq<string>)

  datatype Kind = DownloadKind | FetchKind | RrdKind | LogKind | GraphKind | UploadKind | InvalidateKind

  function KindOf(e: Effect): Kind
  {
    match e
    case S3(t) => if t.Download? then DownloadKind else UploadKind
    case FetchPage(_) => FetchKind
    case RrdUpdate(_, _) => RrdKind
    case LogAppend(_, _) => LogKind
    case RenderGraph(_, _, _) => GraphKind
    case Invalidate(_, _, _) => InvalidateKind
  }

  /** The exceptions that escape the handler. */
  datatype HandlerError =
    | ScrapeFailed(cause: ScrapeError)  // raised inside get_item_count
    | MessageUnbound                    // `message` read before assignment

  datatype Outcome = Response(statusCode: int, body: string) | Raised(error: HandlerError)

  datatype Invocation = Invocation(trace: seq<Effect>, outcome: Outcome)

  const SuccessPrefix := "Successfully updated RRD file, generated graphs. "

  // The two messages' fixed leads; the first word is kept apart so that a
  // proof can read its first letter.
  const InvalidatedLead := "Invalidated" + " CloudFront cache. Invalidation ID: "
  const SkippedLead := "Skipping" + " CloudFront cache invalidation. Repo variable REFRESH_DISTRIBUTION is set to "

  function InvalidatedMessage(invalidationId: string): string
  {
    InvalidatedLead + invalidationId
  }

  function SkippedMessage(flag: string): string
  {
    SkippedLead + flag
  }

  const FailurePrefix := "Failed to update RRD file.  H1 value was not found in |"

  function FailureBody(url: string): string
  {
    FailurePrefix + url + "|"
  }

  /** The sample handed to `rrdtool.update`: `'N:' + str(item_count)`. */
  function Sample(count: nat): string
  {
    "N:" + NatToString(count)
  }

  function Lift(transfers: seq<Transfer>): (effects: seq<Effect>)
    ensures |effects| == |transfers|
    ensures forall i :: 0 <= i < |transfers| ==> effects[i] == S3(transfers[i])
  {
    seq(|transfers|, i requires 0 <= i < |transfers| => S3(transfers[i]))
  }

  /** One chart per period, in the table's order. */
  function GraphEffects(): seq<Effect>
  {
    seq(|Table|, i requires 0 <= i < |Table| =>
      RenderGraph(LocalPath(GraphFile(Table[i].name)), Table[i].name, Table[i].seconds))
  }

  function InvalidationEffects(cfg: Config): seq<Effect>
  {
    if cfg.refreshDistribution == "true"
    then [Invalidate(cfg.distribution, InvalidationQuantity, InvalidationItems)]
    else []
  }

  /** Lines 71 and 73: the two downloads and the page fetch. */
  function Prelude(cfg: Config): seq<Effect>
  {
    Lift(Transfers(cfg.bucket, "download", [cfg.rrdFile, cfg.csvFile])) + [FetchPage(cfg.url)]
  }

  /** What a run with a count does to storage, in order. */
  function UpdateTrace(cfg: Config, count: nat, now: nat): seq<Effect>
  {
    [RrdUpdate(LocalPath(cfg.rrdFile), Sample(count)),
     LogAppend(LocalPath(cfg.csvFile), Record(now, count))]
    + GraphEffects()
    + Lift(Transfers(cfg.bucket, "upload", UploadList(cfg.rrdFile, cfg.csvFile)))
    + InvalidationEffects(cfg)
  }

  /** How a run with a count ends: the `message` chosen by the flag, or the
      exception when neither branch binds it. */
  function SuccessOutcome(cfg: Config, invalidationId: string): Outcome
  {
    if cfg.refreshDistribution == "true" then Response(200, SuccessPrefix + InvalidatedMessage(invalidationId))
    else if cfg.refreshDistribution == "false" then Response(200, SuccessPrefix + SkippedMessage(cfg.refreshDistribution))
    else Raised(MessageUnbound)
  }

  /** Lines 75-144: everything after the count is known, branching on
      whether it is None. */
  function AfterScrape(cfg: Config, count: Option<nat>, now: nat, invalidationId: string): (r: Invocation)
    ensures r.trace == [] <==> count.None?
    ensures (r.outcome.Response? && r.outcome.statusCode == 500) <==> count.None?
    ensures count.Some? ==> r.trace[0] == RrdUpdate(LocalPath(cfg.rrdFile), Sample(count.value))
  {
    match count
    case None => Invocation([], Response(500, FailureBody(cfg.url)))
    case Some(n) => Invocation(UpdateTrace(cfg, n, now), SuccessOutcome(cfg, invalidationId))
  }

  /** The handler as written: `get_item_count` raises instead of returning
      None, so the exception ends the run right after the fetch. */
  function Invoke(cfg: Config, h1: Option<string>, now: nat, invalidationId: string): (r: Invocation)
    ensures Prelude(cfg) <= r.trace
    ensures (r.outcome.Raised? && r.outcome.error.ScrapeFailed?) <==> GetItemCount(h1).Failure?
    ensures GetItemCount(h1).Failure? ==> r.trace == Prelude(cfg)
  {
    match GetItemCount(h1)
    case Failure(e) => Invocation(Prelude(cfg), Raised(ScrapeFailed(e)))
    case Success(n) =>
      var rest := AfterScrape(cfg, Some(n), now, invalidationId);
      Invocation(Prelude(cfg) + rest.trace, rest.outcome)
  }

  /** The handler with `get_item_count` returning None on a missing count,
      as its failure response evidently intends. */
  function InvokeIntended(cfg: Config, h1: Option<string>, now: nat, invalidationId: string): (r: Invocation)
    ensures Prelude(cfg) <= r.trace
    ensures !(r.outcome.Raised? && r.outcome.error.ScrapeFailed?)
    ensures (r.outcome.Response? && r.outcome.statusCode == 500) <==> GetItemCountIntended(h1).None?
  {
    var rest := AfterScrape(cfg, GetItemCountIntended(h1), now, invalidationId);
    Invocation(Prelude(cfg) + rest.trace, rest.outcome)
  }

  /** Lines 75-144, step by step. */
  method HandleCount(cfg: Config, count: Option<nat>, now: nat, invalidationId: string)
    returns (trace: seq<Effect>, outcome: Outcome)
    ensures Invocation(trace, outcome) == AfterScrape(cfg, count, now, invalidationId)
  {
    if count.None? {
      return [], Response(500, FailureBody(cfg.url));
    }
    var n := count.value;
    trace := [RrdUpdate(ScratchDir + cfg.rrdFile, "N:" + NatToString(n))];
    trace := trace + [LogAppend(ScratchDir + cfg.csvFile, NatToString(now) + "|" + NatToString(n) + "\n")];
    ghost var updates := trace;
    assert updates == [RrdUpdate(LocalPath(cfg.rrdFile), Sample(n)),
                       LogAppend(LocalPath(cfg.csvFile), Record(now, n))];
    var graphs := RenderGraphs();
    trace := trace + graphs;
    var uploads := MoveFiles(cfg.bucket, "upload", UploadList(cfg.rrdFile, cfg.csvFile));
    trace := trace + Lift(uploads);
    assert trace + InvalidationEffects(cfg) == UpdateTrace(cfg, n, now);
    if cfg.refreshDistribution == "true" {
      trace := trace + [Invalidate(cfg.distribution, InvalidationQuantity, InvalidationItems)];
      outcome := Response(200, SuccessPrefix + InvalidatedMessage(invalidationId));
    } else if cfg.refreshDistribution == "false" {
      outcome := Response(200, SuccessPrefix + SkippedMessage(cfg.refreshDistribution));
    } else {
      outcome := Raised(MessageUnbound);
    }
  }

  /** Lines 83-103: one chart per period, walking the table in order. */
  method RenderGraphs() returns (effects: seq<Effect>)
    ensures effects == GraphEffects()
  {
    effects := [];
    for i := 0 to |Table|
      invariant effects == GraphEffects()[..i]
    {
      var period := Table[i];
      var graphFile := period.name + GraphSuffix;
      effects := effects + [RenderGraph(ScratchDir + graphFile, period.name, period.seconds)];
    }
  }

  /** `handler(event, context)`; the heading and the invalidation id come
      from the page and from CloudFront, the time from the clock. */
  method Handle(cfg: Config, h1: Option<string>, now: nat, invalidationId: string)
    returns (trace: seq<Effect>, outcome: Outcome)
    ensures Invocation(trace, outcome) == Invoke(cfg, h1, now, invalidationId)
  {
    var downloads := MoveFiles(cfg.bucket, "download", [cfg.rrdFile, cfg.csvFile]);
    trace := [];
    for i := 0 to |downloads|
      invariant trace == Lift(downloads[..i])
    {
      trace := trace + [S3(downloads[i])];
    }
    assert downloads[..|downloads|] == downloads;
    trace := trace + [FetchPage(cfg.url)];
    var count := GetItemCount(h1);
    if count.Failure? {
      outcome := Raised(ScrapeFailed(count.error));
      return;
    }
    var rest;
    rest, outcome := HandleCount(cfg, Some(count.value), now, invalidationId);
    trace := trace + rest;
  }
}
