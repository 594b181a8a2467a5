/** What the handler's effect trace promises: how many effects of each kind
    a run makes, their order, that the RRD sample and the log record carry
    the same observation, that charts are published after they are
    rendered and then invalidated, and that a run without a count touches
    no storage. */
module HandlerProperties {
  import opened Wrappers
  import opened Text
  import opened Decimal
  import opened Scraper
  import opened Storage
  import opened CsvLog
  import opened Periods
  import opened Handler

  /** The number of effects of kind `k` in a trace. */
  function CountKind(trace: seq<Effect>, k: Kind): nat
  {
    if trace == [] then 0
    else (if KindOf(trace[0]) == k then 1 else 0) + CountKind(trace[1..], k)
  }

  /** The log text after the trace's appends to `path`. */
  function ReplayLog(content: string, path: string, trace: seq<Effect>): string
    decreases |trace|
  {
    if trace == [] then content
    else
      var next := if trace[0].LogAppend? && trace[0].path == path then content + trace[0].text else content;
      ReplayLog(next, path, trace[1..])
  }

  /** Reads an rrdtool sample `N:<count>` back. */
  function SampleCount(sample: string): Option<nat>
  {
    if |sample| >= 2 && sample[..2] == "N:" && Canonical(sample[2..])
    then Some(Value(sample[2..]))
    else None
  }

  lemma {:induction false} CountKindAppend(a: seq<Effect>, b: seq<Effect>, k: Kind)
    ensures CountKind(a + b, k) == CountKind(a, k) + CountKind(b, k)
  {
    if a == [] {
      assert a + b == b;
    } else {
      assert (a + b)[1..] == a[1..] + b;
      CountKindAppend(a[1..], b, k);
    }
  }

  lemma {:induction false} CountKindUniform(s: seq<Effect>, k0: Kind, k: Kind)
    requires forall i :: 0 <= i < |s| ==> KindOf(s[i]) == k0
    ensures CountKind(s, k) == if k == k0 then |s| else 0
  {
    if s != [] {
      CountKindUniform(s[1..], k0, k);
    }
  }

  lemma {:induction false} ReplayLogAppend(content: string, path: string, a: seq<Effect>, b: seq<Effect>)
    ensures ReplayLog(content, path, a + b) == ReplayLog(ReplayLog(content, path, a), path, b)
    decreases |a|
  {
    if a == [] {
      assert a + b == b;
    } else {
      assert (a + b)[1..] == a[1..] + b;
      var next := if a[0].LogAppend? && a[0].path == path then content + a[0].text else content;
      ReplayLogAppend(next, path, a[1..], b);
    }
  }

  lemma {:induction false} ReplayLogWithoutAppends(content: string, path: string, s: seq<Effect>)
    requires CountKind(s, LogKind) == 0
    ensures ReplayLog(content, path, s) == content
  {
    if s != [] {
      ReplayLogWithoutAppends(content, path, s[1..]);
    }
  }

  lemma PreludeShape(cfg: Config)
    ensures Prelude(cfg) == [S3(Download(cfg.bucket, DownloadKey(cfg.rrdFile), LocalPath(cfg.rrdFile))),
                             S3(Download(cfg.bucket, DownloadKey(cfg.csvFile), LocalPath(cfg.csvFile))),
                             FetchPage(cfg.url)]
  {
  }

  lemma PreludeCounts(cfg: Config, k: Kind)
    ensures CountKind(Prelude(cfg), k) ==
      if k == DownloadKind then 2 else if k == FetchKind then 1 else 0
  {
    PreludeShape(cfg);
    var p := Prelude(cfg);
    assert p == p[..2] + [p[2]];
    CountKindAppend(p[..2], [p[2]], k);
    CountKindUniform(p[..2], DownloadKind, k);
    CountKindUniform([p[2]], FetchKind, k);
  }

  lemma UpdateTraceCounts(cfg: Config, count: nat, now: nat, k: Kind)
    ensures CountKind(UpdateTrace(cfg, count, now), k) ==
      if k == RrdKind || k == LogKind then 1
      else if k == GraphKind then 5
      else if k == UploadKind then 7
      else if k == InvalidateKind then (if cfg.refreshDistribution == "true" then 1 else 0)
      else 0
  {
    var head := [RrdUpdate(LocalPath(cfg.rrdFile), Sample(count)),
                 LogAppend(LocalPath(cfg.csvFile), Record(now, count))];
    var uploads := Lift(Transfers(cfg.bucket, "upload", UploadList(cfg.rrdFile, cfg.csvFile)));
    var inval := InvalidationEffects(cfg);
    assert UpdateTrace(cfg, count, now) == head + GraphEffects() + uploads + inval;
    HeadCounts(head[0], head[1], k);
    CountKindUniform(GraphEffects(), GraphKind, k);
    UploadCounts(cfg, k);
    InvalidationCounts(cfg, k);
    CountKindAppend4(head, GraphEffects(), uploads, inval, k);
  }

  lemma CountKindAppend4(a: seq<Effect>, b: seq<Effect>, c: seq<Effect>, d: seq<Effect>, k: Kind)
    ensures CountKind(a + b + c + d, k) == CountKind(a, k) + CountKind(b, k) + CountKind(c, k) + CountKind(d, k)
  {
    CountKindAppend(a, b, k);
    CountKindAppend(a + b, c, k);
    CountKindAppend(a + b + c, d, k);
  }

  /** The RRD update and the log append count once each. */
  lemma HeadCounts(update: Effect, append: Effect, k: Kind)
    requires KindOf(update) == RrdKind && KindOf(append) == LogKind
    ensures CountKind([update, append], k) == if k == RrdKind || k == LogKind then 1 else 0
  {
    assert [update, append] == [update] + [append];
    CountKindUniform([update], RrdKind, k);
    CountKindUniform([append], LogKind, k);
    CountKindAppend([update], [append], k);
  }

  /** The upload list gives seven uploads and nothing else. */
  lemma UploadCounts(cfg: Config, k: Kind)
    ensures CountKind(Lift(Transfers(cfg.bucket, "upload", UploadList(cfg.rrdFile, cfg.csvFile))), k) ==
      if k == UploadKind then 7 else 0
  {
    CountKindUniform(Lift(Transfers(cfg.bucket, "upload", UploadList(cfg.rrdFile, cfg.csvFile))), UploadKind, k);
  }

  /** The invalidation is made once exactly when the flag is "true". */
  lemma InvalidationCounts(cfg: Config, k: Kind)
    ensures CountKind(InvalidationEffects(cfg), k) ==
      if k == InvalidateKind && cfg.refreshDistribution == "true" then 1 else 0
  {
    CountKindUniform(InvalidationEffects(cfg), InvalidateKind, k);
  }

  /** How many effects of each kind a run makes. Every run downloads the
      two data files and fetches the page once. A run that finds a count
      then updates the RRD and the log once each, renders five charts,
      uploads seven files and invalidates once exactly when the flag is
      "true". A run without a count does nothing else. */
  lemma {:induction false} EffectCounts(cfg: Config, h1: Option<string>, now: nat, invalidationId: string, k: Kind)
    ensures var t := Invoke(cfg, h1, now, invalidationId).trace;
      CountKind(t, k) ==
        if k == DownloadKind then 2
        else if k == FetchKind then 1
        else if GetItemCount(h1).Failure? then 0
        else if k == RrdKind || k == LogKind then 1
        else if k == GraphKind then 5
        else if k == UploadKind then 7
        else if cfg.refreshDistribution == "true" then 1
        else 0
  {
    PreludeCounts(cfg, k);
    match GetItemCount(h1)
    case Failure(_) =>
    case Success(n) =>
      CountKindAppend(Prelude(cfg), UpdateTrace(cfg, n, now), k);
      UpdateTraceCounts(cfg, n, now, k);
  }

  /** A run that finds a count, in its five parts. */
  lemma RunTrace(cfg: Config, h1: Option<string>, now: nat, invalidationId: string)
    requires GetItemCount(h1).Success?
    ensures var n := GetItemCount(h1).value;
      Invoke(cfg, h1, now, invalidationId).trace ==
        Prelude(cfg) + [RrdUpdate(LocalPath(cfg.rrdFile), Sample(n)), LogAppend(LocalPath(cfg.csvFile), Record(now, n))]
        + GraphEffects() + Lift(Transfers(cfg.bucket, "upload", UploadList(cfg.rrdFile, cfg.csvFile)))
        + InvalidationEffects(cfg)
  {
  }

  /** The order of a run that finds a count: downloads, fetch, RRD update,
      log append, the five charts in the table's order, the seven uploads
      in the upload list's order, then the invalidation when the flag is
      "true". */
  lemma EffectOrder(cfg: Config, h1: Option<string>, now: nat, invalidationId: string)
    requires GetItemCount(h1).Success?
    ensures var t := Invoke(cfg, h1, now, invalidationId).trace;
      var n := GetItemCount(h1).value;
      var files := UploadList(cfg.rrdFile, cfg.csvFile);
      && |t| == (if cfg.refreshDistribution == "true" then 18 else 17)
      && t[..3] == Prelude(cfg)
      && t[3] == RrdUpdate(LocalPath(cfg.rrdFile), Sample(n))
      && t[4] == LogAppend(LocalPath(cfg.csvFile), Record(now, n))
      && (forall k :: 0 <= k < |Table| ==>
            t[5 + k] == RenderGraph(LocalPath(GraphFile(Table[k].name)), Table[k].name, Table[k].seconds))
      && (forall k :: 0 <= k < |files| ==>
            t[10 + k] == S3(Upload(LocalPath(files[k]), cfg.bucket, UploadKey(files[k]))))
      && (cfg.refreshDistribution == "true" ==>
            t[17] == Invalidate(cfg.distribution, InvalidationQuantity, InvalidationItems))
  {
    var n := GetItemCount(h1).value;
    var t := Invoke(cfg, h1, now, invalidationId).trace;
    var files := UploadList(cfg.rrdFile, cfg.csvFile);
    var graphs := GraphEffects();
    var uploads := Lift(Transfers(cfg.bucket, "upload", files));
    var head := Prelude(cfg) + [RrdUpdate(LocalPath(cfg.rrdFile), Sample(n)),
                                LogAppend(LocalPath(cfg.csvFile), Record(now, n))];
    var body := head + graphs + uploads;
    RunTrace(cfg, h1, now, invalidationId);
    assert |head| == 5 && |graphs| == 5 && |uploads| == 7;
    assert t[..3] == Prelude(cfg) by {
      assert t[..3] == head[..3];
    }
    forall k | 0 <= k < |Table|
      ensures t[5 + k] == RenderGraph(LocalPath(GraphFile(Table[k].name)), Table[k].name, Table[k].seconds)
    {
      assert t[5 + k] == graphs[k];
    }
    forall k | 0 <= k < |files|
      ensures t[10 + k] == S3(Upload(LocalPath(files[k]), cfg.bucket, UploadKey(files[k])))
    {
      assert t[10 + k] == uploads[k];
    }
  }

  /** Charts are published after they are rendered: the upload of each
      period's chart reads the file its rendering wrote, comes later in the
      trace, and lands under the images prefix at the key the invalidation
      names. */
  lemma ChartsPublishedAfterRender(cfg: Config, h1: Option<string>, now: nat, invalidationId: string, k: nat)
    requires GetItemCount(h1).Success?
    requires k < |Table|
    ensures var t := Invoke(cfg, h1, now, invalidationId).trace;
      && t[5 + k].RenderGraph?
      && t[12 + k] == S3(Upload(t[5 + k].output, cfg.bucket, "site" + ChartPath(Table[k].name)))
      && (cfg.refreshDistribution == "true" ==> ChartPath(Table[k].name) in t[17].items)
  {
    var t := Invoke(cfg, h1, now, invalidationId).trace;
    var files := UploadList(cfg.rrdFile, cfg.csvFile);
    var name := Table[k].name;
    EffectOrder(cfg, h1, now, invalidationId);
    UploadListCoversGraphs(cfg.rrdFile, cfg.csvFile);
    assert files[2 + k] == GraphFile(name);
    assert t[12 + k] == S3(Upload(LocalPath(files[2 + k]), cfg.bucket, UploadKey(files[2 + k])));
    UploadedChartKey(name);
    if cfg.refreshDistribution == "true" {
      assert t[17].items == InvalidationItems;
      ChartInvalidated(k);
    }
  }

  /** The RRD sample and the log record of a run carry the same
      observation: both read back as the scraped count, the record also
      as the run's timestamp. */
  lemma ObservationConsistent(cfg: Config, h1: Option<string>, now: nat, invalidationId: string)
    requires GetItemCount(h1).Success?
    ensures var t := Invoke(cfg, h1, now, invalidationId).trace;
      var n := GetItemCount(h1).value;
      && SampleCount(t[3].sample) == Some(n)
      && Lines(t[4].text) == [RecordLine(now, n)]
      && ParseRecord(RecordLine(now, n)) == Some((now, n))
  {
    var n := GetItemCount(h1).value;
    EffectOrder(cfg, h1, now, invalidationId);
    var s := NatToString(n);
    assert Sample(n)[2..] == s;
    ValueOfNatToString(n);
    RecordRoundTrip(now, n);
    AppendAddsOneLine([], now, n);
    assert AppendRecord([], now, n) == Record(now, n);
  }

  /** The log the run leaves in scratch space: one record appended to what
      was downloaded when a count was found, unchanged otherwise. */
  lemma LogAfterRun(cfg: Config, h1: Option<string>, now: nat, invalidationId: string, content: string)
    ensures var t := Invoke(cfg, h1, now, invalidationId).trace;
      ReplayLog(content, LocalPath(cfg.csvFile), t) ==
        if GetItemCount(h1).Success? then AppendRecord(content, now, GetItemCount(h1).value) else content
  {
    var path := LocalPath(cfg.csvFile);
    PreludeCounts(cfg, LogKind);
    ReplayLogWithoutAppends(content, path, Prelude(cfg));
    if GetItemCount(h1).Success? {
      var n := GetItemCount(h1).value;
      var u := UpdateTrace(cfg, n, now);
      ReplayLogAppend(content, path, Prelude(cfg), u);
      var head := [RrdUpdate(LocalPath(cfg.rrdFile), Sample(n)), LogAppend(path, Record(now, n))];
      var tail := u[2..];
      assert u == head + tail;
      ReplayLogAppend(content, path, head, tail);
      assert ReplayLog(content, path, head) == content + Record(now, n) by {
        assert head[1..] == [head[1]] && head[1..][1..] == [];
        assert ReplayLog(content, path, head) == ReplayLog(content, path, head[1..]);
        assert ReplayLog(content, path, head[1..]) == ReplayLog(content + Record(now, n), path, []);
      }
      UpdateTraceCounts(cfg, n, now, LogKind);
      CountKindAppend(head, tail, LogKind);
      ReplayLogWithoutAppends(content + Record(now, n), path, tail);
    }
  }

  /** The two success messages can be told apart for every invalidation
      id and flag. */
  lemma SuccessMessagesDistinct(invalidationId: string, flag: string)
    ensures SuccessPrefix + InvalidatedMessage(invalidationId) != SuccessPrefix + SkippedMessage(flag)
  {
    var i := |SuccessPrefix|;
    assert InvalidatedMessage(invalidationId)[0] == InvalidatedLead[0] == 'I';
    assert SkippedMessage(flag)[0] == SkippedLead[0] == 'S';
    assert (SuccessPrefix + InvalidatedMessage(invalidationId))[i] == 'I';
    assert (SuccessPrefix + SkippedMessage(flag))[i] == 'S';
  }

  /** A run that finds a count answers 200 exactly when the flag is
      "true" or "false"; any other flag raises after all uploads. */
  lemma OutcomeByFlag(cfg: Config, h1: Option<string>, now: nat, invalidationId: string)
    requires GetItemCount(h1).Success?
    ensures var o := Invoke(cfg, h1, now, invalidationId).outcome;
      && (o.Response? <==> cfg.refreshDistribution == "true" || cfg.refreshDistribution == "false")
      && (o.Response? ==> o.statusCode == 200)
      && (o.Raised? ==> o.error == MessageUnbound)
  {
  }

  /** As written, no run answers 500: a heading without digits raises
      instead. */
  lemma FailureResponseUnreachable(cfg: Config, h1: Option<string>, now: nat, invalidationId: string)
    ensures var o := Invoke(cfg, h1, now, invalidationId).outcome;
      !(o.Response? && o.statusCode == 500)
  {
  }

  /** The input that shows it: a heading with no digit makes the handler
      raise where the intended handler answers 500 naming the URL. */
  lemma NoDigitsHeadingRaises(cfg: Config, text: string, now: nat, invalidationId: string)
    requires forall i :: 0 <= i < |text| ==> !IsDigit(text[i])
    ensures Invoke(cfg, Some(text), now, invalidationId).outcome == Raised(ScrapeFailed(NoDigits))
    ensures InvokeIntended(cfg, Some(text), now, invalidationId).outcome == Response(500, FailureBody(cfg.url))
  {
  }

  /** With the intended `get_item_count`, a run without a count answers 500
      with a body that names the URL, and its only effects are the
      downloads and the fetch: no RRD update, log append, chart, upload or
      invalidation. A run with a count is unchanged. */
  lemma IntendedFailureLeavesStorageAlone(cfg: Config, h1: Option<string>, now: nat, invalidationId: string)
    ensures var r := InvokeIntended(cfg, h1, now, invalidationId);
      GetItemCountIntended(h1).None? ==>
        && r.outcome == Response(500, FailureBody(cfg.url))
        && r.outcome.body[|FailurePrefix|..|FailurePrefix| + |cfg.url|] == cfg.url
        && r.trace == Prelude(cfg)
        && (forall k :: k != DownloadKind && k != FetchKind ==> CountKind(r.trace, k) == 0)
    ensures GetItemCountIntended(h1).Some? ==> InvokeIntended(cfg, h1, now, invalidationId) == Invoke(cfg, h1, now, invalidationId)
  {
    if GetItemCountIntended(h1).None? {
      var r := InvokeIntended(cfg, h1, now, invalidationId);
      assert r.trace == Prelude(cfg) + [];
      assert Prelude(cfg) + [] == Prelude(cfg);
      forall k | k != DownloadKind && k != FetchKind ensures CountKind(r.trace, k) == 0 {
        PreludeCounts(cfg, k);
      }
    }
  }
}
