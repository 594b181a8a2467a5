/** The `periods` table, the graph file names derived from it, the upload
    list and the CloudFront invalidation batch. */
module Periods {
  import opened Text
  import opened Storage

  /** One look-back window: its name and its length in seconds. */
  datatype Period = Period(name: string, seconds: nat)

  /** The `periods` dict, in its insertion order. */
  const Table: seq<Period> := [
    Period("hour", 3600),
    Period("day", 24 * 3600),
    Period("week", 7 * 24 * 3600),
    Period("month", 30 * 24 * 3600),  // a 30-day month
    Period("year", 365 * 24 * 3600)   // a 365-day year
  ]

  /** `f"{period}_graph.png"`. */
  function GraphFile(name: string): (f: string)
    ensures IsGraphFile(f)
  {
    EndsWithAppended(name, GraphSuffix);
    name + GraphSuffix
  }

  /** The list the handler uploads; the source spells the five graph names
      out ("hour_graph.png", ...). */
  function UploadList(rrdFile: string, csvFile: string): (files: seq<string>)
    ensures |files| == 2 + |Table|
    ensures files[0] == rrdFile && files[1] == csvFile
    ensures forall i :: 2 <= i < |files| ==> IsGraphFile(files[i])
  {
    [rrdFile, csvFile, GraphFile("hour"), GraphFile("day"), GraphFile("week"),
     GraphFile("month"), GraphFile("year")]
  }

  const InvalidationQuantity: nat := 5

  /** The CloudFront path of a chart. */
  function ChartPath(name: string): string
  {
    "/images/" + GraphFile(name)
  }

  /** The invalidation paths, in the source's order; the source spells them
      out ("/images/year_graph.png", ...). */
  const InvalidationItems: seq<string> := [
    ChartPath("year"), ChartPath("hour"), ChartPath("day"), ChartPath("month"), ChartPath("week")
  ]

  lemma ChartPathInjective(a: string, b: string)
    requires ChartPath(a) == ChartPath(b)
    ensures a == b
  {
    assert a == ChartPath(a)[8..|ChartPath(a)| - |GraphSuffix|];
    assert b == ChartPath(b)[8..|ChartPath(b)| - |GraphSuffix|];
  }

  /** The window lengths in seconds. */
  lemma TableDurations()
    ensures |Table| == 5
    ensures Table[0] == Period("hour", 3600)
    ensures Table[1] == Period("day", 86400)
    ensures Table[2] == Period("week", 604800)
    ensures Table[3] == Period("month", 2592000)
    ensures Table[4] == Period("year", 31536000)
  {
  }

  /** The seven uploads are the two data files and then the graph of every
      period, in the table's order; every graph goes to the images prefix. */
  lemma UploadListCoversGraphs(rrdFile: string, csvFile: string)
    ensures |UploadList(rrdFile, csvFile)| == 7
    ensures UploadList(rrdFile, csvFile)[..2] == [rrdFile, csvFile]
    ensures forall i :: 0 <= i < |Table| ==>
      UploadList(rrdFile, csvFile)[2 + i] == GraphFile(Table[i].name)
    ensures forall i :: 0 <= i < |Table| ==>
      UploadKey(UploadList(rrdFile, csvFile)[2 + i]) == ImagesPrefix + GraphFile(Table[i].name)
  {
    var files := UploadList(rrdFile, csvFile);
    forall i | 0 <= i < |Table|
      ensures files[2 + i] == GraphFile(Table[i].name)
      ensures UploadKey(files[2 + i]) == ImagesPrefix + GraphFile(Table[i].name)
    {
      assert files[2 + i] == Table[i].name + GraphSuffix;
    }
  }

  /** Where each invalidation path comes from in the table. */
  const InvalidationOrder: seq<nat> := [4, 0, 1, 3, 2]

  lemma InvalidationItemsFromTable()
    ensures |InvalidationItems| == |InvalidationOrder| == InvalidationQuantity
    ensures forall i :: 0 <= i < |InvalidationOrder| ==>
      InvalidationOrder[i] < |Table| && InvalidationItems[i] == ChartPath(Table[InvalidationOrder[i]].name)
  {
  }

  /** The invalidation batch names each chart once: the charts' names
      begin with five different letters. */
  lemma InvalidationItemsDistinct()
    ensures forall i, j :: 0 <= i < j < |InvalidationItems| ==> InvalidationItems[i] != InvalidationItems[j]
  {
    var items := InvalidationItems;
    ChartPathInitial("year");
    ChartPathInitial("hour");
    ChartPathInitial("day");
    ChartPathInitial("month");
    ChartPathInitial("week");
    assert items[0][8] == 'y' && items[1][8] == 'h' && items[2][8] == 'd';
    assert items[3][8] == 'm' && items[4][8] == 'w';
    forall i, j | 0 <= i < j < |items|
      ensures items[i] != items[j]
    {
      assert items[i][8] != items[j][8];
    }
  }

  /** Every period's chart is in the invalidation batch. */
  lemma ChartInvalidated(k: nat)
    requires k < |Table|
    ensures ChartPath(Table[k].name) in InvalidationItems
  {
    InvalidationItemsFromTable();
    var i := if k == 4 then 0 else if k == 0 then 1 else if k == 1 then 2 else if k == 3 then 3 else 4;
    assert InvalidationOrder[i] == k;
    assert InvalidationItems[i] == ChartPath(Table[k].name);
  }

  /** A chart path shows the chart's name right after "/images/". */
  lemma ChartPathInitial(name: string)
    requires name != []
    ensures |ChartPath(name)| > 8 && ChartPath(name)[8] == name[0]
  {
    assert ChartPath(name) == "/images/" + (name + GraphSuffix);
  }

  /** The batch names exactly the five charts, each once, as a set equal
      to the chart path of every period, and `Quantity` matches. */
  lemma InvalidationMatchesTable()
    ensures |InvalidationItems| == InvalidationQuantity
    ensures forall i, j :: 0 <= i < j < |InvalidationItems| ==> InvalidationItems[i] != InvalidationItems[j]
    ensures (set p | p in Table :: ChartPath(p.name)) == (set item | item in InvalidationItems)
  {
    InvalidationItemsFromTable();
    InvalidationItemsDistinct();
    var fromTable := set p | p in Table :: ChartPath(p.name);
    var items := set item | item in InvalidationItems;
    forall x | x in fromTable ensures x in items {
      var p :| p in Table && x == ChartPath(p.name);
      var k :| 0 <= k < |Table| && Table[k] == p;
      var i := if k == 4 then 0 else if k == 0 then 1 else if k == 1 then 2 else if k == 3 then 3 else 4;
      assert InvalidationOrder[i] == k;
      assert InvalidationItems[i] == x;
    }
    forall x | x in items ensures x in fromTable {
      var i :| 0 <= i < |InvalidationItems| && InvalidationItems[i] == x;
      assert Table[InvalidationOrder[i]] in Table;
    }
  }

  /** A chart's uploaded key is its CloudFront path under the `site` origin
      folder. */
  lemma UploadedChartKey(name: string)
    ensures UploadKey(GraphFile(name)) == "site" + ChartPath(name)
  {
    var g := GraphFile(name);
    assert UploadPrefix(g) == ImagesPrefix;
    assert ImagesPrefix == "site" + "/images/";
    assert "site" + ChartPath(name) == ("site" + "/images/") + g;
  }

  /** Every uploaded chart is invalidated: together with
      `InvalidationMatchesTable`, the batch is exactly the charts the handler
      uploads. */
  lemma InvalidationCoversUploadedCharts(rrdFile: string, csvFile: string)
    ensures forall k :: 0 <= k < |Table| ==>
      UploadKey(UploadList(rrdFile, csvFile)[2 + k]) == "site" + ChartPath(Table[k].name)
  {
    UploadListCoversGraphs(rrdFile, csvFile);
    forall k | 0 <= k < |Table|
      ensures UploadKey(UploadList(rrdFile, csvFile)[2 + k]) == "site" + ChartPath(Table[k].name)
    {
      UploadedChartKey(Table[k].name);
    }
  }
}
