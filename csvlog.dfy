/** `update_csv`: the plaintext log of observations, one
    `<timestamp>|<count>` line per run, appended to the local copy of the
    log file. */
module CsvLog {
  import opened Wrappers
  import opened Text
  import opened Decimal
  import Storage

  /** The text of one record, without its line terminator:
      `str(ts) + '|' + str(count)`. */
  function RecordLine(ts: nat, count: nat): (line: string)
    ensures '\n' !in line
    ensures forall i :: 0 <= i < |line| ==> (line[i] == '|' <==> i == |NatToString(ts)|)
  {
    var a, b := NatToString(ts), NatToString(count);
    assert forall i :: 0 <= i < |a| ==> IsDigit(a[i]);
    assert forall i :: 0 <= i < |b| ==> IsDigit(b[i]);
    DigitsExclude(a, '\n');
    DigitsExclude(b, '\n');
    a + "|" + b
  }

  /** What one call of `update_csv` writes: a single line, ended by the one
      newline it holds. */
  function Record(ts: nat, count: nat): (r: string)
    ensures |r| >= 1 && r[|r| - 1] == '\n'
    ensures forall i :: 0 <= i < |r| - 1 ==> r[i] != '\n'
  {
    RecordLine(ts, count) + "\n"
  }

  /** Reading a record line back: split on `|` into exactly two decimal
      fields. */
  function ParseRecord(line: string): (p: Option<(nat, nat)>)
    ensures p.Some? ==> Occurrences(line, '|') == 1
  {
    var fields := Split(line, '|');
    if |fields| == 2 && Canonical(fields[0]) && Canonical(fields[1])
    then Some((Value(fields[0]), Value(fields[1])))
    else None
  }

  /** The complete lines of a log text: the pieces that a newline ends (a
      trailing piece without one is not a complete line). */
  function Lines(text: string): seq<string>
  {
    var pieces := Split(text, '\n');
    pieces[..|pieces| - 1]
  }

  /** A log text that is empty or ends with a newline. */
  predicate WellFormed(text: string)
  {
    text == [] || text[|text| - 1] == '\n'
  }

  /** The log text after appending one record. */
  function AppendRecord(text: string, ts: nat, count: nat): (r: string)
    ensures |r| > |text| && r[..|text|] == text
    ensures WellFormed(r)
  {
    text + Record(ts, count)
  }

  lemma DigitsExclude(s: string, c: char)
    requires AllDigits(s) && !IsDigit(c)
    ensures c !in s
  {
  }

  /** The line holds no line break and exactly one field separator. */
  lemma RecordLineShape(ts: nat, count: nat)
    ensures '\n' !in RecordLine(ts, count)
    ensures Split(RecordLine(ts, count), '|') == [NatToString(ts), NatToString(count)]
  {
    var a, b := NatToString(ts), NatToString(count);
    DigitsExclude(a, '\n');
    DigitsExclude(b, '\n');
    DigitsExclude(a, '|');
    DigitsExclude(b, '|');
    assert Join([a, b], '|') == a + "|" + b;
    SplitJoin([a, b], '|');
  }

  /** Splitting a record on `|` gives back the timestamp and the count. */
  lemma RecordRoundTrip(ts: nat, count: nat)
    ensures ParseRecord(RecordLine(ts, count)) == Some((ts, count))
  {
    RecordLineShape(ts, count);
    ValueOfNatToString(ts);
    ValueOfNatToString(count);
  }

  /** Every line that parses is exactly the record of what it parses to:
      the record format and its parse are mutually inverse. */
  lemma ParseRecordExact(line: string, ts: nat, count: nat)
    requires ParseRecord(line) == Some((ts, count))
    ensures line == RecordLine(ts, count)
  {
    var fields := Split(line, '|');
    JoinSplit(line, '|');
    assert line == fields[0] + "|" + fields[1];
    NatToStringOfValue(fields[0]);
    NatToStringOfValue(fields[1]);
  }

  /** Appending to a well-formed log adds exactly one line, the record, at
      the end, and leaves every earlier line as it was. */
  lemma AppendAddsOneLine(text: string, ts: nat, count: nat)
    requires WellFormed(text)
    ensures Lines(AppendRecord(text, ts, count)) == Lines(text) + [RecordLine(ts, count)]
  {
    var line, rec := RecordLine(ts, count), Record(ts, count);
    SplitRecord(ts, count);
    if text == [] {
      assert AppendRecord(text, ts, count) == rec;
    } else {
      var p := text[..|text| - 1];
      assert text == p + ['\n'] + [];
      SplitAppend(p, [], '\n');
      assert AppendRecord(text, ts, count) == p + ['\n'] + rec;
      SplitAppend(p, rec, '\n');
    }
  }

  /** A record splits on newlines into its line and the empty rest. */
  lemma SplitRecord(ts: nat, count: nat)
    ensures Split(Record(ts, count), '\n') == [RecordLine(ts, count), []]
  {
    var line := RecordLine(ts, count);
    SplitWithoutSeparator(line, '\n');
    SplitAppend(line, [], '\n');
    assert line + "\n" == line + ['\n'] + [];
  }

  /** The local copy of the log that `update_csv` opens in append mode:
      `update_csv` on its own, changing the file in place. A handler run
      records the same append as a `LogAppend` effect of its trace instead,
      and `HandlerProperties.LogAfterRun` shows that replaying those effects
      leaves the text `UpdateCsv` leaves. */
  class LogFile {
    const path: string
    var content: string

    constructor (csvFile: string, content: string)
      ensures path == Storage.LocalPath(csvFile) && this.content == content
    {
      path := Storage.LocalPath(csvFile);
      this.content := content;
    }

    /** `update_csv(csvfile, itemcount)` at time `ts`. */
    method UpdateCsv(ts: nat, count: nat)
      modifies this
      ensures content == AppendRecord(old(content), ts, count)
    {
      content := content + (NatToString(ts) + "|" + NatToString(count) + "\n");
    }
  }
}
