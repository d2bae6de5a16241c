/**
 * The observation line parser: `parseOutputLine` turns one data line into a record
 * (system code, satellite number, raw line) and `parseOutputFile` does it for every
 * data line of the converter's output, after rejecting an unknown layout.
 */
module Parser {
  import opened Results
  import opened Tokenizer
  import opened Layout

  /** SystemSatNum: the identity of one satellite's time series. */
  datatype SatKey = SatKey(system: string, satelliteNumber: string)

  /** RnxDto: the key and the raw line, kept verbatim for the final rewrite. */
  datatype Record = Record(key: SatKey, line: string)

  /**
   * `parseOutputLine`: the system code is token 1 and the satellite number the token the
   * layout names; a line without that many tokens is malformed.
   */
  function ParseLine(line: string, f: FormatType): (r: Result<Record>)
    ensures f == Unknown ==> r == Err(UnknownRecordType)
    ensures f != Unknown ==>
      var toks := Tokenize(line);
      var n := if f == P then 5 else 4;
      && (r.Ok? <==> n < |toks|)
      && (r.Ok? ==> r.value == Record(SatKey(toks[1], toks[n]), line))
      && (r.Err? ==> r.error == MalformedLine(line))
  {
    var n :- SatNumIndex(f);
    var toks := Tokenize(line);
    if n < |toks| then Ok(Record(SatKey(toks[1], toks[n]), line)) else Err(MalformedLine(line))
  }

  /**
   * Round trip through the tokenizer: a line written as single-spaced fields parses back
   * to its second field and the layout's satellite field, and keeps the line itself.
   */
  lemma ParseJoinedLine(fields: seq<string>, f: FormatType)
    requires f != Unknown
    requires (if f == P then 5 else 4) < |fields|
    requires forall i :: 0 <= i < |fields| ==> IsWord(fields[i])
    ensures ParseLine(Join(fields), f)
      == Ok(Record(SatKey(fields[1], fields[if f == P then 5 else 4]), Join(fields)))
  {
    TokenizeJoin(fields);
  }

  /** Every line parses under layout `f`. */
  predicate AllParse(data: seq<string>, f: FormatType) {
    forall i :: 0 <= i < |data| ==> ParseLine(data[i], f).Ok?
  }

  /** `recs` holds the record of each line, in order. */
  predicate ParsedAll(data: seq<string>, f: FormatType, recs: seq<Record>) {
    |recs| == |data| && forall j :: 0 <= j < |recs| ==> ParseLine(data[j], f) == Ok(recs[j])
  }

  /** `e` is the failure of the first line that does not parse. */
  ghost predicate FirstFailure(data: seq<string>, f: FormatType, e: Error) {
    exists i :: 0 <= i < |data| && ParseLine(data[i], f) == Err(e)
      && forall j :: 0 <= j < i ==> ParseLine(data[j], f).Ok?
  }

  /** One more line: a header line adds nothing, a data line that parses adds its record. */
  lemma ParsedStep(lines: seq<string>, i: nat, f: FormatType, recs: seq<Record>)
    requires i < |lines| && ParsedAll(DataLines(lines[..i]), f, recs)
    requires !IsHeaderLine(lines[i]) ==> ParseLine(lines[i], f).Ok?
    ensures ParsedAll(DataLines(lines[..i + 1]), f,
      if IsHeaderLine(lines[i]) then recs else recs + [ParseLine(lines[i], f).value])
  {
    assert lines[..i + 1] == lines[..i] + [lines[i]];
    DataLinesAppend(lines[..i], [lines[i]]);
  }

  /** A data line that does not parse, after data lines that all did, is the first failure. */
  lemma ParseFailsAt(lines: seq<string>, i: nat, f: FormatType, recs: seq<Record>)
    requires i < |lines| && ParsedAll(DataLines(lines[..i]), f, recs)
    requires !IsHeaderLine(lines[i]) && ParseLine(lines[i], f).Err?
    ensures FirstFailure(DataLines(lines), f, ParseLine(lines[i], f).error)
    ensures !AllParse(DataLines(lines), f)
  {
    var line := lines[i];
    SplitAt(lines, i);
    DataLinesAppend(lines[..i] + [line], lines[i + 1..]);
    DataLinesAppend(lines[..i], [line]);
    FailureAfter(DataLines(lines[..i]), line, DataLines(lines[i + 1..]), f, recs);
  }

  lemma SplitAt(s: seq<string>, i: nat)
    requires i < |s|
    ensures s == s[..i] + [s[i]] + s[i + 1..]
  {
  }

  /** A failing line after lines that all parse is the first failure, whatever follows. */
  lemma FailureAfter(before: seq<string>, line: string, after: seq<string>, f: FormatType, recs: seq<Record>)
    requires ParsedAll(before, f, recs) && ParseLine(line, f).Err?
    ensures FirstFailure(before + [line] + after, f, ParseLine(line, f).error)
    ensures !AllParse(before + [line] + after, f)
  {
    var data := before + [line] + after;
    assert data[|before|] == line;
    assert forall j :: 0 <= j < |before| ==> data[j] == before[j];
  }

  /**
   * `parseOutputFile`: an unknown layout fails before any line is read; otherwise one
   * record per data line, in file order, or the failure of the first data line that
   * does not parse.
   */
  method ParseOutputFile(lines: seq<string>, inputFileName: string) returns (r: Result<seq<Record>>)
    ensures Classify(inputFileName) == Unknown ==> r == Err(UnknownInputFormat)
    ensures Classify(inputFileName) != Unknown ==>
      (r.Ok? <==> AllParse(DataLines(lines), Classify(inputFileName)))
    ensures r.Ok? ==> ParsedAll(DataLines(lines), Classify(inputFileName), r.value)
    ensures r.Err? && Classify(inputFileName) != Unknown ==>
      FirstFailure(DataLines(lines), Classify(inputFileName), r.error)
  {
    var format := Classify(inputFileName);
    if format == Unknown {
      return Err(UnknownInputFormat);
    }
    var result: seq<Record> := [];
    var i := 0;
    while i < |lines|
      invariant 0 <= i <= |lines|
      invariant ParsedAll(DataLines(lines[..i]), format, result)
    {
      var line := lines[i];
      if !IsHeaderLine(line) {
        var rec := ParseLine(line, format);
        if rec.Err? {
          ParseFailsAt(lines, i, format, result);
          return Err(rec.error);
        }
        ParsedStep(lines, i, format, result);
        result := result + [rec.value];
      } else {
        ParsedStep(lines, i, format, result);
      }
      i := i + 1;
    }
    assert lines[..i] == lines;
    r := Ok(result);
  }
}
