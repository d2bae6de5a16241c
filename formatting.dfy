/**
 * The fixed-width rewriting of the regrouped files: `getProcessedLine` turns a data line
 * into a decimal-hour time padded to 10 followed by its data columns padded to 20, and
 * `getFormattedHeader` turns a header line into `#TIME` padded the same way.
 */
module Formatting {
  import opened Results
  import opened Tokenizer
  import opened Numerals
  import opened Times

  /** Width of the time column and of the header labels. */
  const DefaultColumnPad: nat := 10
  /** Width of every data column. */
  const CustomColumnPad: nat := 20

  /**
   * What `getHeaderIndices` resolves: the positions of `DATE` and `TIME` and the first
   * data column.
   */
  datatype ColumnIndices = ColumnIndices(dateIndex: nat, timeIndex: nat, dataStartIndex: nat)

  /** The `nameToIndexMap` of a `ColumnIndices`: one entry per selected column. */
  function NameToIndex(ci: ColumnIndices): (m: map<string, nat>)
    ensures m.Keys == {"DATE", "TIME"}
  {
    map["DATE" := ci.dateIndex, "TIME" := ci.timeIndex]
  }

  function Spaces(n: nat): (r: string)
    ensures |r| == n && AllSpaces(r)
  {
    seq(n, _ => ' ')
  }

  predicate AllSpaces(s: string) {
    forall i :: 0 <= i < |s| ==> s[i] == ' '
  }

  /** `StringUtils.rightPad(s, width)`: blanks appended up to `width`; a longer `s` is left as it is. */
  function RightPad(s: string, width: nat): (r: string)
    ensures |r| == if |s| < width then width else |s|
  {
    if |s| < width then s + Spaces(width - |s|) else s
  }

  /** The padded string starts with `s` and continues with blanks only. */
  lemma RightPadContents(s: string, width: nat)
    ensures RightPad(s, width)[..|s|] == s
    ensures AllSpaces(RightPad(s, width)[|s|..])
  {
    if |s| < width {
      assert RightPad(s, width)[|s|..] == Spaces(width - |s|);
    }
  }

  /** The tokens from `start` onward; none when `start` is past the end. */
  function DataRegion(tokens: seq<string>, start: nat): (r: seq<string>)
    ensures |r| == if start <= |tokens| then |tokens| - start else 0
    ensures forall k :: 0 <= k < |r| ==> r[k] == tokens[start + k]
  {
    if start <= |tokens| then tokens[start..] else []
  }

  /** Each word right-padded to `width`, concatenated. */
  function PaddedColumns(ws: seq<string>, width: nat): string {
    if ws == [] then "" else RightPad(ws[0], width) + PaddedColumns(ws[1..], width)
  }

  /** The header labels `getFormattedHeader` writes: every selected column except `DATE`. */
  function HeaderLabels(ci: ColumnIndices): set<string> {
    NameToIndex(ci).Keys - {"DATE"}
  }

  /** Of the two selected columns only `TIME` is written as a header label. */
  lemma HeaderLabelsAreTime(ci: ColumnIndices)
    ensures HeaderLabels(ci) == {"TIME"}
  {
    assert "DATE" != "TIME";
  }

  /** The rewritten header: `#`, the `TIME` label padded to 10, then the header's data labels padded to 20. */
  function HeaderText(header: string, ci: ColumnIndices): string {
    "#" + RightPad("TIME", DefaultColumnPad)
    + PaddedColumns(DataRegion(Tokenize(header), ci.dataStartIndex), CustomColumnPad)
  }

  /**
   * The line `getProcessedLine` produces. Without indices the line is returned unchanged;
   * otherwise the `TIME` token must exist and parse as a time of day.
   */
  function ProcessedLineText(line: string, ci: Option<ColumnIndices>): (r: Result<string>)
    ensures ci.None? ==> r == Ok(line)
    ensures ci.Some? ==>
      var tokens := Tokenize(line);
      var k := ci.value.timeIndex;
      && (r.Ok? <==> k < |tokens| && ParseTime(tokens[k]).Some?)
      && (k >= |tokens| ==> r == Err(MalformedLine(line)))
      && (k < |tokens| && ParseTime(tokens[k]).None? ==> r == Err(BadTime(tokens[k])))
  {
    match ci
    case None => Ok(line)
    case Some(c) =>
      var tokens := Tokenize(line);
      if c.timeIndex >= |tokens| then Err(MalformedLine(line))
      else match ParseTime(tokens[c.timeIndex])
        case None => Err(BadTime(tokens[c.timeIndex]))
        case Some(t) =>
          Ok(RightPad(DecimalHours(t), DefaultColumnPad)
             + PaddedColumns(DataRegion(tokens, c.dataStartIndex), CustomColumnPad))
  }

  /** Appending one more column at the end. */
  lemma {:induction false} PaddedColumnsAppend(ws: seq<string>, w: string, width: nat)
    ensures PaddedColumns(ws + [w], width) == PaddedColumns(ws, width) + RightPad(w, width)
    decreases |ws|
  {
    if ws == [] {
      assert [w][1..] == [];
    } else {
      assert (ws + [w])[1..] == ws[1..] + [w];
      PaddedColumnsAppend(ws[1..], w, width);
    }
  }

  /** Every column is exactly `width` wide when no word is wider. */
  lemma {:induction false} PaddedColumnsLength(ws: seq<string>, width: nat)
    requires forall i :: 0 <= i < |ws| ==> |ws[i]| <= width
    ensures |PaddedColumns(ws, width)| == width * |ws|
    decreases |ws|
  {
    if ws != [] {
      PaddedColumnsLength(ws[1..], width);
      assert |RightPad(ws[0], width)| == width;
      MulSucc(width, |ws[1..]|);
    }
  }

  lemma MulSucc(width: nat, n: nat)
    ensures width * (n + 1) == width + width * n
  {
  }

  /** The columns of a concatenation are the columns of each part, side by side. */
  lemma {:induction false} PaddedColumnsSplit(ws: seq<string>, k: nat, width: nat)
    requires k <= |ws|
    ensures PaddedColumns(ws, width) == PaddedColumns(ws[..k], width) + PaddedColumns(ws[k..], width)
    decreases k
  {
    if k > 0 {
      PaddedColumnsSplit(ws[1..], k - 1, width);
      assert ws[1..][..k - 1] == ws[..k][1..];
      assert ws[1..][k - 1..] == ws[k..];
    }
  }

  /**
   * Columns sit at fixed offsets, which is what downstream readers rely on: when no word
   * is wider than the column, word `k` occupies characters `width * k` up to
   * `width * (k + 1)`, followed only by blanks.
   */
  lemma PaddedColumnOffset(ws: seq<string>, width: nat, k: nat)
    requires forall i :: 0 <= i < |ws| ==> |ws[i]| <= width
    requires k < |ws|
    ensures |PaddedColumns(ws, width)| == width * |ws|
    ensures width * (k + 1) <= width * |ws|
    ensures PaddedColumns(ws, width)[width * k .. width * (k + 1)] == RightPad(ws[k], width)
  {
    var x := PaddedColumns(ws, width);
    var a := PaddedColumns(ws[..k], width);
    var cell := RightPad(ws[k], width);
    var rest := PaddedColumns(ws[k + 1..], width);
    PaddedColumnsLength(ws, width);
    PaddedPrefixLength(ws, k, width);
    PaddedColumnsSplit(ws, k, width);
    assert ws[k..][1..] == ws[k + 1..];
    assert x == a + (cell + rest);
    MulStep(width, k, |ws|);
    CellAt(a, cell, rest, x, width * k, width);
  }

  /** The columns of the first `k` words take `width * k` characters. */
  lemma PaddedPrefixLength(ws: seq<string>, k: nat, width: nat)
    requires forall i :: 0 <= i < |ws| ==> |ws[i]| <= width
    requires k <= |ws|
    ensures |PaddedColumns(ws[..k], width)| == width * k
  {
    PaddedColumnsLength(ws[..k], width);
  }

  lemma CellAt(a: string, cell: string, rest: string, x: string, offset: nat, w: nat)
    requires x == a + (cell + rest) && |a| == offset && |cell| == w
    ensures offset + w <= |x| && x[offset..offset + w] == cell
  {
  }

  lemma MulStep(width: nat, k: nat, n: nat)
    requires k < n
    ensures width * (k + 1) == width * k + width
    ensures width * (k + 1) <= width * n
  {
    assert width * n == width * (k + 1) + width * (n - k - 1);
  }

  /** The words a padded column run is made of, when every word fits with a blank to spare. */
  predicate FitsColumns(ws: seq<string>, width: nat) {
    forall i :: 0 <= i < |ws| ==> IsWord(ws[i]) && |ws[i]| < width
  }

  /** Splitting padded columns gives the words back, plus the empty piece after the final blanks. */
  lemma {:induction false} FieldsPaddedColumns(ws: seq<string>, width: nat)
    requires FitsColumns(ws, width)
    ensures Fields(PaddedColumns(ws, width)) == ws + [""]
    ensures PaddedColumns(ws, width) == [] || !IsSpace(PaddedColumns(ws, width)[0])
    decreases |ws|
  {
    if ws != [] {
      FieldsPaddedColumns(ws[1..], width);
      var rest := PaddedColumns(ws[1..], width);
      var gap := Spaces(width - |ws[0]|);
      assert RightPad(ws[0], width) == ws[0] + gap;
      FieldsWordGap(ws[0], gap, rest);
      assert PaddedColumns(ws, width) == ws[0] + gap + rest;
      assert ws == [ws[0]] + ws[1..];
      assert PaddedColumns(ws, width)[0] == ws[0][0];
    }
  }

  /**
   * Round trip: a word padded to `firstWidth` followed by padded columns tokenizes back to
   * that word and those columns.
   */
  lemma TokenizePaddedLine(first: string, firstWidth: nat, ws: seq<string>, width: nat)
    requires IsWord(first) && |first| < firstWidth
    requires FitsColumns(ws, width)
    ensures Tokenize(RightPad(first, firstWidth) + PaddedColumns(ws, width)) == [first] + ws
  {
    FieldsPaddedColumns(ws, width);
    var rest := PaddedColumns(ws, width);
    var gap := Spaces(firstWidth - |first|);
    assert RightPad(first, firstWidth) == first + gap;
    FieldsWordGap(first, gap, rest);
    var s := RightPad(first, firstWidth) + rest;
    assert s == first + gap + rest;
    var fs := Fields(s);
    var xs := [first] + ws;
    assert fs == xs + [""];
    assert s != [] && fs[..|fs| - 1] == xs;
    assert xs[|xs| - 1] != "";
    assert DropTrailingEmpty(xs) == xs;
  }

  /** The tokens after the first of a line are words, so its data region is made of words. */
  lemma DataRegionWords(tokens: seq<string>, line: string, start: nat)
    requires tokens == Tokenize(line) && start >= 1
    ensures forall i :: 0 <= i < |DataRegion(tokens, start)| ==> IsWord(DataRegion(tokens, start)[i])
  {
    TokenShape(line);
  }

  /**
   * Meaning of a rewritten data line: when its data columns are narrower than 20, it
   * tokenizes to the decimal-hour time followed by exactly the original line's data
   * columns, and each column starts at a fixed offset after the 10-wide time.
   */
  lemma ProcessedLineTokens(line: string, c: ColumnIndices)
    requires c.dataStartIndex >= 1
    requires ProcessedLineText(line, Some(c)).Ok?
    requires forall i :: 0 <= i < |DataRegion(Tokenize(line), c.dataStartIndex)| ==>
      |DataRegion(Tokenize(line), c.dataStartIndex)[i]| < CustomColumnPad
    ensures var tokens := Tokenize(line);
      var t := ParseTime(tokens[c.timeIndex]).value;
      var region := DataRegion(tokens, c.dataStartIndex);
      var r := ProcessedLineText(line, Some(c)).value;
      && Tokenize(r) == [DecimalHours(t)] + region
      && |r| == DefaultColumnPad + CustomColumnPad * |region|
      && r[..DefaultColumnPad] == RightPad(DecimalHours(t), DefaultColumnPad)
  {
    var tokens := Tokenize(line);
    var t := ParseTime(tokens[c.timeIndex]).value;
    var region := DataRegion(tokens, c.dataStartIndex);
    var dh := DecimalHours(t);
    DataRegionWords(tokens, line, c.dataStartIndex);
    assert IsWord(dh) by {
      forall i | 0 <= i < |dh| ensures !IsSpace(dh[i]) {
        if i < |dh| - 7 {
          assert dh[..|dh| - 7][i] == dh[i];
        } else if i > |dh| - 7 {
          assert dh[|dh| - 6..][i - (|dh| - 6)] == dh[i];
        }
      }
    }
    TokenizePaddedLine(dh, DefaultColumnPad, region, CustomColumnPad);
    PaddedColumnsLength(region, CustomColumnPad);
  }

  /**
   * Meaning of a rewritten header: it tokenizes to `#TIME` followed by exactly the
   * header's data labels.
   */
  lemma HeaderTokens(header: string, ci: ColumnIndices)
    requires ci.dataStartIndex >= 1
    requires forall i :: 0 <= i < |DataRegion(Tokenize(header), ci.dataStartIndex)| ==>
      |DataRegion(Tokenize(header), ci.dataStartIndex)[i]| < CustomColumnPad
    ensures Tokenize(HeaderText(header, ci)) == ["#TIME"] + DataRegion(Tokenize(header), ci.dataStartIndex)
  {
    var region := DataRegion(Tokenize(header), ci.dataStartIndex);
    DataRegionWords(Tokenize(header), header, ci.dataStartIndex);
    TimeLabel();
    TokenizePaddedLine("#TIME", 11, region, CustomColumnPad);
  }

  /** `#` followed by `TIME` padded to 10 is `#TIME` padded to 11. */
  lemma TimeLabel()
    ensures RightPad("#TIME", 11) == "#" + RightPad("TIME", DefaultColumnPad)
    ensures IsWord("#TIME")
  {
    assert RightPad("#TIME", 11) == "#TIME" + Spaces(6);
    assert "#" + RightPad("TIME", DefaultColumnPad) == "#TIME" + Spaces(6);
  }

  /**
   * The loop both builders share: append each token from `start` onward, right-padded to
   * 20; nothing when `start` is past the end.
   */
  method AppendDataColumns(prefix: string, tokens: seq<string>, start: nat) returns (r: string)
    ensures r == prefix + PaddedColumns(DataRegion(tokens, start), CustomColumnPad)
  {
    r := prefix;
    if start >= |tokens| {
      assert DataRegion(tokens, start) == [];
      return;
    }
    var i := start;
    while i < |tokens|
      invariant start <= i <= |tokens|
      invariant r == prefix + PaddedColumns(tokens[start..i], CustomColumnPad)
      decreases |tokens| - i
    {
      ColumnsStep(prefix, r, tokens, start, i, CustomColumnPad);
      r := r + RightPad(tokens[i], CustomColumnPad);
      i := i + 1;
    }
    RunIsRegion(tokens, start);
  }

  /** One more iteration appends the next token of the run from `start`, padded. */
  lemma ColumnsStep(prefix: string, r: string, tokens: seq<string>, start: nat, i: nat, width: nat)
    requires start <= i < |tokens|
    requires r == prefix + PaddedColumns(tokens[start..i], width)
    ensures r + RightPad(tokens[i], width) == prefix + PaddedColumns(tokens[start..i + 1], width)
  {
    var run := tokens[start..i];
    assert tokens[start..i + 1] == run + [tokens[i]];
    PaddedColumnsAppend(run, tokens[i], width);
    AppendAssoc(prefix, PaddedColumns(run, width), RightPad(tokens[i], width));
  }

  lemma AppendAssoc(a: string, b: string, c: string)
    ensures a + b + c == a + (b + c)
  {
  }

  /** The run the loop covers is the data region. */
  lemma RunIsRegion(tokens: seq<string>, start: nat)
    requires start <= |tokens|
    ensures tokens[start..|tokens|] == DataRegion(tokens, start)
  {
  }

  /** `getFormattedHeader`: the label loop runs over the key set less `DATE`, then the data labels are appended. */
  method FormattedHeader(header: string, ci: ColumnIndices) returns (r: string)
    ensures r == HeaderText(header, ci)
  {
    var tokens := Tokenize(header);
    var labelled := "#";
    var labels := HeaderLabels(ci);
    HeaderLabelsAreTime(ci);
    while labels != {}
      invariant labels == {} || labels == {"TIME"}
      invariant labelled == if labels == {} then "#" + RightPad("TIME", DefaultColumnPad) else "#"
      decreases |labels|
    {
      var x :| x in labels;
      labelled := labelled + RightPad(x, DefaultColumnPad);
      labels := labels - {x};
    }
    r := AppendDataColumns(labelled, tokens, ci.dataStartIndex);
  }

  /** `getProcessedLine`: the padded time, then each data token appended in a loop. */
  method ProcessedLine(line: string, ci: Option<ColumnIndices>) returns (r: Result<string>)
    ensures r == ProcessedLineText(line, ci)
  {
    if ci.None? {
      return Ok(line);
    }
    var c := ci.value;
    var tokens := Tokenize(line);
    if c.timeIndex >= |tokens| {
      return Err(MalformedLine(line));
    }
    var time := ParseTime(tokens[c.timeIndex]);
    if time.None? {
      return Err(BadTime(tokens[c.timeIndex]));
    }
    var paddedTime := RightPad(DecimalHours(time.value), DefaultColumnPad);
    var builder := AppendDataColumns(paddedTime, tokens, c.dataStartIndex);
    return Ok(builder);
  }

  lemma HalfHourDigits()
    ensures PadDigits(500000, 6) == "500000"
  {
    assert PadDigits(5, 1) == "5";
    assert PadDigits(50, 2) == "50";
    assert PadDigits(500, 3) == "500";
    assert PadDigits(5000, 4) == "5000";
    assert PadDigits(50000, 5) == "50000";
  }

  /** `DecimalHours` is the whole hours, a point and the six-digit fraction of the micro-hour count. */
  lemma DecimalHoursParts(t: TimeOfDay)
    requires IsValid(t)
    ensures DecimalHours(t) == NatToString(MicroHours(t) / 1000000) + "." + PadDigits(MicroHours(t) % 1000000, 6)
  {
  }

  /**
   * Worked case: 06:30:00 is 6.5 hours, 6500000 micro-hours, so by `DecimalHoursParts`
   * it is written "6" + "." + "500000".
   */
  lemma HalfPastSixExample(t: TimeOfDay)
    requires t == TimeOfDay(6, 30, 0)
    ensures IsValid(t) && MicroHours(t) == 6500000
    ensures NatToString(MicroHours(t) / 1000000) == "6" && PadDigits(MicroHours(t) % 1000000, 6) == "500000"
  {
    assert SecondOfDay(t) == 23400;
    assert NatToString(6) == "6";
    HalfHourDigits();
  }
}
