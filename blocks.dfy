/**
 * Flushing one block of the completeness pass (`processInfoBlock`, `getFinalString`,
 * `getSystem`): the block's lines are split by satellite system, and each system's lines
 * give one report line counting, per data column, the lines that hold a value there.
 */
module Blocks {
  import opened Results
  import opened Tokenizer
  import opened Numerals

  /** The value the converter writes for an absent observation. */
  const NullValue: string := "9999999999.999"

  /** First token of the data columns of a record line. */
  const FirstCountColumn: nat := 5

  /**
   * A data line together with its tokens, as the loop holds them after splitting it.
   * The model builds rows with `RowOf`, so `tokens` is always the split of `line`; the worked
   * example's `GpsRow` is proved equal to `RowOf` of its line (`GpsLineRow`).
   */
  datatype Row = Row(line: string, tokens: seq<string>)

  function RowOf(line: string): Row {
    Row(line, Tokenize(line))
  }

  function RowsOf(lines: seq<string>): (rs: seq<Row>)
    ensures |rs| == |lines| && forall i :: 0 <= i < |lines| ==> rs[i] == RowOf(lines[i])
  {
    if lines == [] then [] else [RowOf(lines[0])] + RowsOf(lines[1..])
  }

  /** A data line the pass accepts: at least five tokens. */
  predicate WellFormed(row: Row) {
    |row.tokens| >= 5
  }

  predicate AllWellFormed(rows: seq<Row>) {
    forall i :: 0 <= i < |rows| ==> WellFormed(rows[i])
  }

  /** The timestamp of a line: its date and time tokens joined by a blank. */
  function Key(row: Row): string
    requires WellFormed(row)
  {
    row.tokens[2] + " " + row.tokens[3]
  }

  /** A row as `RowOf` builds it: its tokens are the split of its line. */
  predicate Split(row: Row) {
    row.tokens == Tokenize(row.line)
  }

  /** `getSystem`: token 1 of a line; a line with fewer than two tokens is an error. */
  function SystemOf(row: Row): (r: Result<string>)
    ensures r.Ok? <==> |row.tokens| >= 2
    ensures r.Ok? ==> r.value == row.tokens[1]
    ensures r.Err? ==> r.error == MalformedLine(row.line)
  {
    if |row.tokens| < 2 then Err(MalformedLine(row.line)) else Ok(row.tokens[1])
  }

  /** The keys of `groupingBy(this::getSystem)`: the systems that occur in the block. */
  function Systems(block: seq<Row>): set<string> {
    set i | 0 <= i < |block| && SystemOf(block[i]).Ok? :: SystemOf(block[i]).value
  }

  /** The value `groupingBy` maps `system` to: the block's lines of that system, in block order. */
  function SubBlock(block: seq<Row>, system: string): seq<Row> {
    if block == [] then []
    else
      var last := block[|block| - 1];
      SubBlock(block[..|block| - 1], system) + (if SystemOf(last) == Ok(system) then [last] else [])
  }

  /** `infoBlock.stream().collect(Collectors.groupingBy(this::getSystem))`. */
  function GroupBySystem(block: seq<Row>): (groups: map<string, seq<Row>>)
    ensures groups.Keys == Systems(block)
    ensures forall system :: system in groups ==> groups[system] == SubBlock(block, system)
  {
    map system | system in Systems(block) :: SubBlock(block, system)
  }

  /**
   * The grouping is a partition: a line is in the sub-block of `system` exactly when it
   * is a line of the block with that system, and a system has a non-empty sub-block
   * exactly when it occurs in the block.
   */
  lemma {:induction false} SubBlockMembers(block: seq<Row>, system: string)
    ensures forall row :: row in SubBlock(block, system) <==> row in block && SystemOf(row) == Ok(system)
    ensures SubBlock(block, system) != [] <==> system in Systems(block)
    ensures |SubBlock(block, system)| <= |block|
  {
    if block != [] {
      var init := block[..|block| - 1];
      var last := block[|block| - 1];
      SubBlockMembers(init, system);
      assert block == init + [last];
      if system in Systems(block) {
        var i :| 0 <= i < |block| && SystemOf(block[i]) == Ok(system);
        if i < |block| - 1 {
          assert init[i] == block[i];
        }
      }
      if system in Systems(init) {
        var i :| 0 <= i < |init| && SystemOf(init[i]) == Ok(system);
        assert block[i] == init[i];
      }
    }
  }

  /** Each sub-block of a system present in a block of well-formed lines is non-empty and well-formed. */
  lemma SubBlockWellFormed(block: seq<Row>, system: string)
    requires AllWellFormed(block) && system in Systems(block)
    ensures SubBlock(block, system) != [] && AllWellFormed(SubBlock(block, system))
  {
    SubBlockMembers(block, system);
    var sub := SubBlock(block, system);
    forall k | 0 <= k < |sub| ensures WellFormed(sub[k]) {
      assert sub[k] in sub;
    }
  }

  /** Line `row` holds a value in data column `j`: token 5+j exists and is not the null sentinel. */
  predicate Present(row: Row, j: nat) {
    FirstCountColumn + j < |row.tokens| && row.tokens[FirstCountColumn + j] != NullValue
  }

  /** How many lines of `sub` hold a value in data column `j`. */
  function Count(sub: seq<Row>, j: nat): (c: nat)
    ensures c <= |sub|
  {
    if sub == [] then 0
    else Count(sub[..|sub| - 1], j) + (if Present(sub[|sub| - 1], j) then 1 else 0)
  }

  /** `numberOfColumns`: the data columns of the first line, the length of `countArray`. */
  function Width(first: Row): nat
    requires WellFormed(first)
  {
    |first.tokens| - FirstCountColumn
  }

  /** The counts the array ends with: one per data column of the first line. */
  function Counts(sub: seq<Row>): seq<nat>
    requires sub != [] && WellFormed(sub[0])
  {
    seq(Width(sub[0]), j requires 0 <= j => Count(sub, j))
  }

  /**
   * `row` holds a value beyond the `width` columns of the array: the increment there
   * indexes past its end. Tokens beyond it that are the sentinel are skipped before
   * the array is touched.
   */
  predicate Overflows(row: Row, width: nat) {
    exists i :: FirstCountColumn + width <= i < |row.tokens| && row.tokens[i] != NullValue
  }

  /** Line `k` of the sub-block overflows the array sized from its first line. */
  predicate OverflowAt(sub: seq<Row>, k: int) {
    0 <= k < |sub| && WellFormed(sub[0]) && Overflows(sub[k], Width(sub[0]))
  }

  /** The sub-block can be counted without indexing past the array. */
  predicate Fits(sub: seq<Row>) {
    sub != [] && WellFormed(sub[0]) && forall k :: 0 <= k < |sub| ==> !OverflowAt(sub, k)
  }

  /** Column `j` counts every line exactly when every line holds a value there. */
  lemma {:induction false} CountAll(sub: seq<Row>, j: nat)
    ensures Count(sub, j) == |sub| <==> forall k :: 0 <= k < |sub| ==> Present(sub[k], j)
  {
    if sub != [] {
      var init := sub[..|sub| - 1];
      CountAll(init, j);
      if forall k :: 0 <= k < |sub| ==> Present(sub[k], j) {
        assert forall k :: 0 <= k < |init| ==> Present(init[k], j) by {
          forall k | 0 <= k < |init| ensures Present(init[k], j) {
            assert init[k] == sub[k];
          }
        }
      } else if Present(sub[|sub| - 1], j) {
        var k :| 0 <= k < |sub| && !Present(sub[k], j);
        assert init[k] == sub[k];
      }
    }
  }

  /** Column `j` counts nothing exactly when no line holds a value there. */
  lemma {:induction false} CountNone(sub: seq<Row>, j: nat)
    ensures Count(sub, j) == 0 <==> forall k :: 0 <= k < |sub| ==> !Present(sub[k], j)
  {
    if sub != [] {
      var init := sub[..|sub| - 1];
      CountNone(init, j);
      if Count(sub, j) == 0 {
        forall k | 0 <= k < |sub| ensures !Present(sub[k], j) {
          if k < |init| {
            assert init[k] == sub[k];
          }
        }
      }
    }
  }

  /** Lines no longer than the first never overflow: shorter lines just contribute fewer counts. */
  lemma NoLongerLinesFit(sub: seq<Row>)
    requires sub != [] && WellFormed(sub[0])
    requires forall k :: 0 <= k < |sub| ==> |sub[k].tokens| <= |sub[0].tokens|
    ensures Fits(sub)
  {
  }

  /**
   * The nested counting loop of `processInfoBlock`: it fails at the first line with a
   * value beyond the first line's columns, and otherwise yields, for each data column,
   * how many lines hold a value there.
   */
  method CountColumns(sub: seq<Row>) returns (r: Result<seq<nat>>)
    requires sub != [] && AllWellFormed(sub)
    ensures r.Ok? <==> Fits(sub)
    ensures r.Ok? ==> r.value == Counts(sub)
    ensures r.Err? ==> exists k :: (OverflowAt(sub, k) && r.error == ColumnOverflow(sub[k].line)
      && forall k' :: 0 <= k' < k ==> !OverflowAt(sub, k'))
  {
    var width := |sub[0].tokens| - FirstCountColumn;
    var countArray := new nat[width](_ => 0);
    var k := 0;
    while k < |sub|
      invariant 0 <= k <= |sub|
      invariant forall j :: 0 <= j < width ==> countArray[j] == Count(sub[..k], j)
      invariant forall k' :: 0 <= k' < k ==> !OverflowAt(sub, k')
    {
      var tokens := sub[k].tokens;
      var i := FirstCountColumn;
      while i < |tokens|
        invariant FirstCountColumn <= i <= |tokens|
        invariant forall j :: 0 <= j < width ==>
          countArray[j] == Count(sub[..k], j) + (if FirstCountColumn + j < i && Present(sub[k], j) then 1 else 0)
        invariant forall m :: FirstCountColumn + width <= m < i ==> tokens[m] == NullValue
      {
        if tokens[i] != NullValue {
          if i - FirstCountColumn >= width {
            assert OverflowAt(sub, k);
            return Err(ColumnOverflow(sub[k].line));
          }
          countArray[i - FirstCountColumn] := countArray[i - FirstCountColumn] + 1;
        }
        i := i + 1;
      }
      assert sub[..k + 1][..k] == sub[..k];
      assert !OverflowAt(sub, k);
      k := k + 1;
    }
    assert sub[..k] == sub;
    r := Ok(countArray[..]);
  }

  /** The counts as `getFinalString` appends them: each one, then a blank. */
  function CountsText(counts: seq<nat>): string {
    if counts == [] then ""
    else CountsText(counts[..|counts| - 1]) + NatToString(counts[|counts| - 1]) + " "
  }

  /** The report line `system dateTime c0 c1 ... `, trailing blank included. */
  function ReportText(dateTime: string, system: string, counts: seq<nat>): string {
    system + " " + dateTime + " " + CountsText(counts)
  }

  function CountWords(counts: seq<nat>): seq<string> {
    seq(|counts|, i requires 0 <= i < |counts| => NatToString(counts[i]))
  }

  /** `getFinalString`: a `StringBuilder` seeded with system and timestamp, one count and blank appended per column. */
  method FinalString(dateTime: string, system: string, counts: seq<nat>) returns (s: string)
    ensures s == ReportText(dateTime, system, counts)
  {
    s := system + " " + dateTime + " ";
    for i := 0 to |counts|
      invariant s == ReportText(dateTime, system, counts[..i])
    {
      assert counts[..i + 1][..i] == counts[..i];
      s := s + NatToString(counts[i]) + " ";
    }
    assert counts[..|counts|] == counts;
  }

  lemma NumeralIsWord(n: nat)
    ensures IsWord(NatToString(n))
  {
    var s := NatToString(n);
    forall i | 0 <= i < |s| ensures !IsSpace(s[i]) {
      assert IsDigit(s[i]);
    }
  }

  /** Three words joined by blanks. */
  lemma JoinThree(system: string, date: string, time: string)
    ensures Join([system, date, time]) == system + " " + (date + " " + time)
  {
    assert [system, date, time][1..] == [date, time] && [date, time][1..] == [time];
    assert Join([time]) == time;
    assert Join([date, time]) == date + " " + time;
  }

  /** The report line is its words joined by blanks, with one more blank at the end. */
  lemma {:induction false} ReportJoin(system: string, date: string, time: string, counts: seq<nat>)
    ensures ReportText(date + " " + time, system, counts) == Join([system, date, time] + CountWords(counts)) + " "
    decreases |counts|
  {
    if counts == [] {
      assert [system, date, time] + CountWords(counts) == [system, date, time];
      JoinThree(system, date, time);
    } else {
      var init := counts[..|counts| - 1];
      var w := NatToString(counts[|counts| - 1]);
      ReportJoin(system, date, time, init);
      ReportTextSnoc(date + " " + time, system, counts);
      var ws := [system, date, time] + CountWords(init);
      CountWordsSnoc(counts);
      assert [system, date, time] + CountWords(counts) == ws + [w];
      JoinSnoc(ws, w);
    }
  }

  /** One more count appends that count and a blank to the report line. */
  lemma ReportTextSnoc(dateTime: string, system: string, counts: seq<nat>)
    requires counts != []
    ensures ReportText(dateTime, system, counts)
      == ReportText(dateTime, system, counts[..|counts| - 1]) + NatToString(counts[|counts| - 1]) + " "
  {
    var head := system + " " + dateTime + " ";
    var init := CountsText(counts[..|counts| - 1]);
    var w := NatToString(counts[|counts| - 1]);
    assert CountsText(counts) == init + w + " ";
    assert head + (init + w + " ") == head + init + w + " ";
  }

  lemma CountWordsSnoc(counts: seq<nat>)
    requires counts != []
    ensures CountWords(counts) == CountWords(counts[..|counts| - 1]) + [NatToString(counts[|counts| - 1])]
  {
  }

  /**
   * Reading a report line back: its tokens are the system, the date, the time and the
   * counts, so the trailing blank adds no token.
   */
  lemma ReportTokens(system: string, date: string, time: string, counts: seq<nat>)
    requires IsWord(system) && IsWord(date) && IsWord(time)
    ensures Tokenize(ReportText(date + " " + time, system, counts)) == [system, date, time] + CountWords(counts)
  {
    ReportJoin(system, date, time, counts);
    var ws := [system, date, time] + CountWords(counts);
    forall i | 0 <= i < |ws| ensures IsWord(ws[i]) {
      if i >= 3 {
        NumeralIsWord(counts[i - 3]);
      }
    }
    TokenizeJoinSpace(ws);
  }

  /** The block flush can count every sub-block. */
  predicate BlockFits(block: seq<Row>) {
    forall system :: system in Systems(block) ==> Fits(SubBlock(block, system))
  }

  /** `order` lists each system of `systems` once: one possible iteration order of the `HashMap`. */
  ghost predicate IsOrderOf(order: seq<string>, systems: set<string>) {
    && (forall i, j :: 0 <= i < j < |order| ==> order[i] != order[j])
    && (forall s :: s in order <==> s in systems)
  }

  /** The report line of one system of a block, timestamp and system read off its first line. */
  function SubReport(block: seq<Row>, system: string): string
    requires system in Systems(block) && Fits(SubBlock(block, system))
  {
    var sub := SubBlock(block, system);
    ReportText(Key(sub[0]), sub[0].tokens[1], Counts(sub))
  }

  /**
   * A system's report line reads back as that system, the timestamp of its first line,
   * and one count per data column, each at most the number of the system's lines.
   */
  lemma SubReportTokens(block: seq<Row>, system: string)
    requires system in Systems(block) && Fits(SubBlock(block, system))
    requires forall i :: 0 <= i < |block| ==> Split(block[i])
    ensures var sub := SubBlock(block, system);
      && Tokenize(SubReport(block, system)) == [system, sub[0].tokens[2], sub[0].tokens[3]] + CountWords(Counts(sub))
      && forall j :: 0 <= j < |Counts(sub)| ==> Counts(sub)[j] <= |sub|
  {
    var sub := SubBlock(block, system);
    SubBlockMembers(block, system);
    assert sub[0] in sub;
    var i :| 0 <= i < |block| && block[i] == sub[0];
    TokenShape(sub[0].line);
    ReportTokens(sub[0].tokens[1], sub[0].tokens[2], sub[0].tokens[3], Counts(sub));
  }

  /** The lines a block flush writes when the systems come in `order`. */
  function BlockReport(block: seq<Row>, order: seq<string>): seq<string>
    requires forall s :: s in order ==> s in Systems(block) && Fits(SubBlock(block, s))
  {
    seq(|order|, k requires 0 <= k < |order| => SubReport(block, order[k]))
  }

  /**
   * The body of the loop of `processInfoBlock` for one system: count its sub-block and
   * render the report line from its first line's system and timestamp.
   */
  method SystemReport(sub: seq<Row>) returns (r: Result<string>)
    requires sub != [] && AllWellFormed(sub)
    ensures r.Ok? <==> Fits(sub)
    ensures r.Ok? ==> r.value == ReportText(Key(sub[0]), sub[0].tokens[1], Counts(sub))
    ensures r.Err? ==> exists k :: (OverflowAt(sub, k) && r.error == ColumnOverflow(sub[k].line)
      && forall k' :: 0 <= k' < k ==> !OverflowAt(sub, k'))
  {
    var counts := CountColumns(sub);
    if counts.Err? {
      return Err(counts.error);
    }
    var first := sub[0].tokens;
    var line := FinalString(first[2] + " " + first[3], first[1], counts.value);
    return Ok(line);
  }

  /**
   * `processInfoBlock`: one report line per system of the block, in the iteration order
   * of the grouping map; the flush fails on the first sub-block, in that order, with
   * its first line that overflows its array.
   */
  method ProcessInfoBlock(block: seq<Row>) returns (r: Result<seq<string>>, ghost order: seq<string>)
    requires AllWellFormed(block)
    ensures r.Ok? <==> BlockFits(block)
    ensures r.Ok? ==> IsOrderOf(order, Systems(block)) && r.value == BlockReport(block, order)
    ensures r.Err? ==> OverflowIn(block, r.error)
  {
    var groups := GroupBySystem(block);
    var remaining := groups.Keys;
    var lines: seq<string> := [];
    order := [];
    FlushStart(block);
    while remaining != {}
      invariant FlushedSoFar(block, remaining, order, lines)
      decreases |remaining|
    {
      var system :| system in remaining;
      var sub := groups[system];
      SubBlockWellFormed(block, system);
      var line := SystemReport(sub);
      if line.Err? {
        ghost var k :| OverflowAt(sub, k) && line.error == ColumnOverflow(sub[k].line)
          && forall k' :: 0 <= k' < k ==> !OverflowAt(sub, k');
        FlushFails(block, system, k);
        r := Err(line.error);
        return;
      }
      FlushStep(block, remaining, order, lines, system, line.value);
      lines := lines + [line.value];
      order := order + [system];
      remaining := remaining - {system};
    }
    FlushDone(block, order, lines);
    r := Ok(lines);
  }

  /**
   * The loop of `processInfoBlock` so far: the systems already visited are `order`, each
   * of them could be counted, and `lines` holds their report lines.
   */
  ghost predicate FlushedSoFar(block: seq<Row>, remaining: set<string>, order: seq<string>, lines: seq<string>) {
    && remaining <= Systems(block)
    && IsOrderOf(order, Systems(block) - remaining)
    && (forall s :: s in order ==> s in Systems(block) && Fits(SubBlock(block, s)))
    && lines == BlockReport(block, order)
  }

  lemma FlushStart(block: seq<Row>)
    ensures FlushedSoFar(block, Systems(block), [], [])
  {
  }

  lemma FlushStep(block: seq<Row>, remaining: set<string>, order: seq<string>, lines: seq<string>,
                  system: string, line: string)
    requires FlushedSoFar(block, remaining, order, lines) && system in remaining
    requires Fits(SubBlock(block, system)) && line == SubReport(block, system)
    ensures FlushedSoFar(block, remaining - {system}, order + [system], lines + [line])
  {
    BlockReportSnoc(block, order, system);
  }

  /** A sub-block whose line `k` is its first to overflow fails the whole flush with that line. */
  lemma FlushFails(block: seq<Row>, system: string, k: nat)
    requires system in Systems(block) && OverflowAt(SubBlock(block, system), k)
    requires forall k' :: 0 <= k' < k ==> !OverflowAt(SubBlock(block, system), k')
    ensures !BlockFits(block) && OverflowIn(block, ColumnOverflow(SubBlock(block, system)[k].line))
  {
  }

  lemma FlushDone(block: seq<Row>, order: seq<string>, lines: seq<string>)
    requires FlushedSoFar(block, {}, order, lines)
    ensures BlockFits(block) && IsOrderOf(order, Systems(block)) && lines == BlockReport(block, order)
  {
  }

  /** Reporting one more system appends its report line. */
  lemma BlockReportSnoc(block: seq<Row>, order: seq<string>, system: string)
    requires forall s :: s in order ==> s in Systems(block) && Fits(SubBlock(block, s))
    requires system in Systems(block) && Fits(SubBlock(block, system))
    ensures BlockReport(block, order + [system]) == BlockReport(block, order) + [SubReport(block, system)]
  {
  }

  /**
   * The error a flush of `block` fails with: within some sub-block, the first line that
   * overflows its array.
   */
  ghost predicate OverflowIn(block: seq<Row>, e: Error) {
    exists system, k :: (system in Systems(block) && OverflowAt(SubBlock(block, system), k)
      && e == ColumnOverflow(SubBlock(block, system)[k].line)
      && forall k' :: 0 <= k' < k ==> !OverflowAt(SubBlock(block, system), k'))
  }

  /** An iteration order of a set of systems lists each once, so it is as long as the set is large. */
  lemma {:induction false} OrderLength(order: seq<string>, systems: set<string>)
    requires IsOrderOf(order, systems)
    ensures |order| == |systems|
    decreases |order|
  {
    if order == [] {
      assert systems == {};
    } else {
      var rest := systems - {order[0]};
      forall s ensures s in order[1..] <==> s in rest {
        if s in order[1..] {
          var i :| 0 <= i < |order[1..]| && order[1..][i] == s;
          assert order[i + 1] == s;
        }
        if s in rest {
          var i :| 0 <= i < |order| && order[i] == s;
          assert order[1..][i - 1] == s;
        }
      }
      OrderLength(order[1..], rest);
    }
  }

  /**
   * A flush writes one line per distinct system of the block, whatever the order; an
   * empty block has no systems and writes nothing.
   */
  lemma OneLinePerSystem(block: seq<Row>, order: seq<string>)
    requires BlockFits(block) && IsOrderOf(order, Systems(block))
    ensures |BlockReport(block, order)| == |Systems(block)|
    ensures block == [] ==> BlockReport(block, order) == []
  {
    OrderLength(order, Systems(block));
    assert Systems([]) == {};
  }

  /** The words of a GPS line of the epoch 2021-01-01 00:00:00 with three data columns. */
  function GpsWords(sat: string, third: string): seq<string> {
    ["G", "2021-01-01", "00:00:00", sat, "1.5", "2.5", third]
  }

  /**
   * A GPS record line as the converter writes it: one leading blank, then its words
   * separated by blanks, e.g. ` G 2021-01-01 00:00:00 01 1.5 2.5 3.5`.
   */
  function GpsLine(sat: string, third: string): string {
    " " + Join(GpsWords(sat, third))
  }

  /** A row whose tokens are those of a GPS line. */
  function GpsRow(line: string, sat: string, third: string): Row {
    Row(line, [""] + GpsWords(sat, third))
  }

  /** Splitting a GPS line gives the leading "" and then its words. */
  lemma GpsLineRow(sat: string, third: string)
    requires IsWord(sat) && IsWord(third)
    ensures RowOf(GpsLine(sat, third)) == GpsRow(GpsLine(sat, third), sat, third)
  {
    var ws := GpsWords(sat, third);
    forall i | 0 <= i < |ws| ensures IsWord(ws[i]) {
      if i == 1 {
        assert ws[1] == "2021-01-01";
      } else if i == 2 {
        assert ws[2] == "00:00:00";
      }
    }
    TokenizeLeadingSpace(ws);
  }

  /** The worked block: two GPS lines of one epoch, the second missing its last value. */
  predicate WorkedBlock(block: seq<Row>) {
    block == [RowOf(GpsLine("01", "3.5")), RowOf(GpsLine("02", NullValue))]
  }

  /** The null sentinel is a single token. */
  lemma NullValueIsWord()
    ensures IsWord(NullValue)
  {
    forall i | 0 <= i < |NullValue| ensures !IsSpace(NullValue[i]) {
      assert NullValue[i] == '9' || NullValue[i] == '.';
    }
  }

  /** The worked block, row by row. */
  lemma WorkedRows(block: seq<Row>)
    requires WorkedBlock(block)
    ensures block == [GpsRow(GpsLine("01", "3.5"), "01", "3.5"), GpsRow(GpsLine("02", NullValue), "02", NullValue)]
  {
    FirstWorkedRow();
    SecondWorkedRow();
  }

  lemma FirstWorkedRow()
    ensures RowOf(GpsLine("01", "3.5")) == GpsRow(GpsLine("01", "3.5"), "01", "3.5")
  {
    assert IsWord("01") && IsWord("3.5");
    GpsLineRow("01", "3.5");
  }

  lemma SecondWorkedRow()
    ensures RowOf(GpsLine("02", NullValue)) == GpsRow(GpsLine("02", NullValue), "02", NullValue)
  {
    assert IsWord("02");
    NullValueIsWord();
    GpsLineRow("02", NullValue);
  }

  lemma RowCounts(block: seq<Row>, a: string, b: string)
    requires block == [GpsRow(a, "01", "3.5"), GpsRow(b, "02", NullValue)]
    ensures SubBlock(block, "G") == block && Fits(block) && Counts(block) == [2, 2, 1]
  {
    WorkedSubBlock(block, a, b);
    NoLongerLinesFit(block);
    WorkedCounts(block, a, b);
  }

  lemma WorkedSubBlock(block: seq<Row>, a: string, b: string)
    requires block == [GpsRow(a, "01", "3.5"), GpsRow(b, "02", NullValue)]
    ensures SubBlock(block, "G") == block
  {
    assert block[..1] == [block[0]] && [block[0]][..0] == [];
    assert SystemOf(block[0]) == Ok("G") && SystemOf(block[1]) == Ok("G");
    assert SubBlock([block[0]], "G") == [block[0]];
  }

  lemma WorkedCounts(block: seq<Row>, a: string, b: string)
    requires block == [GpsRow(a, "01", "3.5"), GpsRow(b, "02", NullValue)]
    ensures Counts(block) == [2, 2, 1]
  {
    assert |"1.5"| != |NullValue| && |"2.5"| != |NullValue| && |"3.5"| != |NullValue|;
    assert Present(block[0], 0) && Present(block[0], 1) && Present(block[0], 2);
    assert Present(block[1], 0) && Present(block[1], 1) && !Present(block[1], 2);
    assert block[..1] == [block[0]] && [block[0]][..0] == [];
    assert Count(block, 0) == 2 && Count(block, 1) == 2 && Count(block, 2) == 1;
  }

  /** The worked block has one system, and its lines hold 2, 2 and 1 values in the three columns. */
  lemma ExampleCounts(block: seq<Row>)
    requires WorkedBlock(block)
    ensures SubBlock(block, "G") == block && Fits(block) && Counts(block) == [2, 2, 1]
  {
    WorkedRows(block);
    RowCounts(block, GpsLine("01", "3.5"), GpsLine("02", NullValue));
  }

  lemma ExampleCountsText()
    ensures CountsText([2, 2, 1]) == "2 2 1 "
  {
    assert [2, 2, 1][..2] == [2, 2] && [2, 2][..1] == [2] && [2][..0] == [];
  }

  lemma RowReport(block: seq<Row>, a: string, b: string)
    requires block == [GpsRow(a, "01", "3.5"), GpsRow(b, "02", NullValue)]
    ensures Systems(block) == {"G"}
    ensures BlockFits(block) && IsOrderOf(["G"], Systems(block))
    ensures BlockReport(block, ["G"]) == ["G 2021-01-01 00:00:00 2 2 1 "]
  {
    RowCounts(block, a, b);
    ExampleCountsText();
    assert SystemOf(block[0]) == Ok("G") && SystemOf(block[1]) == Ok("G");
    assert Systems(block) == {"G"};
    assert Key(block[0]) == "2021-01-01 00:00:00";
    assert SubReport(block, "G") == "G" + " " + "2021-01-01 00:00:00" + " " + "2 2 1 ";
    WorkedLineText();
    assert BlockReport(block, ["G"]) == [SubReport(block, "G")];
  }

  lemma WorkedLineText()
    ensures "G" + " " + "2021-01-01 00:00:00" + " " + "2 2 1 " == "G 2021-01-01 00:00:00 2 2 1 "
  {
  }

  /**
   * Flushing the worked block writes the single line `G 2021-01-01 00:00:00 2 2 1 `:
   * one system, two lines holding the first two columns, one holding the third.
   */
  lemma TwoTwoOneExample(block: seq<Row>)
    requires WorkedBlock(block)
    ensures Systems(block) == {"G"}
    ensures BlockFits(block) && IsOrderOf(["G"], Systems(block))
    ensures BlockReport(block, ["G"]) == ["G 2021-01-01 00:00:00 2 2 1 "]
  {
    WorkedRows(block);
    RowReport(block, GpsLine("01", "3.5"), GpsLine("02", NullValue));
  }
}
