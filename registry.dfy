/**
 * The epoch completeness pass (`createRegistryFile`, `processInfoBlock`,
 * `getFinalString`, `getSystem`): data lines are read in order and gathered into blocks
 * that share a timestamp; every flushed block reports, per satellite system, how many of
 * its lines have a value in each data column.
 */
module Registry {
  import opened Results
  import opened Tokenizer
  import opened Blocks

  /**
   * The state the loop threads through the lines: either no timestamp has been seen yet
   * (`currentTime == null`), or the current timestamp and the lines gathered for it.
   */
  datatype EpochState = NoCurrentEpoch | Accumulating(current: string, block: seq<Row>)

  /**
   * What a pass over data lines amounts to: the blocks flushed, in order, and the first
   * line with fewer than five tokens, at which the pass stops.
   */
  datatype Scan = Scan(flushed: seq<seq<Row>>, malformed: Option<string>)

  /** The state after one line, and the blocks that line flushes (none or one). */
  datatype Transition = Transition(next: EpochState, flushed: seq<seq<Row>>)

  /** One step of the loop on one data line. */
  function Step(state: EpochState, line: Row): Transition
    requires WellFormed(line)
  {
    match state
    case NoCurrentEpoch => Transition(Accumulating(Key(line), []), [])
    case Accumulating(current, block) =>
      if Key(line) == current then Transition(Accumulating(current, block + [line]), [])
      else Transition(Accumulating(Key(line), [line]), [block])
  }

  /** The loop of `createRegistryFile` over the data lines, from a given state. */
  function ScanLines(state: EpochState, data: seq<Row>): Scan
    decreases |data|
  {
    if data == [] then Scan([], None)
    else if !WellFormed(data[0]) then Scan([], Some(data[0].line))
    else
      var t := Step(state, data[0]);
      var rest := ScanLines(t.next, data[1..]);
      Scan(t.flushed + rest.flushed, rest.malformed)
  }

  /**
   * Prefix the epochs `es` with the block `b` of timestamp `k`: `b` is glued to the first
   * epoch when that epoch has the same timestamp, and stands alone otherwise.
   */
  function Merge(k: string, b: seq<Row>, es: seq<seq<Row>>): seq<seq<Row>> {
    if es != [] && es[0] != [] && WellFormed(es[0][0]) && Key(es[0][0]) == k
    then [b + es[0]] + es[1..]
    else [b] + es
  }

  /** The epochs of a sequence of lines: its maximal runs of consecutive lines with one timestamp. */
  function Epochs(data: seq<Row>): seq<seq<Row>>
    requires AllWellFormed(data)
  {
    if data == [] then [] else Merge(Key(data[0]), [data[0]], Epochs(data[1..]))
  }

  function Flatten(es: seq<seq<Row>>): seq<Row> {
    if es == [] then [] else es[0] + Flatten(es[1..])
  }

  /** Every line of epoch `e` has timestamp `k`. */
  predicate OneTimestamp(e: seq<Row>, k: string)
    requires AllWellFormed(e)
  {
    forall i :: 0 <= i < |e| ==> Key(e[i]) == k
  }

  /**
   * `es` cuts lines into maximal runs: every run is non-empty, its lines share a
   * timestamp, and neighbouring runs have different timestamps.
   */
  predicate MaximalRuns(es: seq<seq<Row>>) {
    NonEmptyRuns(es) && RunsShareTimestamp(es) && RunsChangeTimestamp(es)
  }

  predicate NonEmptyRuns(es: seq<seq<Row>>) {
    forall i :: 0 <= i < |es| ==> es[i] != [] && AllWellFormed(es[i])
  }

  predicate RunsShareTimestamp(es: seq<seq<Row>>)
    requires NonEmptyRuns(es)
  {
    forall i :: 0 <= i < |es| ==> OneTimestamp(es[i], Key(es[i][0]))
  }

  predicate RunsChangeTimestamp(es: seq<seq<Row>>)
    requires NonEmptyRuns(es)
  {
    forall i :: 0 < i < |es| ==> Key(es[i - 1][0]) != Key(es[i][0])
  }

  /** The two shapes `Merge` can take. */
  lemma MergeCases(k: string, b: seq<Row>, es: seq<seq<Row>>)
    ensures var m := Merge(k, b, es);
      || (es != [] && es[0] != [] && WellFormed(es[0][0]) && Key(es[0][0]) == k
          && |m| == |es| && m[0] == b + es[0] && m[1..] == es[1..])
      || (|m| == |es| + 1 && m[0] == b && m[1..] == es)
  {
  }

  /** Epochs are non-empty, start with the first line, and concatenate back to the lines. */
  lemma {:induction false} EpochsCover(data: seq<Row>)
    requires AllWellFormed(data)
    ensures forall i :: 0 <= i < |Epochs(data)| ==> Epochs(data)[i] != []
    ensures Flatten(Epochs(data)) == data
    ensures |Epochs(data)| <= |data|
    ensures data != [] ==> Epochs(data) != [] && Epochs(data)[0][0] == data[0]
  {
    if data != [] {
      var x := data[0];
      var rest := data[1..];
      assert AllWellFormed(rest);
      EpochsCover(rest);
      var r := Epochs(rest);
      var es := Epochs(data);
      MergeCases(Key(x), [x], r);
      assert Flatten(es) == es[0] + Flatten(es[1..]);
      if |es| == |r| {
        assert Flatten(r) == r[0] + Flatten(r[1..]);
        assert es[0] == [x] + r[0];
      } else {
        assert es[0] == [x] && es[1..] == r;
      }
      assert data == [x] + rest;
    }
  }

  /** Within an epoch every line has the timestamp of its first line. */
  lemma {:induction false} EpochsShareTimestamp(data: seq<Row>)
    requires AllWellFormed(data)
    ensures NonEmptyRuns(Epochs(data)) && RunsShareTimestamp(Epochs(data))
  {
    if data != [] {
      var x := data[0];
      var rest := data[1..];
      assert AllWellFormed(rest);
      EpochsShareTimestamp(rest);
      var r := Epochs(rest);
      var es := Epochs(data);
      MergeCases(Key(x), [x], r);
      forall i | 0 <= i < |es|
        ensures es[i] != [] && AllWellFormed(es[i]) && OneTimestamp(es[i], Key(es[i][0]))
      {
        if i == 0 && |es| == |r| {
          var e0 := es[0];
          assert e0 == [x] + r[0];
          forall j | 0 <= j < |e0| ensures WellFormed(e0[j]) && Key(e0[j]) == Key(x) {
            if j > 0 {
              assert e0[j] == r[0][j - 1];
            }
          }
        } else if i == 0 {
          assert es[0] == [x];
        } else if |es| == |r| {
          assert es[i] == r[i];
        } else {
          assert es[i] == r[i - 1];
        }
      }
    }
  }

  /** Neighbouring epochs have different timestamps. */
  lemma {:induction false} EpochsChangeTimestamp(data: seq<Row>)
    requires AllWellFormed(data)
    ensures NonEmptyRuns(Epochs(data)) && RunsChangeTimestamp(Epochs(data))
  {
    if data != [] {
      var x := data[0];
      var rest := data[1..];
      assert AllWellFormed(rest);
      EpochsChangeTimestamp(rest);
      EpochsShareTimestamp(rest);
      EpochsCover(rest);
      var r := Epochs(rest);
      var es := Epochs(data);
      MergeCases(Key(x), [x], r);
      EpochsShareTimestamp(data);
      forall i | 0 < i < |es|
        ensures Key(es[i - 1][0]) != Key(es[i][0])
      {
        if |es| == |r| {
          assert es[i] == r[i];
          if i == 1 {
            assert es[0] == [x] + r[0];
            assert es[0][0] == x && Key(r[0][0]) == Key(x);
          } else {
            assert es[i - 1] == r[i - 1];
          }
        } else {
          assert es[i] == r[i - 1];
          if i == 1 {
            assert es[0] == [x] && r[0] != [] && WellFormed(r[0][0]);
          } else {
            assert es[i - 1] == r[i - 2];
          }
        }
      }
    }
  }

  /** The epochs are a cut of the lines into maximal runs of one timestamp. */
  lemma EpochsAreMaximalRuns(data: seq<Row>)
    requires AllWellFormed(data)
    ensures Flatten(Epochs(data)) == data
    ensures MaximalRuns(Epochs(data))
    ensures |Epochs(data)| <= |data|
  {
    EpochsCover(data);
    EpochsShareTimestamp(data);
    EpochsChangeTimestamp(data);
  }

  /** The blocks the loop reports: each epoch, the first without its seed line, the last not at all. */
  function Reported(es: seq<seq<Row>>): seq<seq<Row>>
    requires es != [] ==> es[0] != []
  {
    if es == [] then [] else ([es[0][1..]] + es[1..])[..|es| - 1]
  }

  /**
   * The general form of the flushing theorem: from the state with timestamp `k` and block
   * `b`, the flushed blocks are the merged epochs without the last one.
   */
  lemma {:induction false} ScanAccumulating(k: string, b: seq<Row>, data: seq<Row>)
    requires AllWellFormed(data)
    ensures ScanLines(Accumulating(k, b), data).malformed == None
    ensures var m := Merge(k, b, Epochs(data));
      ScanLines(Accumulating(k, b), data).flushed == m[..|m| - 1]
    decreases |data|
  {
    if data != [] {
      var x := data[0];
      assert AllWellFormed(data[1..]);
      if Key(x) == k {
        ScanAccumulating(k, b + [x], data[1..]);
        AccumulateSame(k, b, data);
      } else {
        ScanAccumulating(Key(x), [x], data[1..]);
        AccumulateNew(k, b, data);
      }
    }
  }

  /** A line of the current timestamp joins the block; the first epoch absorbs it. */
  lemma AccumulateSame(k: string, b: seq<Row>, data: seq<Row>)
    requires data != [] && AllWellFormed(data) && Key(data[0]) == k
    requires ScanLines(Accumulating(k, b + [data[0]]), data[1..]).malformed == None
    requires var m := Merge(k, b + [data[0]], Epochs(data[1..]));
      ScanLines(Accumulating(k, b + [data[0]]), data[1..]).flushed == m[..|m| - 1]
    ensures ScanLines(Accumulating(k, b), data).malformed == None
    ensures var m := Merge(k, b, Epochs(data));
      ScanLines(Accumulating(k, b), data).flushed == m[..|m| - 1]
  {
    var x := data[0];
    MergeAbsorb(k, b, x, Epochs(data[1..]));
    assert Step(Accumulating(k, b), x) == Transition(Accumulating(k, b + [x]), []);
  }

  /** Prefixing `b` to epochs that already absorbed `x` of the same timestamp is prefixing `b + [x]`. */
  lemma MergeAbsorb(k: string, b: seq<Row>, x: Row, r: seq<seq<Row>>)
    requires WellFormed(x) && Key(x) == k
    ensures Merge(k, b, Merge(k, [x], r)) == Merge(k, b + [x], r)
  {
    if r != [] && r[0] != [] && WellFormed(r[0][0]) && Key(r[0][0]) == k {
      assert Merge(k, [x], r) == [[x] + r[0]] + r[1..];
      assert ([x] + r[0])[0] == x;
      assert b + ([x] + r[0]) == (b + [x]) + r[0];
    } else {
      assert Merge(k, [x], r) == [[x]] + r;
    }
  }

  /** A line of a new timestamp flushes the block and starts its own. */
  lemma AccumulateNew(k: string, b: seq<Row>, data: seq<Row>)
    requires data != [] && AllWellFormed(data) && Key(data[0]) != k
    requires ScanLines(Accumulating(Key(data[0]), [data[0]]), data[1..]).malformed == None
    requires var m := Merge(Key(data[0]), [data[0]], Epochs(data[1..]));
      ScanLines(Accumulating(Key(data[0]), [data[0]]), data[1..]).flushed == m[..|m| - 1]
    ensures ScanLines(Accumulating(k, b), data).malformed == None
    ensures var m := Merge(k, b, Epochs(data));
      ScanLines(Accumulating(k, b), data).flushed == m[..|m| - 1]
  {
    var x := data[0];
    var e := Merge(Key(x), [x], Epochs(data[1..]));
    MergeFresh(k, b, x, Epochs(data[1..]));
    assert Step(Accumulating(k, b), x) == Transition(Accumulating(Key(x), [x]), [b]);
    var rest := ScanLines(Accumulating(Key(x), [x]), data[1..]);
    assert ScanLines(Accumulating(k, b), data) == Scan([b] + rest.flushed, rest.malformed);
    var m := [b] + e;
    assert m[..|m| - 1] == [b] + e[..|e| - 1];
  }

  /** A line with another timestamp opens an epoch that `b` cannot join, so `b` stands alone. */
  lemma MergeFresh(k: string, b: seq<Row>, x: Row, r: seq<seq<Row>>)
    requires WellFormed(x) && Key(x) != k
    ensures Merge(k, b, Merge(Key(x), [x], r)) == [b] + Merge(Key(x), [x], r)
  {
    var e := Merge(Key(x), [x], r);
    MergeCases(Key(x), [x], r);
    assert e[0][0] == x;
  }

  /**
   * The flushing theorem for a whole file: when every data line has five tokens, the pass
   * flushes exactly the epochs of the data, the first without its seed line, the last
   * never.
   */
  lemma ScanReportsEpochs(data: seq<Row>)
    requires AllWellFormed(data)
    ensures Epochs(data) != [] ==> Epochs(data)[0] != []
    ensures ScanLines(NoCurrentEpoch, data) == Scan(Reported(Epochs(data)), None)
  {
    if data != [] {
      var x := data[0];
      var rest := data[1..];
      assert AllWellFormed(rest);
      var r := Epochs(rest);
      var e := Epochs(data);
      ScanAccumulating(Key(x), [], rest);
      var m := Merge(Key(x), [], r);
      if r != [] && r[0] != [] && WellFormed(r[0][0]) && Key(r[0][0]) == Key(x) {
        assert e == [[x] + r[0]] + r[1..];
        assert ([x] + r[0])[1..] == r[0];
        assert m == [[] + r[0]] + r[1..];
        assert [] + r[0] == r[0] && e[1..] == r[1..];
        assert m == [e[0][1..]] + e[1..];
      } else {
        assert e == [[x]] + r;
        assert m == [[]] + r;
        assert e[0][1..] == [] && e[1..] == r;
        assert m == [e[0][1..]] + e[1..];
      }
    }
  }

  /** A first malformed row of `data[1..]` after a well-formed `data[0]` is one of `data`, one further on. */
  lemma MalformedShift(data: seq<Row>, i: nat)
    requires data != [] && WellFormed(data[0])
    requires i < |data[1..]| && AllWellFormed(data[1..][..i])
    ensures data[i + 1] == data[1..][i] && AllWellFormed(data[..i + 1])
  {
    assert data[..i + 1] == [data[0]] + data[1..][..i];
  }

  /** The pass stops at the first data line with fewer than five tokens, and only there. */
  lemma {:induction false} ScanMalformed(state: EpochState, data: seq<Row>)
    ensures ScanLines(state, data).malformed.None? <==> AllWellFormed(data)
    ensures ScanLines(state, data).malformed.Some? ==> exists i :: (0 <= i < |data|
      && ScanLines(state, data).malformed.value == data[i].line && !WellFormed(data[i])
      && AllWellFormed(data[..i]))
    decreases |data|
  {
    if data != [] && WellFormed(data[0]) {
      var next := Step(state, data[0]).next;
      ScanMalformed(next, data[1..]);
      if ScanLines(next, data[1..]).malformed.Some? {
        var i :| 0 <= i < |data[1..]| && ScanLines(next, data[1..]).malformed.value == data[1..][i].line
          && !WellFormed(data[1..][i]) && AllWellFormed(data[1..][..i]);
        MalformedShift(data, i);
      } else {
        assert data == [data[0]] + data[1..];
      }
    } else if data != [] {
      assert data[..0] == [];
    }
  }

  /** A file whose data lines all share one timestamp reports nothing. */
  lemma SingleEpochReportsNothing(data: seq<Row>)
    requires AllWellFormed(data) && data != []
    requires OneTimestamp(data, Key(data[0]))
    ensures ScanLines(NoCurrentEpoch, data) == Scan([], None)
  {
    ScanReportsEpochs(data);
    EpochsAreMaximalRuns(data);
    OneEpoch(data);
  }

  /**
   * A file with exactly two epochs reports exactly one block: the first epoch without its
   * seed line.
   */
  lemma TwoEpochsReportFirst(first: seq<Row>, second: seq<Row>)
    requires first != [] && second != []
    requires AllWellFormed(first) && AllWellFormed(second)
    requires OneTimestamp(first, Key(first[0])) && OneTimestamp(second, Key(second[0]))
    requires Key(first[0]) != Key(second[0])
    ensures AllWellFormed(first + second)
    ensures ScanLines(NoCurrentEpoch, first + second) == Scan([first[1..]], None)
  {
    var data := first + second;
    assert AllWellFormed(data) by {
      forall i | 0 <= i < |data| ensures WellFormed(data[i]) {
        if i >= |first| {
          assert data[i] == second[i - |first|];
        }
      }
    }
    EpochsOfRuns(first, second);
    ScanReportsEpochs(data);
  }

  /** Two runs of distinct timestamps are two epochs. */
  lemma {:induction false} EpochsOfRuns(first: seq<Row>, second: seq<Row>)
    requires first != [] && second != []
    requires AllWellFormed(first) && AllWellFormed(second) && AllWellFormed(first + second)
    requires OneTimestamp(first, Key(first[0])) && OneTimestamp(second, Key(second[0]))
    requires Key(first[0]) != Key(second[0])
    ensures Epochs(first + second) == [first, second]
    decreases |first|
  {
    var data := first + second;
    assert data[1..] == first[1..] + second;
    if |first| == 1 {
      assert data[1..] == second && data[0] == first[0] && first == [first[0]];
      OneEpoch(second);
      assert Epochs(data) == Merge(Key(first[0]), [first[0]], [second]);
    } else {
      assert AllWellFormed(first[1..] + second);
      EpochsOfRuns(first[1..], second);
      assert [first[0]] + first[1..] == first;
    }
  }

  /** A run of one timestamp is one epoch. */
  lemma {:induction false} OneEpoch(e: seq<Row>)
    requires e != [] && AllWellFormed(e) && OneTimestamp(e, Key(e[0]))
    ensures Epochs(e) == [e]
    decreases |e|
  {
    if |e| > 1 {
      var rest := e[1..];
      assert AllWellFormed(rest) && OneTimestamp(rest, Key(rest[0]));
      OneEpoch(rest);
      assert rest[0] == e[1] && Key(e[1]) == Key(e[0]);
      assert Epochs(e) == Merge(Key(e[0]), [e[0]], [rest]);
      assert [e[0]] + rest == e;
    } else {
      assert e[1..] == [] && e == [e[0]];
      assert Epochs(e) == Merge(Key(e[0]), [e[0]], []);
    }
  }

  /** The scan `rest` continues after the blocks `flushed` were already written. */
  function After(flushed: seq<seq<Row>>, rest: Scan): Scan {
    Scan(flushed + rest.flushed, rest.malformed)
  }

  /** What the pass amounts to for a whole file: the scan of its data lines from the start. */
  function ScanFile(lines: seq<string>): Scan {
    ScanLines(NoCurrentEpoch, RowsOf(DataLines(lines)))
  }

  /** Every block in `blocks` can be flushed. */
  predicate AllFit(blocks: seq<seq<Row>>) {
    forall b :: 0 <= b < |blocks| ==> BlockFits(blocks[b])
  }

  /** `orders[b]` is an iteration order of the systems of `blocks[b]`, and every block can be flushed. */
  ghost predicate Flushable(blocks: seq<seq<Row>>, orders: seq<seq<string>>) {
    && |orders| == |blocks|
    && forall b :: 0 <= b < |blocks| ==> BlockFits(blocks[b]) && IsOrderOf(orders[b], Systems(blocks[b]))
  }

  /** The report file: the lines of each flushed block in turn. */
  function RegistryReport(blocks: seq<seq<Row>>, orders: seq<seq<string>>): seq<string>
    requires Flushable(blocks, orders)
  {
    if blocks == [] then []
    else
      var n := |blocks| - 1;
      assert Flushable(blocks[..n], orders[..n]) by {
        forall b | 0 <= b < n ensures BlockFits(blocks[..n][b]) && IsOrderOf(orders[..n][b], Systems(blocks[..n][b])) {
          assert blocks[..n][b] == blocks[b] && orders[..n][b] == orders[b];
        }
      }
      RegistryReport(blocks[..n], orders[..n]) + BlockReport(blocks[n], orders[n])
  }

  /** The rows still to read from line `i` on: a header line contributes none, any other line its row. */
  lemma RowsFrom(lines: seq<string>, i: nat)
    requires i < |lines|
    ensures IsHeaderLine(lines[i]) ==> RowsOf(DataLines(lines[i..])) == RowsOf(DataLines(lines[i + 1..]))
    ensures !IsHeaderLine(lines[i]) ==>
      RowsOf(DataLines(lines[i..])) == [RowOf(lines[i])] + RowsOf(DataLines(lines[i + 1..]))
  {
    DataLinesStep(lines, i);
    var rest := DataLines(lines[i + 1..]);
    if !IsHeaderLine(lines[i]) {
      assert ([lines[i]] + rest)[1..] == rest;
    } else {
      assert [] + rest == rest;
    }
  }

  /** A malformed row stops the scan there. */
  lemma ScanStopsAt(flushed: seq<seq<Row>>, state: EpochState, row: Row, rest: seq<Row>)
    requires !WellFormed(row)
    ensures After(flushed, ScanLines(state, [row] + rest)) == Scan(flushed, Some(row.line))
  {
    assert flushed + [] == flushed;
  }

  /** A well-formed row takes one step of the state machine, flushing what that step flushes. */
  lemma ScanContinues(flushed: seq<seq<Row>>, state: EpochState, row: Row, rest: seq<Row>)
    requires WellFormed(row)
    ensures var t := Step(state, row);
      After(flushed, ScanLines(state, [row] + rest)) == After(flushed + t.flushed, ScanLines(t.next, rest))
  {
    assert ([row] + rest)[1..] == rest;
    var t := Step(state, row);
    var sc := ScanLines(t.next, rest);
    assert flushed + (t.flushed + sc.flushed) == (flushed + t.flushed) + sc.flushed;
  }

  /** Flushing one more block that can be counted extends the report by that block's lines. */
  lemma FlushOneMore(flushed: seq<seq<Row>>, orders: seq<seq<string>>, block: seq<Row>, order: seq<string>)
    requires Flushable(flushed, orders)
    requires BlockFits(block) && IsOrderOf(order, Systems(block))
    ensures Flushable(flushed + [block], orders + [order])
    ensures RegistryReport(flushed + [block], orders + [order]) == RegistryReport(flushed, orders) + BlockReport(block, order)
  {
    var fs := flushed + [block];
    var os := orders + [order];
    assert fs[..|fs| - 1] == flushed && os[..|os| - 1] == orders;
    assert Flushable(fs, os) by {
      forall b | 0 <= b < |fs| ensures BlockFits(fs[b]) && IsOrderOf(os[b], Systems(fs[b])) {
        if b < |flushed| {
          assert fs[b] == flushed[b] && os[b] == orders[b];
        }
      }
    }
  }

  /** Blocks that can be flushed in some order can be flushed. */
  lemma FlushableFit(flushed: seq<seq<Row>>, orders: seq<seq<string>>)
    requires Flushable(flushed, orders)
    ensures AllFit(flushed)
  {
  }

  /**
   * `e` is the first error the pass meets in file order: an overflow in a flushed block
   * all of whose predecessors fit, or, when every flushed block fits, the malformed line.
   */
  ghost predicate FirstError(scan: Scan, e: Error) {
    || (exists b :: 0 <= b < |scan.flushed| && AllFit(scan.flushed[..b]) && OverflowIn(scan.flushed[b], e))
    || (AllFit(scan.flushed) && scan.malformed.Some? && e == MalformedLine(scan.malformed.value))
  }

  /** A malformed line is the first error when every block flushed before it fits. */
  lemma MalformedFirst(flushed: seq<seq<Row>>, orders: seq<seq<string>>, line: string)
    requires Flushable(flushed, orders)
    ensures FirstError(Scan(flushed, Some(line)), MalformedLine(line))
  {
  }

  /** The first error of the pass is an overflow in block `b` when all blocks before it fit. */
  lemma OverflowFirst(scan: Scan, flushed: seq<seq<Row>>, block: seq<Row>, e: Error)
    requires |scan.flushed| > |flushed| && scan.flushed[..|flushed| + 1] == flushed + [block]
    requires AllFit(flushed) && OverflowIn(block, e)
    ensures FirstError(scan, e)
  {
    var b := |flushed|;
    assert scan.flushed[..b] == (flushed + [block])[..b] == flushed;
    assert scan.flushed[b] == (flushed + [block])[b] == block;
  }

  /** The scan's flushed blocks start with those already flushed, then those of the step. */
  lemma AfterPrefix(flushed: seq<seq<Row>>, block: seq<Row>, rest: Scan)
    ensures |After(flushed + [block], rest).flushed| > |flushed|
    ensures After(flushed + [block], rest).flushed[..|flushed| + 1] == flushed + [block]
  {
    var all := After(flushed + [block], rest).flushed;
    assert all == (flushed + [block]) + rest.flushed;
    assert all[..|flushed| + 1] == flushed + [block];
  }

  /**
   * The body of the loop of `createRegistryFile` for one data line of five tokens or
   * more: seed the timestamp, extend the block, or flush the block through
   * `processInfoBlock` and start a new one with this line. The new state is the state
   * machine's, and the lines written are the flushed block's report.
   */
  method TakeLine(state: EpochState, row: Row) returns (next: EpochState, written: Result<seq<string>>, ghost order: seq<string>)
    requires WellFormed(row)
    requires state.Accumulating? ==> AllWellFormed(state.block)
    ensures next == Step(state, row).next
    ensures next.Accumulating? ==> AllWellFormed(next.block)
    ensures Step(state, row).flushed == [] ==> written == Ok([])
    ensures Step(state, row).flushed != [] ==> var block := Step(state, row).flushed[0];
      && Step(state, row).flushed == [block]
      && (written.Ok? <==> BlockFits(block))
      && (written.Ok? ==> IsOrderOf(order, Systems(block)) && written.value == BlockReport(block, order))
      && (written.Err? ==> OverflowIn(block, written.error))
  {
    order := [];
    var dateTime := row.tokens[2] + " " + row.tokens[3];
    match state {
      case NoCurrentEpoch =>
        next := Accumulating(dateTime, []);
        written := Ok([]);
      case Accumulating(current, block) =>
        if current == dateTime {
          next := Accumulating(current, block + [row]);
          written := Ok([]);
        } else {
          written, order := ProcessInfoBlock(block);
          next := Accumulating(dateTime, [row]);
        }
    }
  }

  /**
   * Where the loop of `createRegistryFile` stands before line `i`: what the whole pass
   * amounts to is the blocks flushed so far followed by the scan of the remaining data
   * lines from `state`, and `report` is what the flushed blocks wrote.
   */
  ghost predicate Progress(lines: seq<string>, i: nat, state: EpochState,
                           flushed: seq<seq<Row>>, orders: seq<seq<string>>, report: seq<string>) {
    && i <= |lines|
    && (state.Accumulating? ==> AllWellFormed(state.block))
    && ScanFile(lines) == After(flushed, ScanLines(state, RowsOf(DataLines(lines[i..]))))
    && Flushable(flushed, orders)
    && report == RegistryReport(flushed, orders)
  }

  lemma ProgressStart(lines: seq<string>)
    ensures Progress(lines, 0, NoCurrentEpoch, [], [], [])
  {
    assert lines[0..] == lines;
    var sc := ScanFile(lines);
    assert [] + sc.flushed == sc.flushed;
  }

  /** A header line is skipped. */
  lemma ProgressHeader(lines: seq<string>, i: nat, state: EpochState,
                       flushed: seq<seq<Row>>, orders: seq<seq<string>>, report: seq<string>)
    requires Progress(lines, i, state, flushed, orders, report)
    requires i < |lines| && IsHeaderLine(lines[i])
    ensures Progress(lines, i + 1, state, flushed, orders, report)
  {
    RowsFrom(lines, i);
  }

  /** A data line with fewer than five tokens is the first error when nothing failed before it. */
  lemma ProgressMalformed(lines: seq<string>, i: nat, state: EpochState,
                          flushed: seq<seq<Row>>, orders: seq<seq<string>>, report: seq<string>)
    requires Progress(lines, i, state, flushed, orders, report)
    requires i < |lines| && !IsHeaderLine(lines[i]) && !WellFormed(RowOf(lines[i]))
    ensures ScanFile(lines).malformed.Some?
    ensures FirstError(ScanFile(lines), MalformedLine(lines[i]))
  {
    RowsFrom(lines, i);
    ScanStopsAt(flushed, state, RowOf(lines[i]), RowsOf(DataLines(lines[i + 1..])));
    MalformedFirst(flushed, orders, lines[i]);
  }

  /** A step flushes at most one block. */
  lemma StepFlushesOne(state: EpochState, line: Row)
    requires WellFormed(line)
    ensures var t := Step(state, line); t.flushed == [] || t.flushed == [t.flushed[0]]
  {
  }

  /** A block that cannot be counted is the first error when the blocks before it could. */
  lemma ProgressOverflow(lines: seq<string>, i: nat, state: EpochState,
                         flushed: seq<seq<Row>>, orders: seq<seq<string>>, report: seq<string>, e: Error)
    requires Progress(lines, i, state, flushed, orders, report)
    requires i < |lines| && !IsHeaderLine(lines[i]) && WellFormed(RowOf(lines[i]))
    requires Step(state, RowOf(lines[i])).flushed != []
    requires !BlockFits(Step(state, RowOf(lines[i])).flushed[0])
    requires OverflowIn(Step(state, RowOf(lines[i])).flushed[0], e)
    ensures !AllFit(ScanFile(lines).flushed)
    ensures FirstError(ScanFile(lines), e)
  {
    var row := RowOf(lines[i]);
    var rest := RowsOf(DataLines(lines[i + 1..]));
    var t := Step(state, row);
    RowsFrom(lines, i);
    ScanContinues(flushed, state, row, rest);
    StepFlushesOne(state, row);
    AfterPrefix(flushed, t.flushed[0], ScanLines(t.next, rest));
    FlushableFit(flushed, orders);
    OverflowFirst(ScanFile(lines), flushed, t.flushed[0], e);
    assert ScanFile(lines).flushed[|flushed|] == (flushed + [t.flushed[0]])[|flushed|];
  }

  /** A well-formed data line takes one step; a block it flushes extends the report. */
  lemma ProgressStep(lines: seq<string>, i: nat, state: EpochState,
                     flushed: seq<seq<Row>>, orders: seq<seq<string>>, report: seq<string>,
                     next: EpochState, written: seq<string>, order: seq<string>)
    requires Progress(lines, i, state, flushed, orders, report)
    requires i < |lines| && !IsHeaderLine(lines[i]) && WellFormed(RowOf(lines[i]))
    requires next == Step(state, RowOf(lines[i])).next
    requires next.Accumulating? ==> AllWellFormed(next.block)
    requires Step(state, RowOf(lines[i])).flushed == [] ==> written == []
    requires Step(state, RowOf(lines[i])).flushed != [] ==> var block := Step(state, RowOf(lines[i])).flushed[0];
      && Step(state, RowOf(lines[i])).flushed == [block]
      && BlockFits(block) && IsOrderOf(order, Systems(block)) && written == BlockReport(block, order)
    ensures var t := Step(state, RowOf(lines[i]));
      Progress(lines, i + 1, next, flushed + t.flushed,
        if t.flushed == [] then orders else orders + [order], report + written)
  {
    var row := RowOf(lines[i]);
    var t := Step(state, row);
    RowsFrom(lines, i);
    ScanContinues(flushed, state, row, RowsOf(DataLines(lines[i + 1..])));
    if t.flushed != [] {
      FlushOneMore(flushed, orders, t.flushed[0], order);
    } else {
      assert flushed + t.flushed == flushed;
    }
  }

  /** After the last line the pass is exactly what was flushed, with no malformed line. */
  lemma ProgressDone(lines: seq<string>, state: EpochState,
                     flushed: seq<seq<Row>>, orders: seq<seq<string>>, report: seq<string>)
    requires Progress(lines, |lines|, state, flushed, orders, report)
    ensures ScanFile(lines) == Scan(flushed, None)
    ensures AllFit(flushed)
  {
    assert lines[|lines|..] == [];
    assert flushed + [] == flushed;
    FlushableFit(flushed, orders);
  }

  /**
   * `createRegistryFile`: header lines are skipped; every other line is split once;
   * blocks are flushed through `processInfoBlock` as the scan flushes them. The pass
   * succeeds exactly when no data line is malformed and every flushed block can be
   * counted, and then writes the report of the flushed blocks in order. It fails with
   * the first error met in file order: an overflow in a flushed block, or else the
   * first malformed line.
   */
  method CreateRegistryFile(lines: seq<string>) returns (r: Result<seq<string>>, ghost orders: seq<seq<string>>)
    ensures r.Ok? <==> ScanFile(lines).malformed.None? && AllFit(ScanFile(lines).flushed)
    ensures r.Ok? ==> (Flushable(ScanFile(lines).flushed, orders)
      && r.value == RegistryReport(ScanFile(lines).flushed, orders))
    ensures r.Err? ==> FirstError(ScanFile(lines), r.error)
  {
    var state := NoCurrentEpoch;
    ghost var flushed: seq<seq<Row>> := [];
    var report: seq<string> := [];
    orders := [];
    ProgressStart(lines);
    var i := 0;
    while i < |lines|
      invariant Progress(lines, i, state, flushed, orders, report)
    {
      var line := lines[i];
      if IsHeaderLine(line) {
        ProgressHeader(lines, i, state, flushed, orders, report);
        i := i + 1;
        continue;
      }
      var row := RowOf(line);
      if |row.tokens| < 5 {
        ProgressMalformed(lines, i, state, flushed, orders, report);
        r := Err(MalformedLine(line));
        return;
      }
      ghost var t := Step(state, row);
      var next, written, order := TakeLine(state, row);
      if written.Err? {
        ProgressOverflow(lines, i, state, flushed, orders, report, written.error);
        r := Err(written.error);
        return;
      }
      ProgressStep(lines, i, state, flushed, orders, report, next, written.value, order);
      if t.flushed != [] {
        orders := orders + [order];
      }
      report := report + written.value;
      flushed := flushed + t.flushed;
      state := next;
      i := i + 1;
    }
    ProgressDone(lines, state, flushed, orders, report);
    r := Ok(report);
  }
}
