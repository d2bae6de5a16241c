/**
 * Header handling: `getHeaderMap` collects the header line of every system,
 * `getHeaderIndices` and `getDataIndex` resolve the column positions a header names.
 */
module Header {
  import opened Results
  import opened Tokenizer
  import opened Formatting

  /** `List.indexOf`: the first position holding `x`, or none. */
  function IndexOf(ws: seq<string>, x: string): (r: Option<nat>)
    ensures r.None? <==> x !in ws
    ensures r.Some? ==> r.value < |ws| && ws[r.value] == x && x !in ws[..r.value]
  {
    if ws == [] then None
    else if ws[0] == x then Some(0)
    else match IndexOf(ws[1..], x)
      case None => None
      case Some(k) =>
        assert ws[..k + 1] == [ws[0]] + ws[1..][..k];
        Some(k + 1)
  }

  /**
   * `getDataIndex`: the first `DATA` token is where data starts; without one, the token
   * after the first `PRN`, which must exist and must not be the last token.
   */
  function DataIndex(tokens: seq<string>): (r: Result<nat>)
    ensures "DATA" in tokens ==>
      r.Ok? && r.value < |tokens| && tokens[r.value] == "DATA" && "DATA" !in tokens[..r.value]
    ensures "DATA" !in tokens && "PRN" !in tokens ==> r == Err(NoPrn)
    ensures "DATA" !in tokens && "PRN" in tokens ==>
      && (r.Ok? ==> 0 < r.value < |tokens| && tokens[r.value - 1] == "PRN" && "PRN" !in tokens[..r.value - 1])
      && (r.Err? ==> r.error == PrnIsLast && tokens[|tokens| - 1] == "PRN" && "PRN" !in tokens[..|tokens| - 1])
  {
    match IndexOf(tokens, "DATA")
    case Some(k) => Ok(k)
    case None =>
      match IndexOf(tokens, "PRN")
      case None => Err(NoPrn)
      case Some(p) => if p + 1 == |tokens| then Err(PrnIsLast) else Ok(p + 1)
  }

  /**
   * The body of `getHeaderIndices` on the header's tokens: both `DATE` and `TIME` must be
   * present (their first positions are kept), then the data start is resolved.
   */
  function ResolveColumns(tokens: seq<string>): Result<ColumnIndices>
  {
    match (IndexOf(tokens, "DATE"), IndexOf(tokens, "TIME"))
    case (Some(d), Some(t)) =>
      var start :- DataIndex(tokens);
      Ok(ColumnIndices(d, t, start))
    case _ => Err(IncorrectHeaderFormat)
  }

  /**
   * `getHeaderIndices` succeeds exactly when `DATE` and `TIME` are present and the data
   * start resolves; it then keeps the first position of each, and otherwise fails with
   * `IncorrectHeaderFormat` or with the failure of `getDataIndex`.
   */
  lemma ResolveColumnsSpec(tokens: seq<string>)
    ensures var r := ResolveColumns(tokens);
      r.Ok? <==> "DATE" in tokens && "TIME" in tokens && DataIndex(tokens).Ok?
    ensures "DATE" !in tokens || "TIME" !in tokens ==> ResolveColumns(tokens) == Err(IncorrectHeaderFormat)
    ensures "DATE" in tokens && "TIME" in tokens && DataIndex(tokens).Err? ==>
      ResolveColumns(tokens) == Err(DataIndex(tokens).error)
    ensures var r := ResolveColumns(tokens);
      r.Ok? ==>
        && r.value.dateIndex < |tokens| && tokens[r.value.dateIndex] == "DATE"
        && "DATE" !in tokens[..r.value.dateIndex]
        && r.value.timeIndex < |tokens| && tokens[r.value.timeIndex] == "TIME"
        && "TIME" !in tokens[..r.value.timeIndex]
        && r.value.dataStartIndex == DataIndex(tokens).value
  {
  }

  /** `getHeaderIndices`: split the header line and resolve its columns. */
  function HeaderIndices(header: string): Result<ColumnIndices> {
    ResolveColumns(Tokenize(header))
  }

  /**
   * A header line starts with `#`, so its token 0 is never a bare label: every resolved
   * position, the data start included, is at least 1.
   */
  lemma HeaderPositionsPositive(header: string)
    requires IsHeaderLine(header) && HeaderIndices(header).Ok?
    ensures var ci := HeaderIndices(header).value;
      ci.dateIndex >= 1 && ci.timeIndex >= 1 && ci.dataStartIndex >= 1
  {
    FirstTokenStart(header);
    ResolveColumnsSpec(Tokenize(header));
  }

  /** `line` is a header line whose system code is `system`. */
  predicate HeaderFor(line: string, system: string) {
    IsHeaderLine(line) && SystemToken(line) == Some(system)
  }

  /** A header line too short to name a system. */
  predicate MalformedHeaderLine(line: string) {
    IsHeaderLine(line) && SystemToken(line).None?
  }

  /** The system-to-header map of a file, the later header of a system replacing the earlier. */
  function HeaderMapOf(lines: seq<string>): Result<map<string, string>> {
    if lines == [] then Ok(map[])
    else
      var m :- HeaderMapOf(lines[..|lines| - 1]);
      var line := lines[|lines| - 1];
      if !IsHeaderLine(line) then Ok(m)
      else match SystemToken(line)
        case None => Err(MalformedHeader(line))
        case Some(system) => Ok(m[system := line])
  }

  /** Line `j` is the first header line too short to name a system. */
  predicate FirstMalformedAt(lines: seq<string>, j: int) {
    0 <= j < |lines| && MalformedHeaderLine(lines[j])
    && forall i :: 0 <= i < j ==> !MalformedHeaderLine(lines[i])
  }

  /** Line `j` is the last header line naming `system`. */
  predicate LastHeaderAt(lines: seq<string>, system: string, j: int) {
    0 <= j < |lines| && HeaderFor(lines[j], system)
    && forall i :: j < i < |lines| ==> !HeaderFor(lines[i], system)
  }

  /** The header map fails exactly when some header line has no system token, and names the first such line. */
  lemma {:induction false} HeaderMapFailure(lines: seq<string>)
    ensures HeaderMapOf(lines).Err? <==> exists j :: 0 <= j < |lines| && MalformedHeaderLine(lines[j])
    ensures HeaderMapOf(lines).Err? ==>
      exists j :: FirstMalformedAt(lines, j) && HeaderMapOf(lines).error == MalformedHeader(lines[j])
  {
    if lines != [] {
      var init := lines[..|lines| - 1];
      var n := |lines| - 1;
      HeaderMapFailure(init);
      assert forall i :: 0 <= i < n ==> init[i] == lines[i];
      if HeaderMapOf(init).Err? {
        var j :| FirstMalformedAt(init, j) && HeaderMapOf(init).error == MalformedHeader(init[j]);
        assert FirstMalformedAt(lines, j);
      } else if MalformedHeaderLine(lines[n]) {
        assert FirstMalformedAt(lines, n);
      }
    }
  }

  /** One more line either leaves the map alone or, for a header line, sets its system's entry. */
  lemma HeaderMapStep(lines: seq<string>)
    requires lines != [] && HeaderMapOf(lines).Ok?
    ensures HeaderMapOf(lines[..|lines| - 1]).Ok?
    ensures var line := lines[|lines| - 1];
      var m := HeaderMapOf(lines[..|lines| - 1]).value;
      HeaderMapOf(lines).value == if IsHeaderLine(line) then m[SystemToken(line).value := line] else m
  {
  }

  /** When it succeeds, the header map holds exactly the systems that have a header line. */
  lemma {:induction false} HeaderMapDomain(lines: seq<string>, system: string)
    requires HeaderMapOf(lines).Ok?
    ensures system in HeaderMapOf(lines).value <==> exists j :: 0 <= j < |lines| && HeaderFor(lines[j], system)
  {
    if lines != [] {
      var init := lines[..|lines| - 1];
      var n := |lines| - 1;
      HeaderMapStep(lines);
      HeaderMapDomain(init, system);
      if HeaderFor(lines[n], system) {
      } else {
        if j :| 0 <= j < |lines| && HeaderFor(lines[j], system) {
          assert j != n;
          assert init[j] == lines[j];
        }
        if j :| 0 <= j < |init| && HeaderFor(init[j], system) {
          assert init[j] == lines[j];
        }
      }
    }
  }

  /** Each system's entry is the last header line naming it. */
  lemma {:induction false} HeaderMapLast(lines: seq<string>, system: string)
    requires HeaderMapOf(lines).Ok? && system in HeaderMapOf(lines).value
    ensures exists j :: LastHeaderAt(lines, system, j) && HeaderMapOf(lines).value[system] == lines[j]
  {
    var init := lines[..|lines| - 1];
    var n := |lines| - 1;
    HeaderMapStep(lines);
    if HeaderFor(lines[n], system) {
      assert LastHeaderAt(lines, system, n);
    } else {
      HeaderMapLast(init, system);
      var j :| LastHeaderAt(init, system, j) && HeaderMapOf(init).value[system] == init[j];
      forall i | j < i < |lines| ensures !HeaderFor(lines[i], system) {
        if i < n {
          assert !HeaderFor(init[i], system);
          assert lines[i] == init[i];
        } else {
          assert i == n;
        }
      }
      assert LastHeaderAt(lines, system, j);
    }
  }

  /** `getHeaderMap`: every header line, in file order, puts its system and itself into the map. */
  method HeaderMap(lines: seq<string>) returns (r: Result<map<string, string>>)
    ensures r == HeaderMapOf(lines)
  {
    var m: map<string, string> := map[];
    var i := 0;
    while i < |lines|
      invariant i <= |lines|
      invariant HeaderMapOf(lines[..i]) == Ok(m)
    {
      var line := lines[i];
      assert lines[..i + 1][..i] == lines[..i] && lines[..i + 1][i] == line;
      if IsHeaderLine(line) {
        var tokens := Tokenize(line);
        if |tokens| < 2 {
          HeaderMapErrorStays(lines, i + 1);
          return Err(MalformedHeader(line));
        }
        m := m[tokens[1] := line];
      }
      i := i + 1;
    }
    assert lines[..i] == lines;
    r := Ok(m);
  }

  /** Once the map has failed, reading more lines keeps the same failure. */
  lemma {:induction false} HeaderMapErrorStays(lines: seq<string>, k: nat)
    requires k <= |lines| && HeaderMapOf(lines[..k]).Err?
    ensures HeaderMapOf(lines) == HeaderMapOf(lines[..k])
  {
    if k < |lines| {
      var init := lines[..|lines| - 1];
      assert init[..k] == lines[..k];
      HeaderMapErrorStays(init, k);
    } else {
      assert lines[..k] == lines;
    }
  }
}
