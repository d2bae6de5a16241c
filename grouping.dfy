/**
 * The regrouping pass (`groupDto`, `equalsAny`, `createGroupedFiles`): the parsed records
 * are filtered by the selected satellite systems, grouped by (system, satellite number),
 * and every group becomes one file: the rewritten header of its system followed by the
 * rewritten lines of its records, in file order.
 */
module Grouping {
  import opened Results
  import opened Tokenizer
  import opened Layout
  import opened Parser
  import opened Formatting
  import opened Header

  /** The choice that selects every system without filtering. */
  const SelectAll: string := "Все"

  /** `MAPPED_SAT_SYSTEMS`: the system names offered for selection and their one-letter codes. */
  const MappedSystems: map<string, string> := map[
    "GPS" := "G", "GLONASS" := "R", "BeiDou" := "C", "Galileo" := "E",
    "IRNSS" := "I", "QZSS" := "J", "SBAS" := "S"]

  /** Every named system, as the selection list offers them after `SelectAll`. */
  const SystemNames: seq<string> := ["GPS", "GLONASS", "BeiDou", "Galileo", "IRNSS", "QZSS", "SBAS"]

  /** An item of the selection list: `SelectAll` or a named system. */
  predicate IsChoice(name: string) {
    name == SelectAll || name in MappedSystems
  }

  /** `equalsAny`: some element of `list` equals `source`. */
  function EqualsAny(source: string, list: seq<string>): (r: bool)
    ensures r <==> source in list
  {
    list != [] && (list[0] == source || EqualsAny(source, list[1..]))
  }

  /** `checkedMapped`: the code of each checked system, in the order checked. */
  function MappedCodes(checked: seq<string>): seq<string>
    requires forall i :: 0 <= i < |checked| ==> checked[i] in MappedSystems
  {
    seq(|checked|, i requires 0 <= i < |checked| => MappedSystems[checked[i]])
  }

  /** The records whose system is one of `codes`, in their original order. */
  function Filter(records: seq<Record>, codes: seq<string>): seq<Record> {
    if records == [] then []
    else
      var last := records[|records| - 1];
      Filter(records[..|records| - 1], codes) + (if EqualsAny(last.key.system, codes) then [last] else [])
  }

  /** The records that survive the selection: all of them when `SelectAll` is checked. */
  function Selected(records: seq<Record>, checked: seq<string>): seq<Record>
    requires forall i :: 0 <= i < |checked| ==> IsChoice(checked[i])
  {
    if SelectAll in checked then records
    else
      NamedChoices(checked);
      Filter(records, MappedCodes(checked))
  }

  /** Without `SelectAll`, every checked item names a system. */
  lemma NamedChoices(checked: seq<string>)
    requires forall i :: 0 <= i < |checked| ==> IsChoice(checked[i])
    requires SelectAll !in checked
    ensures forall i :: 0 <= i < |checked| ==> checked[i] in MappedSystems
  {
    forall i | 0 <= i < |checked| ensures checked[i] in MappedSystems {
      assert checked[i] != SelectAll;
    }
  }

  /** The filter keeps exactly the records whose system is selected. */
  lemma {:induction false} FilterMembers(records: seq<Record>, codes: seq<string>)
    ensures forall rec :: rec in Filter(records, codes) <==> rec in records && rec.key.system in codes
    ensures |Filter(records, codes)| <= |records|
  {
    if records != [] {
      var init := records[..|records| - 1];
      FilterMembers(init, codes);
      assert records == init + [records[|records| - 1]];
    }
  }

  /** The filter works record by record, so it keeps the order of the records. */
  lemma {:induction false} FilterAppend(a: seq<Record>, b: seq<Record>, codes: seq<string>)
    ensures Filter(a + b, codes) == Filter(a, codes) + Filter(b, codes)
    decreases |b|
  {
    if b == [] {
      assert a + b == a;
    } else {
      var ab := a + b;
      var b' := b[..|b| - 1];
      assert ab[..|ab| - 1] == a + b' && ab[|ab| - 1] == b[|b| - 1];
      FilterAppend(a, b', codes);
    }
  }

  /** The filter keeps every record exactly when every record's system is selected. */
  lemma FilterKeepsAll(records: seq<Record>, codes: seq<string>)
    ensures Filter(records, codes) == records <==> forall i :: 0 <= i < |records| ==> records[i].key.system in codes
  {
    FilterMembers(records, codes);
    if forall i :: 0 <= i < |records| ==> records[i].key.system in codes {
      FilterAll(records, codes);
    } else {
      var i :| 0 <= i < |records| && records[i].key.system !in codes;
      assert records[i] in records;
    }
  }

  lemma {:induction false} FilterAll(records: seq<Record>, codes: seq<string>)
    requires forall i :: 0 <= i < |records| ==> records[i].key.system in codes
    ensures Filter(records, codes) == records
  {
    if records != [] {
      var init := records[..|records| - 1];
      FilterAll(init, codes);
      assert init + [records[|records| - 1]] == records;
    }
  }

  /**
   * `SelectAll` keeps every record, while checking all seven systems by name keeps only
   * the records whose system code is one of the seven.
   */
  lemma SelectAllVersusEverySystem(records: seq<Record>)
    ensures Selected(records, [SelectAll]) == records
    ensures forall i :: 0 <= i < |SystemNames| ==> IsChoice(SystemNames[i])
    ensures Selected(records, SystemNames) == records
      <==> forall i :: 0 <= i < |records| ==> records[i].key.system in MappedSystems.Values
  {
    assert SelectAll !in SystemNames;
    var codes := MappedCodes(SystemNames);
    assert codes[0] == "G" && codes[1] == "R" && codes[2] == "C" && codes[3] == "E";
    assert codes[4] == "I" && codes[5] == "J" && codes[6] == "S";
    assert MappedSystems.Values == {"G", "R", "C", "E", "I", "J", "S"};
    assert forall c :: c in codes <==> c in MappedSystems.Values;
    FilterKeepsAll(records, codes);
  }

  /** The records of one satellite, in their original order. */
  function Group(records: seq<Record>, key: SatKey): seq<Record> {
    if records == [] then []
    else
      var last := records[|records| - 1];
      Group(records[..|records| - 1], key) + (if last.key == key then [last] else [])
  }

  /** The satellites that occur among the records. */
  function KeysOf(records: seq<Record>): set<SatKey> {
    set i | 0 <= i < |records| :: records[i].key
  }

  /** `groupingBy(RnxDto::getSystemSatNum)`. */
  function GroupByKey(records: seq<Record>): (groups: map<SatKey, seq<Record>>)
    ensures groups.Keys == KeysOf(records)
    ensures forall key :: key in groups ==> groups[key] == Group(records, key)
  {
    map key | key in KeysOf(records) :: Group(records, key)
  }

  /**
   * Every record lands in exactly one group, the group of its own key, and a group is
   * non-empty exactly when its key occurs.
   */
  lemma {:induction false} GroupMembers(records: seq<Record>, key: SatKey)
    ensures forall rec :: rec in Group(records, key) <==> rec in records && rec.key == key
    ensures Group(records, key) != [] <==> key in KeysOf(records)
  {
    if records != [] {
      var init := records[..|records| - 1];
      var last := records[|records| - 1];
      GroupMembers(init, key);
      assert records == init + [last];
      if key in KeysOf(records) {
        var i :| 0 <= i < |records| && records[i].key == key;
        if i < |records| - 1 {
          assert init[i] == records[i];
        }
      }
      if key in KeysOf(init) {
        var i :| 0 <= i < |init| && init[i].key == key;
        assert records[i] == init[i];
      }
    }
  }

  /** Grouping works record by record, so each group keeps the order of the records. */
  lemma {:induction false} GroupAppend(a: seq<Record>, b: seq<Record>, key: SatKey)
    ensures Group(a + b, key) == Group(a, key) + Group(b, key)
    decreases |b|
  {
    if b == [] {
      assert a + b == a;
    } else {
      var ab := a + b;
      var b' := b[..|b| - 1];
      assert ab[..|ab| - 1] == a + b' && ab[|ab| - 1] == b[|b| - 1];
      GroupAppend(a, b', key);
    }
  }

  /**
   * The values of a sequence of outcomes when all of them succeed, or else the failure
   * of the first one that does not.
   */
  function Collect(results: seq<Result<string>>): (r: Result<seq<string>>)
    ensures r.Ok? <==> forall i :: 0 <= i < |results| ==> results[i].Ok?
    ensures r.Ok? ==> (|r.value| == |results| && forall i :: 0 <= i < |results| ==> results[i] == Ok(r.value[i]))
    ensures r.Err? ==> exists i :: (0 <= i < |results| && results[i] == Err(r.error)
      && forall j :: 0 <= j < i ==> results[j].Ok?)
  {
    if results == [] then Ok([])
    else
      var init := results[..|results| - 1];
      var last := results[|results| - 1];
      var done := Collect(init);
      if done.Err? then
        assert forall j :: 0 <= j < |init| ==> init[j] == results[j];
        done
      else if last.Err? then
        assert forall j :: 0 <= j < |init| ==> init[j] == results[j];
        Err(last.error)
      else
        assert results == init + [last];
        Ok(done.value + [last.value])
  }

  /** Once a prefix of the outcomes fails, the whole sequence fails the same way. */
  /** One more result: a success extends the collected lines, a failure becomes the outcome. */
  lemma CollectSnoc(results: seq<Result<string>>, i: nat, written: seq<string>)
    requires i < |results| && Collect(results[..i]) == Ok(written)
    ensures results[i].Ok? ==> Collect(results[..i + 1]) == Ok(written + [results[i].value])
    ensures results[i].Err? ==> Collect(results[..i + 1]) == Err(results[i].error)
  {
    assert results[..i + 1][..i] == results[..i];
  }

  lemma {:induction false} CollectErrorStays(results: seq<Result<string>>, k: nat)
    requires k <= |results| && Collect(results[..k]).Err?
    ensures Collect(results) == Collect(results[..k])
    decreases |results| - k
  {
    if k < |results| {
      assert results[..k + 1][..k] == results[..k];
      CollectErrorStays(results, k + 1);
    } else {
      assert results[..k] == results;
    }
  }

  /** The outcome of rewriting each record's line with the column indices of its header. */
  function Rewrites(group: seq<Record>, ci: ColumnIndices): seq<Result<string>> {
    seq(|group|, i requires 0 <= i < |group| => ProcessedLineText(group[i].line, Some(ci)))
  }

  /** The rewritten lines of a group's records, or the failure of the first that cannot be rewritten. */
  function ProcessedLines(group: seq<Record>, ci: ColumnIndices): Result<seq<string>> {
    Collect(Rewrites(group, ci))
  }

  /**
   * The file of one satellite: the header of its system must exist and resolve; then the
   * rewritten header followed by one rewritten line per record.
   */
  function GroupFile(headerMap: map<string, string>, key: SatKey, group: seq<Record>): Result<seq<string>> {
    if key.system !in headerMap then Err(MissingHeader(key.system))
    else
      var header := headerMap[key.system];
      var ci :- HeaderIndices(header);
      var lines :- ProcessedLines(group, ci);
      Ok([HeaderText(header, ci)] + lines)
  }

  /**
   * A satellite whose system has no header fails; otherwise its file has the rewritten
   * header first and one line per record after it.
   */
  lemma GroupFileShape(headerMap: map<string, string>, key: SatKey, group: seq<Record>)
    ensures key.system !in headerMap ==> GroupFile(headerMap, key, group) == Err(MissingHeader(key.system))
    ensures var r := GroupFile(headerMap, key, group);
      r.Ok? ==> (key.system in headerMap && HeaderIndices(headerMap[key.system]).Ok?
        && |r.value| == |group| + 1
        && r.value[0] == HeaderText(headerMap[key.system], HeaderIndices(headerMap[key.system]).value))
  {
  }

  /** The inner loop of `groupDto`: rewrite each record's line, stopping at the first failure. */
  method WriteLines(group: seq<Record>, ci: ColumnIndices) returns (r: Result<seq<string>>)
    ensures r == ProcessedLines(group, ci)
  {
    ghost var rewrites := Rewrites(group, ci);
    var written: seq<string> := [];
    for i := 0 to |group|
      invariant Collect(rewrites[..i]) == Ok(written)
    {
      var line := ProcessedLine(group[i].line, Some(ci));
      CollectSnoc(rewrites, i, written);
      if line.Err? {
        CollectErrorStays(rewrites, i + 1);
        return Err(line.error);
      }
      written := written + [line.value];
    }
    assert rewrites[..|group|] == rewrites;
    r := Ok(written);
  }

  /**
   * The body of the loop of `groupDto` for one satellite: look up and resolve its
   * system's header, write the rewritten header, then rewrite each record's line.
   */
  method WriteGroupFile(headerMap: map<string, string>, key: SatKey, group: seq<Record>) returns (r: Result<seq<string>>)
    ensures r == GroupFile(headerMap, key, group)
  {
    if key.system !in headerMap {
      return Err(MissingHeader(key.system));
    }
    var header := headerMap[key.system];
    var indices := HeaderIndices(header);
    if indices.Err? {
      return Err(indices.error);
    }
    var ci := indices.value;
    var formattedHeader := FormattedHeader(header, ci);
    var written := WriteLines(group, ci);
    if written.Err? {
      return Err(written.error);
    }
    r := Ok([formattedHeader] + written.value);
  }

  /** The outcome of writing the file of each group. */
  function Outcomes(groups: map<SatKey, seq<Record>>, headerMap: map<string, string>): (m: map<SatKey, Result<seq<string>>>)
    ensures m.Keys == groups.Keys
    ensures forall key :: key in m ==> m[key] == GroupFile(headerMap, key, groups[key])
  {
    map key | key in groups :: GroupFile(headerMap, key, groups[key])
  }

  /** `files` holds exactly the files of the outcomes, all of which succeeded. */
  ghost predicate Regrouped(files: map<SatKey, seq<string>>, outcomes: map<SatKey, Result<seq<string>>>) {
    files.Keys == outcomes.Keys && forall key :: key in files ==> outcomes[key] == Ok(files[key])
  }

  /** Every outcome succeeded. */
  ghost predicate AllSucceed(outcomes: map<SatKey, Result<seq<string>>>) {
    forall key :: key in outcomes ==> outcomes[key].Ok?
  }

  /** Some outcome failed with `e`. */
  ghost predicate FailsWith(outcomes: map<SatKey, Result<seq<string>>>, e: Error) {
    exists key :: key in outcomes && outcomes[key] == Err(e)
  }

  /** The files written so far: those of every key no longer `remaining`. */
  ghost predicate WrittenSoFar(files: map<SatKey, seq<string>>, outcomes: map<SatKey, Result<seq<string>>>, remaining: set<SatKey>) {
    remaining <= outcomes.Keys
    && files.Keys == outcomes.Keys - remaining
    && forall key :: key in files ==> outcomes[key] == Ok(files[key])
  }

  lemma WrittenStep(files: map<SatKey, seq<string>>, outcomes: map<SatKey, Result<seq<string>>>, remaining: set<SatKey>,
                    key: SatKey, file: seq<string>)
    requires WrittenSoFar(files, outcomes, remaining) && key in remaining && outcomes[key] == Ok(file)
    ensures WrittenSoFar(files[key := file], outcomes, remaining - {key})
  {
  }

  lemma WrittenAll(files: map<SatKey, seq<string>>, outcomes: map<SatKey, Result<seq<string>>>)
    requires WrittenSoFar(files, outcomes, {})
    ensures AllSucceed(outcomes) && Regrouped(files, outcomes)
  {
  }

  lemma Failing(outcomes: map<SatKey, Result<seq<string>>>, key: SatKey, e: Error)
    requires key in outcomes && outcomes[key] == Err(e)
    ensures !AllSucceed(outcomes) && FailsWith(outcomes, e)
  {
  }

  /**
   * The loop of `groupDto` over the groups: every file is written, or the loop stops at the
   * first group that fails. The groups are visited in the iteration order of the grouping
   * map, so when several groups fail, the failure reported is that of one of them.
   */
  method WriteGroups(groups: map<SatKey, seq<Record>>, headerMap: map<string, string>)
    returns (r: Result<map<SatKey, seq<string>>>)
    ensures r.Ok? <==> AllSucceed(Outcomes(groups, headerMap))
    ensures r.Ok? ==> Regrouped(r.value, Outcomes(groups, headerMap))
    ensures r.Err? ==> FailsWith(Outcomes(groups, headerMap), r.error)
  {
    ghost var outcomes := Outcomes(groups, headerMap);
    var remaining := groups.Keys;
    var files: map<SatKey, seq<string>> := map[];
    while remaining != {}
      invariant WrittenSoFar(files, outcomes, remaining)
      decreases |remaining|
    {
      var key :| key in remaining;
      var file := WriteGroupFile(headerMap, key, groups[key]);
      if file.Err? {
        Failing(outcomes, key, file.error);
        return Err(file.error);
      }
      WrittenStep(files, outcomes, remaining, key, file.value);
      files := files[key := file.value];
      remaining := remaining - {key};
    }
    WrittenAll(files, outcomes);
    r := Ok(files);
  }

  /**
   * `groupDto`: the selected records, grouped by satellite, one file per group, each the
   * `GroupFile` of its group.
   */
  method GroupDto(records: seq<Record>, headerMap: map<string, string>, checked: seq<string>)
    returns (r: Result<map<SatKey, seq<string>>>)
    requires forall i :: 0 <= i < |checked| ==> IsChoice(checked[i])
    ensures var outcomes := Outcomes(GroupByKey(Selected(records, checked)), headerMap);
      && (r.Ok? <==> AllSucceed(outcomes))
      && (r.Ok? ==> Regrouped(r.value, outcomes))
      && (r.Err? ==> FailsWith(outcomes, r.error))
  {
    var selected := records;
    if SelectAll !in checked {
      NamedChoices(checked);
      selected := Filter(records, MappedCodes(checked));
    }
    var groups := GroupByKey(selected);
    r := WriteGroups(groups, headerMap);
  }

  /**
   * `createGroupedFiles`: parse the records, build the header map, then regroup. The
   * first of these steps to fail decides the failure.
   */
  method CreateGroupedFiles(lines: seq<string>, inputFileName: string, checked: seq<string>)
    returns (r: Result<map<SatKey, seq<string>>>)
    requires forall i :: 0 <= i < |checked| ==> IsChoice(checked[i])
    ensures Classify(inputFileName) == Unknown ==> r == Err(UnknownInputFormat)
    ensures r.Ok? ==> (HeaderMapOf(lines).Ok?
      && exists records :: (ParsedAll(DataLines(lines), Classify(inputFileName), records)
        && Regrouped(r.value, Outcomes(GroupByKey(Selected(records, checked)), HeaderMapOf(lines).value))))
    ensures r.Err? && Classify(inputFileName) != Unknown ==>
      || FirstFailure(DataLines(lines), Classify(inputFileName), r.error)
      || (AllParse(DataLines(lines), Classify(inputFileName)) && HeaderMapOf(lines) == Err(r.error))
      || (HeaderMapOf(lines).Ok? && exists records :: (ParsedAll(DataLines(lines), Classify(inputFileName), records)
        && FailsWith(Outcomes(GroupByKey(Selected(records, checked)), HeaderMapOf(lines).value), r.error)))
  {
    var records := ParseOutputFile(lines, inputFileName);
    if records.Err? {
      return Err(records.error);
    }
    var headerMap := HeaderMap(lines);
    if headerMap.Err? {
      return Err(headerMap.error);
    }
    r := GroupDto(records.value, headerMap.value, checked);
  }
}
