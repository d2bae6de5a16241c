# rinex-gui post-processing, modelled in Dafny

rinex-gui is a JavaFX front end for the GFZRNX converter. After the converter has written
its tabular output, `WrapperController` post-processes that file in three passes. This
project models those passes and proves properties of the model.

- **Regrouping** (`createGroupedFiles`, `groupDto`):
  - classify the original input file name into a record layout (`getFormat`);
  - parse every data line into a record of system code, satellite number and raw line
    (`parseOutputFile`, `parseOutputLine`, `getSatNumIndex`);
  - collect the header line of each satellite system (`getHeaderMap`);
  - filter the records by the selected systems (`equalsAny`), then group them by
    satellite;
  - write one file per satellite: the system's header rewritten to fixed-width columns
    (`getHeaderIndices`, `getDataIndex`, `getFormattedHeader`), then every record's line
    rewritten with a decimal-hour time and fixed-width data columns (`getProcessedLine`).
- **Epoch completeness** (`createRegistryFile`, `processInfoBlock`, `getFinalString`,
  `getSystem`): a two-state loop gathers data lines into blocks that share a timestamp.
  Each flushed block writes, for each satellite system, how many of its lines hold a
  value (anything but `9999999999.999`) in each data column.
- **The tokenizer** all passes share: Java's `Pattern.compile("\\s+").split(line)`.

Files become `seq<string>` of lines. The report is a returned `seq<string>`. The grouped
files are a `map` from satellite to lines. Every `RuntimeException` the code throws
becomes an `Err` of `Results.Error`.

Modules, in dependency order:

- `Results`: Option, Result, Error.
- `Tokenizer`: split semantics, header and data lines.
- `Layout`: `getFormat`, `getSatNumIndex`.
- `Parser`: `parseOutputLine`, `parseOutputFile`.
- `Numerals` and `Times`: integer printing, `LocalTime.parse`, decimal hours.
- `Formatting`: `rightPad`, `getProcessedLine`, `getFormattedHeader`.
- `Header`: `indexOf`, `getDataIndex`, `getHeaderIndices`, `getHeaderMap`.
- `Blocks`: `processInfoBlock`, `getFinalString`, `getSystem`.
- `Registry`: `createRegistryFile`.
- `Grouping`: `equalsAny`, `groupDto`, `createGroupedFiles`.

Behaviours of the code worth noting (the model follows the code as written):

- A header that does not resolve aborts the whole regrouping, not only its own group.
  `getHeaderIndices` throws inside the loop of `groupDto`, and nothing catches the
  exception. The same holds for a time that does not parse in `getProcessedLine`.
- The rewritten header holds only `TIME`, not every header token except `DATE`. The labels
  come from `nameToIndexMap`, whose keys are only `DATE` and `TIME`
  (`Formatting.HeaderLabelsAreTime`).
- Only `.YYo` or `.YYp` names (2 to 4 digits) classify as O or P; another letter is
  Unknown. Java's `$` also matches just before one final line terminator, so
  `"site.21o\n"` matches. It then does not end with `o`, and so classifies as P
  (`Layout.ClassifyTrailingNewlineExample`).
- Checking "Все" keeps every record. Checking all seven systems by name keeps only records
  whose code is one of the seven (`Grouping.SelectAllVersusEverySystem`).
- A line longer than the first line of its sub-block overflows `countArray` only if an
  extra token is not the null sentinel.
- The first data line only seeds the timestamp, and the last block is never flushed. Both
  are reproduced as written (`Registry.ScanReportsEpochs`).

## Model

| member | source | states |
|---|---|---|
| Tokenizer.DropTrailingEmptySpec | src/main/java/WrapperController.java:70 | the limit-0 split keeps a prefix of the pieces that does not end in "", and drops only "" pieces |
| Tokenizer.FieldsShape | src/main/java/WrapperController.java:70 | every piece between whitespace runs is free of whitespace; only the first and last can be empty; the first is empty exactly when the line starts with whitespace |
| Tokenizer.FieldsOfWordThen | src/main/java/WrapperController.java:70 | characters of a word before the text glue onto the first piece of the text's split |
| Tokenizer.FieldsOfGapThen | src/main/java/WrapperController.java:70 | a whitespace run before text that starts with a non-blank adds one empty piece in front |
| Tokenizer.TokenShape | src/main/java/WrapperController.java:70 | tokens hold no whitespace; every token after the first is non-empty; token 0 is "" exactly when the line starts with whitespace |
| Tokenizer.FirstTokenStart | src/main/java/WrapperController.java:70 | a line that starts with a non-blank has a non-empty token 0 beginning with that character |
| Tokenizer.FieldsWordGap | src/main/java/WrapperController.java:70 | a word, then a whitespace run, then a non-blank rest splits into the word followed by the pieces of the rest |
| Tokenizer.FieldsJoin | src/main/java/WrapperController.java:70 | words joined by single blanks split back into exactly those words |
| Tokenizer.FieldsJoinSpace | src/main/java/WrapperController.java:70 | words joined by blanks and ended by one blank split into the words and one trailing empty piece |
| Tokenizer.TokenizeJoin | src/main/java/WrapperController.java:70 | round trip: splitting words joined by single blanks gives the words back |
| Tokenizer.TokenizeLeadingSpace | src/main/java/WrapperController.java:70 | a leading blank adds exactly one leading "" token, which is why the system code sits at index 1 |
| Tokenizer.TokenizeJoinSpace | src/main/java/WrapperController.java:70 | a trailing blank adds no token: the trailing empty piece is dropped |
| Tokenizer.JoinSnoc | src/main/java/WrapperController.java:555-558 | appending a word to a non-empty list adds a blank and the word to the joined text |
| Tokenizer.DataLinesMembers | src/main/java/WrapperController.java:722-727 | the data lines are exactly the lines not starting with `#`, and there are no more of them than lines |
| Tokenizer.DataLinesAppend | src/main/java/WrapperController.java:722-727 | data lines are selected line by line, so file order is kept across a split of the file |
| Tokenizer.DataLinesStep | src/main/java/WrapperController.java:495-498 | reading from line `i`: a header line contributes no data line, any other line contributes itself first |
| Layout.SatNumIndex | src/main/java/WrapperController.java:763-771 | succeeds exactly for a known layout; the satellite number is token 5 for P and token 4 for RX3 and O |
| Layout.Rx3IsNotYearSuffix | src/main/java/WrapperController.java:68 | a name ending in `.rx3` never matches the year-suffix pattern, so the order of the two tests does not matter |
| Layout.NotYearSuffix | src/main/java/WrapperController.java:68 | a name whose last character is neither `o` nor `p` has no year suffix |
| Layout.ClassifyCases | src/main/java/WrapperController.java:734-747 | RX3 iff the lower-cased name ends in `.rx3`; O iff it ends in `.` + 2 to 4 digits + `o`; P iff it matches the pattern and does not end in `o`; Unknown iff neither test passes |
| Layout.ClassifyObservationExample | src/main/java/WrapperController.java:734-747 | `ABCD0010.21O` is O: the test ignores case |
| Layout.ClassifyNavigationExample | src/main/java/WrapperController.java:734-747 | `brdc0010.2021p` (four-digit year) is P |
| Layout.ClassifyRx3Example | src/main/java/WrapperController.java:734-747 | `SITE.RX3` is RX3 |
| Layout.ClassifyUnknownLetterExample | src/main/java/WrapperController.java:68 | `brdc0010.21n` is Unknown: only `o` and `p` are accepted |
| Layout.ClassifyUnknownShortYearExample | src/main/java/WrapperController.java:68 | one digit before `o` is too few |
| Layout.ClassifyUnknownLongYearExample | src/main/java/WrapperController.java:68 | five digits before `o` are too many |
| Layout.ClassifyTrailingNewlineExample | src/main/java/WrapperController.java:68 | `$` also matches before a final newline, and such a name is P because it does not end with `o` |
| Parser.ParseLine | src/main/java/WrapperController.java:754-761 | Unknown fails; otherwise succeeds exactly when the satellite token exists; the record is token 1, the layout's satellite token, and the raw line |
| Parser.ParseJoinedLine | src/main/java/WrapperController.java:754-761 | round trip: a line of single-spaced fields parses to its second field, its layout's satellite field and itself |
| Parser.ParsedStep | src/main/java/WrapperController.java:722-727 | one more line: a header line adds no record, a data line that parses appends its record |
| Parser.ParseFailsAt | src/main/java/WrapperController.java:722-727 | a data line that does not parse, after data lines that all did, is the failure of the whole file |
| Parser.FailureAfter | src/main/java/WrapperController.java:722-727 | a failing line after lines that all parse is the first failure, whatever follows |
| Parser.ParseOutputFile | src/main/java/WrapperController.java:713-732 | Unknown fails before any line is read; otherwise it succeeds iff every data line parses, giving one record per data line in file order; else it fails with the first failing data line's error |
| Numerals.NatToString | src/main/java/WrapperController.java:557 | `append(int)` of a count: digits denoting the number, no leading zero, as many digits as needed |
| Numerals.PadDigits | src/main/java/WrapperController.java:655 | the six-digit fraction of `%08.6f`: exactly `width` digits denoting the number |
| Numerals.NatToStringLength | src/main/java/WrapperController.java:655 | a number below 10^k prints in at most k digits |
| Numerals.DigitsValueAppend | src/main/java/WrapperController.java:655 | reading two digit strings side by side shifts the first by the length of the second |
| Times.ParseTime | src/main/java/WrapperController.java:651 | `LocalTime.parse`: what it accepts is a valid time of day |
| Times.ParseFormatTime | src/main/java/WrapperController.java:651 | round trip: a valid time written `HH:MM:SS`, with or without a fraction of a second, parses back to itself |
| Times.ParseShortTime | src/main/java/WrapperController.java:651 | `HH:MM` parses with second 0 |
| Times.ParsedTimeShape | src/main/java/WrapperController.java:651 | every accepted token is `HH:MM`, or `HH:MM:SS` followed by nothing or a fraction |
| Times.TwoDigitsPair | src/main/java/WrapperController.java:651 | a two-digit field written for `n` < 100 reads back as `n` |
| Times.PairDigits | src/main/java/WrapperController.java:651 | a two-digit field reads as a value below 100 whose two-digit form is the field itself |
| Times.MicroHours | src/main/java/WrapperController.java:652-653 | micro-hours within half a micro-hour of `hour + minute/60 + second/3600`, below 24 hours, and below 10 hours exactly when the hour is below 10 |
| Times.HoursBelowTen | src/main/java/WrapperController.java:652-653 | a valid time has fewer than 86400 seconds of the day, and is before 10:00 exactly when fewer than 36000 have passed |
| Times.RoundedMicroHours | src/main/java/WrapperController.java:652-655 | rounding `sec / 3600` hours to six decimals never meets a tie: the error is strictly below half a unit |
| Times.DecimalHours | src/main/java/WrapperController.java:655 | `%08.6f`: 8 or 9 characters, a point before six digits, and the digits around the point read as the micro-hour count; 8 characters exactly before 10:00 |
| Formatting.NameToIndex | src/main/java/WrapperController.java:667-675 | `nameToIndexMap` has exactly the keys `DATE` and `TIME` |
| Formatting.Spaces | src/main/java/WrapperController.java:656 | `n` blanks |
| Formatting.RightPad | src/main/java/WrapperController.java:656 | `StringUtils.rightPad`: the width when the string is shorter, the string's own length otherwise |
| Formatting.RightPadContents | src/main/java/WrapperController.java:656 | the padded string starts with the string and continues with blanks only |
| Formatting.DataRegion | src/main/java/WrapperController.java:658-660 | the tokens from `dataStartIndex` on; none when it is past the end |
| Formatting.HeaderLabelsAreTime | src/main/java/WrapperController.java:686-688 | the header labels written are exactly `{TIME}` |
| Formatting.ProcessedLineText | src/main/java/WrapperController.java:643-662 | no indices: the line unchanged; otherwise it succeeds exactly when the `TIME` token exists and parses, and fails with `MalformedLine` or `BadTime` otherwise |
| Formatting.PaddedColumnsAppend | src/main/java/WrapperController.java:658-660 | padding one more token appends its padded column |
| Formatting.PaddedColumnsLength | src/main/java/WrapperController.java:658-660 | when no token is wider than the column, the columns take exactly width × count characters |
| Formatting.PaddedColumnsSplit | src/main/java/WrapperController.java:658-660 | the columns of a concatenation are the columns of each part side by side |
| Formatting.PaddedColumnOffset | src/main/java/WrapperController.java:658-660 | fixed offsets: token `k` occupies characters `width*k` to `width*(k+1)`, padded |
| Formatting.FieldsPaddedColumns | src/main/java/WrapperController.java:658-660 | splitting padded columns gives back the tokens, plus the empty piece after the final blanks |
| Formatting.TokenizePaddedLine | src/main/java/WrapperController.java:656-660 | round trip: a padded first word followed by padded columns tokenizes back to that word and those columns |
| Formatting.DataRegionWords | src/main/java/WrapperController.java:658-660 | the data region of a line, from index 1 on, holds non-empty whitespace-free words |
| Formatting.ProcessedLineTokens | src/main/java/WrapperController.java:643-662 | when every data column is narrower than 20 characters, a rewritten line tokenizes to the decimal-hour time followed by exactly the original data columns; it is 10 + 20 × columns long and starts with the padded time |
| Formatting.HeaderTokens | src/main/java/WrapperController.java:682-693 | when every data label is narrower than 20 characters, a rewritten header tokenizes to `#TIME` followed by exactly the header's data labels |
| Formatting.TimeLabel | src/main/java/WrapperController.java:685-688 | `#` then `TIME` padded to 10 is `#TIME` padded to 11 |
| Formatting.AppendDataColumns | src/main/java/WrapperController.java:658-660 | the loop appends the padded data region to what was built so far |
| Formatting.ColumnsStep | src/main/java/WrapperController.java:658-660 | one more iteration appends the next token of the run to what was built, padded, so the loop builds the padded data region |
| Formatting.FormattedHeader | src/main/java/WrapperController.java:682-693 | `getFormattedHeader` builds `#`, `TIME` padded to 10, then the data labels padded to 20 |
| Formatting.ProcessedLine | src/main/java/WrapperController.java:643-662 | `getProcessedLine` computes `ProcessedLineText`, whose meaning `ProcessedLineTokens` states |
| Formatting.DecimalHoursParts | src/main/java/WrapperController.java:655 | the decimal-hour text is the whole hours, a point and the six-digit fraction of the micro-hours |
| Formatting.HalfPastSixExample | src/main/java/WrapperController.java:651-656 | `06:30:00` is 6500000 micro-hours; its whole hours print as `6` and its six-digit fraction as `500000` |
| Header.IndexOf | src/main/java/WrapperController.java:669 | `List.indexOf`: none exactly when absent; otherwise a position holding the value with no earlier one |
| Header.DataIndex | src/main/java/WrapperController.java:695-708 | the first `DATA` when present; otherwise one past the first `PRN`; `NoPrn` without `PRN`; `PrnIsLast` when that `PRN` is the last token |
| Header.ResolveColumnsSpec | src/main/java/WrapperController.java:664-680 | succeeds iff `DATE` and `TIME` occur and the data start resolves; keeps their first positions; fails with `IncorrectHeaderFormat` or the data-index failure otherwise |
| Header.HeaderPositionsPositive | src/main/java/WrapperController.java:664-680 | on a `#` header line every resolved position, data start included, is at least 1 |
| Header.HeaderMapFailure | src/main/java/WrapperController.java:568-588 | the header map fails exactly when some header line has fewer than two tokens, and names the first such line |
| Header.HeaderMapStep | src/main/java/WrapperController.java:572-582 | one more line leaves the map alone, or for a header line sets its system's entry |
| Header.HeaderMapDomain | src/main/java/WrapperController.java:568-588 | a successful map holds exactly the systems that have a header line |
| Header.HeaderMapLast | src/main/java/WrapperController.java:580-581 | each system's entry is the last header line naming it |
| Header.HeaderMap | src/main/java/WrapperController.java:568-588 | the loop computes `HeaderMapOf`, whose meaning the lemmas above state |
| Header.HeaderMapErrorStays | src/main/java/WrapperController.java:577-579 | once the map has failed, reading more lines keeps the same failure |
| Blocks.RowsOf | src/main/java/WrapperController.java:499 | one row per line, each the split of its line |
| Blocks.SystemOf | src/main/java/WrapperController.java:561-567 | `getSystem`: token 1, failing exactly when the line has fewer than two tokens |
| Blocks.GroupBySystem | src/main/java/WrapperController.java:527 | keys are the systems of the block; each value is that system's lines in block order |
| Blocks.SubBlockMembers | src/main/java/WrapperController.java:527 | partition: a line is in a system's sub-block iff it is in the block with that system; non-empty iff the system occurs |
| Blocks.SubBlockWellFormed | src/main/java/WrapperController.java:527-531 | a present system's sub-block is non-empty, so `get(0)` is safe |
| Blocks.Count | src/main/java/WrapperController.java:539-547 | a column count never exceeds the sub-block's line count |
| Blocks.CountAll | src/main/java/WrapperController.java:539-547 | a count equals the line count exactly when every line holds a value in that column |
| Blocks.CountNone | src/main/java/WrapperController.java:539-547 | a count is 0 exactly when no line holds a value in that column |
| Blocks.NoLongerLinesFit | src/main/java/WrapperController.java:537-546 | lines no longer than the first never overflow the array |
| Blocks.CountColumns | src/main/java/WrapperController.java:537-547 | succeeds iff no line overflows the array; then one count per column of the first line; else fails at an overflowing line |
| Blocks.FinalString | src/main/java/WrapperController.java:554-560 | `getFinalString` builds `system dateTime c0 c1 ... ` |
| Blocks.NumeralIsWord | src/main/java/WrapperController.java:557 | a printed count is a non-empty token without whitespace |
| Blocks.ReportJoin | src/main/java/WrapperController.java:554-560 | the report line is its words joined by blanks, plus one trailing blank |
| Blocks.ReportTokens | src/main/java/WrapperController.java:554-560 | a report line reads back as system, date, time and the counts; the trailing blank adds no token |
| Blocks.SubReportTokens | src/main/java/WrapperController.java:529-548 | a system's report line reads back as that system, the first line's timestamp, and one count per column, each at most the number of its lines |
| Blocks.SystemReport | src/main/java/WrapperController.java:530-548 | one system: succeeds iff it can be counted; the line is the report of its counts with the first line's system and timestamp; otherwise fails with the first line of the sub-block that overflows its array |
| Blocks.ProcessInfoBlock | src/main/java/WrapperController.java:526-552 | succeeds iff every sub-block can be counted, writing one line per system in the map's iteration order; otherwise fails on the first sub-block, in that order, that cannot be counted, with its first overflowing line |
| Blocks.BlockReportSnoc | src/main/java/WrapperController.java:529-551 | reporting one more system appends its report line |
| Blocks.FlushStep | src/main/java/WrapperController.java:529-551 | one more countable system keeps the loop invariant: the systems done so far, in order, and their report lines |
| Blocks.FlushFails | src/main/java/WrapperController.java:537-545 | a sub-block with an overflowing line makes the block uncountable, failing with that sub-block's first overflowing line |
| Blocks.FlushDone | src/main/java/WrapperController.java:526-552 | once every system is done, the block could be counted and the lines are the report in the order taken |
| Blocks.OrderLength | src/main/java/WrapperController.java:528-529 | an iteration order lists each system once |
| Blocks.OneLinePerSystem | src/main/java/WrapperController.java:526-552 | a flush writes one line per distinct system; an empty block writes nothing |
| Blocks.ExampleCounts | src/main/java/WrapperController.java:539-547 | a block of two real GPS record lines (read back through the tokenizer), the second with the sentinel in column 2, counts `[2, 2, 1]` |
| Blocks.GpsLineRow | src/main/java/WrapperController.java:532 | a record line starting with a blank reads back as an empty token 0 followed by its words |
| Blocks.ExampleCountsText | src/main/java/WrapperController.java:556-558 | the counts `[2, 2, 1]` print as `2 2 1 ` |
| Blocks.TwoTwoOneExample | src/main/java/WrapperController.java:526-560 | flushing that block writes exactly the one line `G 2021-01-01 00:00:00 2 2 1 ` |
| Registry.MergeCases | src/main/java/WrapperController.java:506-517 | a line joins the following epoch when it has the same timestamp, and starts its own otherwise |
| Registry.EpochsCover | src/main/java/WrapperController.java:503-517 | epochs are non-empty, begin with the first line, and concatenate back to the lines |
| Registry.EpochsShareTimestamp | src/main/java/WrapperController.java:503-517 | within an epoch every line has its first line's timestamp |
| Registry.EpochsChangeTimestamp | src/main/java/WrapperController.java:503-517 | neighbouring epochs have different timestamps |
| Registry.EpochsAreMaximalRuns | src/main/java/WrapperController.java:503-517 | the epochs are the maximal runs of one timestamp |
| Registry.ScanAccumulating | src/main/java/WrapperController.java:508-517 | from a current timestamp and block, the flushed blocks are the merged epochs without the last one, and nothing is malformed |
| Registry.AccumulateSame | src/main/java/WrapperController.java:509-510 | a line with the current timestamp joins the current block, which still merges into the same epochs |
| Registry.AccumulateNew | src/main/java/WrapperController.java:511-515 | a line with a new timestamp flushes the current block, which stands as an epoch of its own |
| Registry.MergeAbsorb | src/main/java/WrapperController.java:509-510 | adding a line of the same timestamp to the block gives the same epochs as merging it later |
| Registry.MergeFresh | src/main/java/WrapperController.java:511-515 | a block before a line of another timestamp is an epoch by itself |
| Registry.ScanReportsEpochs | src/main/java/WrapperController.java:485-524 | with every line well formed, the pass flushes exactly the epochs, the first without its seed line and the last never |
| Registry.ScanMalformed | src/main/java/WrapperController.java:500-502 | the pass stops exactly at the first data line with fewer than five tokens |
| Registry.SingleEpochReportsNothing | src/main/java/WrapperController.java:485-524 | a file with a single epoch reports nothing |
| Registry.TwoEpochsReportFirst | src/main/java/WrapperController.java:485-524 | a file with two epochs reports only the first epoch without its seed line |
| Registry.EpochsOfRuns | src/main/java/WrapperController.java:506-517 | two runs of distinct timestamps are two epochs |
| Registry.OneEpoch | src/main/java/WrapperController.java:506-517 | a run of one timestamp is one epoch |
| Registry.RowsFrom | src/main/java/WrapperController.java:495-499 | from line `i`, a header line contributes no row and any other line its row first |
| Registry.ScanStopsAt | src/main/java/WrapperController.java:500-502 | a malformed row stops the pass there |
| Registry.ScanContinues | src/main/java/WrapperController.java:503-517 | a well-formed row takes one step of the state machine |
| Registry.FlushOneMore | src/main/java/WrapperController.java:512 | flushing one more countable block extends the report by that block's lines |
| Registry.FlushableFit | src/main/java/WrapperController.java:512 | blocks that were all reported could all be counted |
| Registry.MalformedFirst | src/main/java/WrapperController.java:500-502 | a malformed line is the first error when every earlier block could be counted |
| Registry.OverflowFirst | src/main/java/WrapperController.java:512 | an overflow in a flushed block is the first error when all earlier blocks could be counted |
| Registry.TakeLine | src/main/java/WrapperController.java:503-517 | one loop step: seed, extend, or flush and restart; the new state is the state machine's, and a flush writes the block's report or fails with its overflow |
| Registry.ProgressStart | src/main/java/WrapperController.java:490-491 | the loop starts with no timestamp, no block and nothing written |
| Registry.ProgressHeader | src/main/java/WrapperController.java:496-498 | a header line is skipped |
| Registry.ProgressMalformed | src/main/java/WrapperController.java:500-502 | a line with fewer than five tokens is the pass's first error |
| Registry.ProgressOverflow | src/main/java/WrapperController.java:512 | a block that cannot be counted is the pass's first error |
| Registry.ProgressStep | src/main/java/WrapperController.java:503-517 | a well-formed line keeps the loop invariant, appending what its flush wrote |
| Registry.ProgressDone | src/main/java/WrapperController.java:495-518 | at the end the pass is exactly what was flushed, and every block could be counted |
| Registry.CreateRegistryFile | src/main/java/WrapperController.java:485-524 | succeeds iff no data line is malformed and every flushed block can be counted, writing their reports in order; otherwise fails with the first error in file order |
| Grouping.EqualsAny | src/main/java/WrapperController.java:710-712 | true exactly when the list contains the value |
| Grouping.NamedChoices | src/main/java/WrapperController.java:602-606 | without "Все" every checked item has a code |
| Grouping.FilterMembers | src/main/java/WrapperController.java:606-608 | the filter keeps exactly the records whose system is selected |
| Grouping.FilterAppend | src/main/java/WrapperController.java:607 | the filter works record by record, so it keeps record order |
| Grouping.FilterKeepsAll | src/main/java/WrapperController.java:607 | the filter keeps everything exactly when every record's system is selected |
| Grouping.FilterAll | src/main/java/WrapperController.java:607 | a filter that selects every record's system changes nothing |
| Grouping.SelectAllVersusEverySystem | src/main/java/WrapperController.java:96-117 | "Все" keeps every record; naming all seven systems keeps every record exactly when every code is one of the seven |
| Grouping.GroupByKey | src/main/java/WrapperController.java:609 | one group per satellite that occurs; each holds that satellite's records |
| Grouping.GroupMembers | src/main/java/WrapperController.java:609 | every record is in exactly the group of its own key; a group is non-empty iff its key occurs |
| Grouping.GroupAppend | src/main/java/WrapperController.java:609 | grouping works record by record, so each group keeps source order |
| Grouping.Collect | src/main/java/WrapperController.java:629-636 | succeeds iff every outcome does, giving the values in order; otherwise fails with the first failure |
| Grouping.CollectErrorStays | src/main/java/WrapperController.java:629-636 | once a prefix fails, the whole sequence fails the same way |
| Grouping.GroupFileShape | src/main/java/WrapperController.java:619-636 | a system without a header fails; otherwise the file is the rewritten header then one line per record |
| Grouping.WriteLines | src/main/java/WrapperController.java:629-636 | the inner loop computes the rewritten lines, stopping at the first failure |
| Grouping.CollectSnoc | src/main/java/WrapperController.java:629-636 | one more rewritten line extends what is written; a failure becomes the outcome |
| Grouping.WriteGroupFile | src/main/java/WrapperController.java:620-636 | one satellite's file: look up and resolve the header, write it, then the records |
| Grouping.Outcomes | src/main/java/WrapperController.java:619-640 | the outcome of each group's file, one per group |
| Grouping.WrittenStep | src/main/java/WrapperController.java:619-640 | writing one more successful group keeps the files-so-far invariant |
| Grouping.WrittenAll | src/main/java/WrapperController.java:619-640 | when no group remains, every outcome succeeded and the files are exactly them |
| Grouping.Failing | src/main/java/WrapperController.java:619-640 | a failed group's error is a failure of the whole |
| Grouping.WriteGroups | src/main/java/WrapperController.java:613-640 | succeeds iff every group's file succeeds, writing exactly those files; otherwise fails with the error of some failing group |
| Grouping.GroupDto | src/main/java/WrapperController.java:601-641 | the same, for the groups of the selected records |
| Grouping.CreateGroupedFiles | src/main/java/WrapperController.java:477-483 | Unknown fails; success means the records are the parsed data lines and the files are their regrouping; an error is the first parse error, the header-map error, or some group's error |

## Left out

- File I/O: `BufferedReader`, `FileWriter`, `mkdirs` and path construction. Input is a
  sequence of lines; outputs are returned values. Directory creation (610-617) is not
  modelled.
- JavaFX UI, dialogs and alerts (173-426); launching the converter and building its
  command line (228-331, 428-475, 773-779). These are process plumbing and concurrency.
- `getHeader` (590-600): it is never called.
- `HashMap` iteration order (527, 609, 613): `processInfoBlock` reports systems in some
  order, a ghost `order` whose only property is listing each system once. `groupDto`
  visits groups in an order picked by `:|`. Which failing group is reported when several
  fail is therefore unspecified.
- Floating point in `getProcessedLine` (652-655). The hours are computed as an integer
  count of micro-hours, rounded to nearest. The rounding never meets a tie
  (`Times.RoundedMicroHours`). That this equals Java's `double` arithmetic followed by
  `%08.6f` is assumed, not proved.
- `LocalTime.parse` is modelled as `HH:MM`, or `HH:MM:SS` optionally followed by a point
  and 0 to 9 digits (a bare point is accepted, as Java's parser does), with hour < 24, minute < 60 and second < 60. The fraction is
  ignored, as `getSecond` does.
- `toLowerCase` is modelled on ASCII capitals only. Other characters cannot turn a name
  into a `.rx3`, `o` or `p` ending except through locale-specific case mappings, which are
  not modelled.
- Output already written before an exception (report lines before an overflow, grouped
  files before a failing group) is not returned: a failure returns only the error.
- `int` counters and indices are unbounded `nat`s; no overflow is possible for inputs
  that fit in memory.
- The null `ColumnIndices` path of `getProcessedLine` is modelled (`ProcessedLineText`
  with `None`), although `groupDto` never passes null.
- Selection items that are neither "Все" nor one of the seven names are excluded by a
  precondition. The selection list offers only those items; any other would make the
  code map it to a null code.
- Grouping.CreateGroupedFiles: on an error it states which step failed, but not that the
  regrouping error comes from the same records and header map a success would use.
- Formatting.ProcessedLineTokens and Formatting.HeaderTokens: stated only for data columns
  narrower than 20 characters. `rightPad` leaves a token of 20 or more characters unpadded
  (659, 690), so no blank follows it. The next column then starts right after it, the two
  read back as one token, and every later column is shifted. The text the model computes is still exactly the code's (`ProcessedLineText`,
  `HeaderText`); only the read-back lemmas are restricted.
- Line terminators of the grouped files: `groupDto` ends the header line with `"\n"`
  (627-628) but each record line with `System.lineSeparator()` (631-632). On a platform whose
  separator is CRLF, one file mixes the two. The model returns a file as a sequence of lines
  and does not keep either terminator.
