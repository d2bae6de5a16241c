/**
 * The record layout of the converter's output, chosen once per job from the original
 * input file name (`getFormat`, `FormatType`), and the satellite-number column it
 * implies (`getSatNumIndex`).
 */
module Layout {
  import opened Results

  /** RX3: a `.rx3` input; O: an observation file `.YYo`; P: `.YYp`; Unknown: anything else. */
  datatype FormatType = RX3 | P | O | Unknown

  /** Lower-casing as it affects the pattern: only the ASCII capitals matter. */
  function ToLowerChar(c: char): char {
    if 'A' <= c <= 'Z' then (c as int + 32) as char else c
  }

  function ToLower(s: string): string {
    seq(|s|, i requires 0 <= i < |s| => ToLowerChar(s[i]))
  }

  predicate EndsWith(s: string, suffix: string) {
    |suffix| <= |s| && s[|s| - |suffix|..] == suffix
  }

  predicate IsDigit(c: char) {
    '0' <= c <= '9'
  }

  /** `\.[0-9]{2,4}[op]` matches the whole of `t`. */
  predicate IsYearSuffix(t: string) {
    4 <= |t| <= 6 && t[0] == '.' && (t[|t| - 1] == 'o' || t[|t| - 1] == 'p')
    && forall i :: 1 <= i < |t| - 1 ==> IsDigit(t[i])
  }

  /** The last `k` characters of `t` are matched by `\.[0-9]{2,4}[op]`. */
  predicate YearSuffixOfLength(t: string, k: nat) {
    k <= |t| && IsYearSuffix(t[|t| - k..])
  }

  /** Some suffix of `t` is matched by `\.[0-9]{2,4}[op]`. */
  predicate EndsWithYearSuffix(t: string) {
    YearSuffixOfLength(t, 4) || YearSuffixOfLength(t, 5) || YearSuffixOfLength(t, 6)
  }

  /** The characters Java's `$` accepts as a final line terminator. */
  predicate IsLineTerminator(c: char) {
    c == '\n' || c == '\r' || c == '\U{0085}' || c == '\U{2028}' || c == '\U{2029}'
  }

  /**
   * `INPUT_NAME.matcher(t).find()` for `.*\.[0-9]{2,4}([op])$`: without MULTILINE, `$`
   * matches at the end of the input or just before one final line terminator
   * (a single character or "\r\n").
   */
  predicate MatchesInputName(t: string) {
    || EndsWithYearSuffix(t)
    || (|t| >= 1 && IsLineTerminator(t[|t| - 1]) && EndsWithYearSuffix(t[..|t| - 1]))
    || (|t| >= 2 && t[|t| - 2..] == "\r\n" && EndsWithYearSuffix(t[..|t| - 2]))
  }

  /** `getFormat`: classify the original input file name, case-insensitively. */
  function Classify(fileName: string): FormatType {
    var lower := ToLower(fileName);
    if EndsWith(lower, ".rx3") then RX3
    else if MatchesInputName(lower) then (if EndsWith(lower, "o") then O else P)
    else Unknown
  }

  /** `getSatNumIndex`: the token that holds the satellite number. */
  function SatNumIndex(f: FormatType): (r: Result<nat>)
    ensures r.Ok? <==> f != Unknown
    ensures r.Ok? ==> r.value == (if f == P then 5 else 4)
  {
    match f
    case RX3 => Ok(4)
    case O => Ok(4)
    case P => Ok(5)
    case Unknown => Err(UnknownRecordType)
  }

  /** A `.rx3` name never also matches the year-suffix pattern. */
  lemma Rx3IsNotYearSuffix(t: string)
    requires EndsWith(t, ".rx3")
    ensures !MatchesInputName(t)
  {
    assert t[|t| - 1] == ".rx3"[3];
    NotYearSuffix(t, '3');
    if |t| >= 2 {
      assert t[|t| - 2] == 'x';
      NotYearSuffix(t[..|t| - 1], 'x');
      NotYearSuffix(t[..|t| - 2], 'r');
    }
  }

  /** A name whose last character is neither `o` nor `p` has no year suffix. */
  lemma NotYearSuffix(t: string, last: char)
    requires t != [] && t[|t| - 1] == last && last != 'o' && last != 'p'
    ensures !EndsWithYearSuffix(t)
  {
    forall k: nat | k <= |t| ensures !YearSuffixOfLength(t, k) {
      var u := t[|t| - k..];
      if |u| > 0 {
        assert u[|u| - 1] == last;
      }
    }
  }

  /**
   * The three rules hold independently of the order `getFormat` tries them in:
   * RX3 exactly for a `.rx3` ending; O exactly for `.` + 2 to 4 digits + `o` at the very
   * end; P for every other match of the pattern, which is a `p` ending or a match
   * followed by one final line terminator.
   */
  lemma ClassifyCases(fileName: string)
    ensures var lower := ToLower(fileName);
      && (Classify(fileName) == RX3 <==> EndsWith(lower, ".rx3"))
      && (Classify(fileName) == O <==> EndsWithYearSuffix(lower) && lower[|lower| - 1] == 'o')
      && (Classify(fileName) == P <==> MatchesInputName(lower) && !EndsWith(lower, "o"))
      && (Classify(fileName) == Unknown <==> !EndsWith(lower, ".rx3") && !MatchesInputName(lower))
  {
    var lower := ToLower(fileName);
    if EndsWith(lower, ".rx3") {
      Rx3IsNotYearSuffix(lower);
    }
    if lower != [] {
      assert EndsWith(lower, "o") <==> lower[|lower| - 1] == 'o' by {
        assert lower[|lower| - 1..] == [lower[|lower| - 1]];
      }
      if IsLineTerminator(lower[|lower| - 1]) {
        NotYearSuffix(lower, lower[|lower| - 1]);
      }
    }
  }

  /** Worked case: an upper-case observation name. */
  lemma ClassifyObservationExample()
    ensures Classify("ABCD0010.21O") == O
  {
    var lower := ToLower("ABCD0010.21O");
    forall i | 0 <= i < 12 ensures lower[i] == "abcd0010.21o"[i] {}
    assert lower == "abcd0010.21o";
    assert YearSuffixOfLength(lower, 4);
  }

  /** Worked case: a four-digit year with `p`. */
  lemma ClassifyNavigationExample()
    ensures Classify("brdc0010.2021p") == P
  {
    var lower := ToLower("brdc0010.2021p");
    forall i | 0 <= i < 14 ensures lower[i] == "brdc0010.2021p"[i] {}
    assert lower == "brdc0010.2021p";
    assert YearSuffixOfLength(lower, 6);
  }

  /** Worked case: the `.rx3` ending in either case. */
  lemma ClassifyRx3Example()
    ensures Classify("SITE.RX3") == RX3
  {
    assert ToLower("SITE.RX3") == "site.rx3";
  }

  /** Worked case: a letter other than `o` or `p` after the year is not a known layout. */
  lemma ClassifyUnknownLetterExample()
    ensures Classify("brdc0010.21n") == Unknown
  {
    var lower := ToLower("brdc0010.21n");
    forall i | 0 <= i < 12 ensures lower[i] == "brdc0010.21n"[i] {}
    assert lower == "brdc0010.21n";
    NotYearSuffix(lower, 'n');
    NotYearSuffix(lower[..|lower| - 2], '2');
  }

  /** Worked case: one digit is too few. */
  lemma ClassifyUnknownShortYearExample()
    ensures Classify("site.1o") == Unknown
  {
    var lower := ToLower("site.1o");
    forall i | 0 <= i < 7 ensures lower[i] == "site.1o"[i] {}
    assert lower == "site.1o";
    assert lower[3..][0] == 'e' && lower[2..][0] == 't' && lower[1..][0] == 'i';
    assert !EndsWithYearSuffix(lower);
    assert lower[|lower| - 2..] != "\r\n";
  }

  /** Worked case: five digits are too many. */
  lemma ClassifyUnknownLongYearExample()
    ensures Classify("site.12345o") == Unknown
  {
    var lower := ToLower("site.12345o");
    forall i | 0 <= i < 11 ensures lower[i] == "site.12345o"[i] {}
    assert lower == "site.12345o";
    assert lower[7..][0] == '3' && lower[6..][0] == '2' && lower[5..][0] == '1';
    assert !EndsWithYearSuffix(lower);
    assert lower[|lower| - 2..] != "\r\n";
  }

  /** Worked case: `$` also matches before a final newline, and the name then no longer ends with `o`. */
  lemma ClassifyTrailingNewlineExample()
    ensures Classify("site.21o\n") == P
  {
    var lower := ToLower("site.21o\n");
    forall i | 0 <= i < 9 ensures lower[i] == "site.21o\n"[i] {}
    assert lower == "site.21o\n";
    assert lower[..8] == "site.21o";
    assert YearSuffixOfLength(lower[..8], 4);
  }
}
