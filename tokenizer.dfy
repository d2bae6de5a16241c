/**
 * The line tokenizer shared by every pass: `WHITESPACE_SPLIT_PATTERN.split(line)`, that is
 * Java's `Pattern.compile("\\s+").split(line)` with limit 0, and the header/data split of
 * the converter's output (`line.startsWith("#")`).
 */
module Tokenizer {
  import opened Results

  /** `\s` in a Java regular expression: space, tab, newline, vertical tab, form feed, carriage return. */
  predicate IsSpace(c: char) {
    c == ' ' || c == '\t' || c == '\n' || c == '\U{0B}' || c == '\U{0C}' || c == '\r'
  }

  predicate NoSpace(w: string) {
    forall i :: 0 <= i < |w| ==> !IsSpace(w[i])
  }

  predicate AllSpace(g: string) {
    forall i :: 0 <= i < |g| ==> IsSpace(g[i])
  }

  /** A token that can appear after the first position of a split: non-empty, no whitespace. */
  predicate IsWord(w: string) {
    w != [] && NoSpace(w)
  }

  /**
   * The pieces of `s` between maximal runs of whitespace. A run at the start gives a
   * leading "", a run at the end a trailing "".
   */
  function Fields(s: string): (r: seq<string>)
    ensures r != []
    decreases |s|
  {
    if s == [] then [""]
    else if IsSpace(s[0]) then
      if |s| > 1 && IsSpace(s[1]) then Fields(s[1..]) else [""] + Fields(s[1..])
    else
      var rest := Fields(s[1..]);
      [[s[0]] + rest[0]] + rest[1..]
  }

  /** Java's limit-0 split removes every trailing empty piece. */
  function DropTrailingEmpty(fs: seq<string>): seq<string> {
    if fs != [] && fs[|fs| - 1] == "" then DropTrailingEmpty(fs[..|fs| - 1]) else fs
  }

  /** What is kept is a prefix that does not end in "", and only "" pieces are dropped. */
  lemma {:induction false} DropTrailingEmptySpec(fs: seq<string>)
    ensures var r := DropTrailingEmpty(fs);
      && |r| <= |fs| && r == fs[..|r|]
      && (r != [] ==> r[|r| - 1] != "")
      && forall i :: |r| <= i < |fs| ==> fs[i] == ""
    decreases |fs|
  {
    if fs != [] && fs[|fs| - 1] == "" {
      var init := fs[..|fs| - 1];
      DropTrailingEmptySpec(init);
      var r := DropTrailingEmpty(init);
      assert init[..|r|] == fs[..|r|];
    }
  }

  /**
   * `Pattern.compile("\\s+").split(s)`. A string without any match comes back whole
   * (so "" gives [""]); otherwise the pieces between whitespace runs, trailing empty
   * pieces dropped (so an all-whitespace string gives []).
   */
  function Tokenize(s: string): seq<string> {
    if s == [] then [""] else DropTrailingEmpty(Fields(s))
  }

  /** Words separated by single spaces. */
  function Join(ws: seq<string>): string {
    if ws == [] then "" else if |ws| == 1 then ws[0] else ws[0] + " " + Join(ws[1..])
  }

  /** Appending a word to a non-empty list adds a blank and the word to the joined text. */
  lemma {:induction false} JoinSnoc(ws: seq<string>, w: string)
    requires ws != []
    ensures Join(ws + [w]) == Join(ws) + " " + w
  {
    if |ws| > 1 {
      JoinSnoc(ws[1..], w);
      assert (ws + [w])[1..] == ws[1..] + [w];
    } else {
      assert (ws + [w])[1..] == [w];
    }
  }

  /** Token 1 of a line, its system code, when the line has one. */
  function SystemToken(line: string): Option<string> {
    var tokens := Tokenize(line);
    if |tokens| >= 2 then Some(tokens[1]) else None
  }

  /** `line.startsWith("#")`: a header line of the converter's output. */
  predicate IsHeaderLine(line: string) {
    |line| > 0 && line[0] == '#'
  }

  /** The lines that are not header lines, in file order. */
  function DataLines(lines: seq<string>): seq<string> {
    if lines == [] then []
    else
      var last := lines[|lines| - 1];
      DataLines(lines[..|lines| - 1]) + (if IsHeaderLine(last) then [] else [last])
  }

  /** Every field is free of whitespace; only the first and last may be empty; the first is empty exactly when `s` starts with whitespace. */
  lemma {:induction false} FieldsShape(s: string)
    ensures forall i :: 0 <= i < |Fields(s)| ==> NoSpace(Fields(s)[i])
    ensures forall i :: 0 < i < |Fields(s)| - 1 ==> Fields(s)[i] != ""
    ensures (Fields(s)[0] == "") == (s == [] || IsSpace(s[0]))
    decreases |s|
  {
    if s != [] {
      var t := s[1..];
      FieldsShape(t);
      var ft := Fields(t);
      if IsSpace(s[0]) {
        if |s| > 1 && IsSpace(s[1]) {
          assert Fields(s) == ft;
        } else {
          assert Fields(s) == [""] + ft;
          assert t == [] || !IsSpace(t[0]);
          forall i | 0 < i < |Fields(s)| - 1 ensures Fields(s)[i] != "" {
            if i == 1 { assert Fields(s)[1] == ft[0]; } else { assert Fields(s)[i] == ft[i - 1]; }
          }
        }
      } else {
        var head := [s[0]] + ft[0];
        assert Fields(s) == [head] + ft[1..];
        assert NoSpace(head) by {
          forall i | 0 <= i < |head| ensures !IsSpace(head[i]) {
            if i > 0 { assert head[i] == ft[0][i - 1]; }
          }
        }
        forall i | 0 < i < |Fields(s)| - 1 ensures Fields(s)[i] != "" {
          assert Fields(s)[i] == ft[i];
        }
      }
    }
  }

  /**
   * The tokens of any line: none contains whitespace, every token after the first is
   * non-empty, and the first is empty exactly when the line starts with whitespace.
   * This is why a line that starts with a blank has its first real field at index 1.
   */
  lemma TokenShape(s: string)
    ensures forall i :: 0 <= i < |Tokenize(s)| ==> NoSpace(Tokenize(s)[i])
    ensures forall i :: 0 < i < |Tokenize(s)| ==> Tokenize(s)[i] != ""
    ensures s != [] && Tokenize(s) != [] ==> (Tokenize(s)[0] == "" <==> IsSpace(s[0]))
  {
    if s != [] {
      FieldsShape(s);
      var fs := Fields(s);
      DropTrailingEmptySpec(fs);
      var r := Tokenize(s);
      assert r == fs[..|r|];
      forall i | 0 < i < |r| ensures r[i] != "" {
        assert r[i] == fs[i];
      }
      if r != [] {
        assert r[0] == fs[0];
      }
    }
  }

  /** A whitespace-free prefix sticks to the first field of what follows. */
  lemma {:induction false} FieldsOfWordThen(w: string, t: string)
    requires NoSpace(w)
    ensures Fields(w + t) == [w + Fields(t)[0]] + Fields(t)[1..]
    decreases |w|
  {
    if w == [] {
      assert w + t == t;
      var ft := Fields(t);
      assert w + ft[0] == ft[0];
      assert ft == [ft[0]] + ft[1..];
    } else {
      FieldsOfWordThen(w[1..], t);
      var s := w + t;
      assert s[0] == w[0];
      assert s[1..] == w[1..] + t;
      assert [w[0]] + (w[1..] + Fields(t)[0]) == w + Fields(t)[0];
    }
  }

  /** A run of whitespace followed by a non-blank (or nothing) opens one empty field. */
  lemma {:induction false} FieldsOfGapThen(g: string, rest: string)
    requires g != [] && AllSpace(g)
    requires rest == [] || !IsSpace(rest[0])
    ensures Fields(g + rest) == [""] + Fields(rest)
    decreases |g|
  {
    var s := g + rest;
    assert s[0] == g[0];
    assert s[1..] == g[1..] + rest;
    if |g| > 1 {
      FieldsOfGapThen(g[1..], rest);
      assert s[1] == g[1];
    } else {
      assert g[1..] + rest == rest;
    }
  }

  /** A word, then whitespace, then the rest: the word is one field and the rest splits on its own. */
  lemma FieldsWordGap(w: string, g: string, rest: string)
    requires NoSpace(w)
    requires g != [] && AllSpace(g)
    requires rest == [] || !IsSpace(rest[0])
    ensures Fields(w + g + rest) == [w] + Fields(rest)
  {
    FieldsOfGapThen(g, rest);
    FieldsOfWordThen(w, g + rest);
    assert w + g + rest == w + (g + rest);
    var fr := Fields(rest);
    assert ([""] + fr)[0] == "" && ([""] + fr)[1..] == fr;
    assert w + "" == w;
  }

  /** Splitting words joined by single spaces gives the words back. */
  lemma {:induction false} FieldsJoin(ws: seq<string>)
    requires ws != []
    requires forall i :: 0 <= i < |ws| ==> IsWord(ws[i])
    ensures Fields(Join(ws)) == ws
    ensures Join(ws) != [] && !IsSpace(Join(ws)[0])
  {
    if |ws| == 1 {
      FieldsOfWordThen(ws[0], "");
      assert ws[0] + "" == ws[0];
    } else {
      FieldsJoin(ws[1..]);
      FieldsWordGap(ws[0], " ", Join(ws[1..]));
      assert ws == [ws[0]] + ws[1..];
      assert Join(ws)[0] == ws[0][0];
    }
  }

  /** Round trip: tokenizing words joined by single spaces yields exactly those words. */
  lemma TokenizeJoin(ws: seq<string>)
    requires ws != []
    requires forall i :: 0 <= i < |ws| ==> IsWord(ws[i])
    ensures Tokenize(Join(ws)) == ws
  {
    FieldsJoin(ws);
  }

  /** A line that starts with a blank gets an empty token 0, shifting every field up by one. */
  lemma TokenizeLeadingSpace(ws: seq<string>)
    requires ws != []
    requires forall i :: 0 <= i < |ws| ==> IsWord(ws[i])
    ensures Tokenize(" " + Join(ws)) == [""] + ws
  {
    FieldsJoin(ws);
    TokenizeSpaceThen(Join(ws), ws);
  }

  /** A blank in front of a text whose fields end in a word adds an empty token 0. */
  lemma TokenizeSpaceThen(t: string, fs: seq<string>)
    requires t != [] && !IsSpace(t[0])
    requires Fields(t) == fs && fs != [] && fs[|fs| - 1] != ""
    ensures Tokenize(" " + t) == [""] + fs
  {
    FieldsOfGapThen(" ", t);
    var r := [""] + fs;
    assert r[|r| - 1] == fs[|fs| - 1];
  }

  /** A line that starts with a non-blank has a non-empty token 0 beginning with that character. */
  lemma FirstTokenStart(s: string)
    requires s != [] && !IsSpace(s[0])
    ensures Tokenize(s) != [] && Tokenize(s)[0] != "" && Tokenize(s)[0][0] == s[0]
  {
    var fs := Fields(s);
    DropTrailingEmptySpec(fs);
    assert fs[0] == [s[0]] + Fields(s[1..])[0];
  }

  /** The text of two or more words and a trailing blank, split after the first word. */
  lemma JoinConsSpace(ws: seq<string>)
    requires |ws| >= 2
    ensures Join(ws) + " " == ws[0] + " " + (Join(ws[1..]) + " ")
  {
  }

  /** Splitting words joined by single spaces and ended by one more space gives the words back. */
  lemma {:induction false} FieldsJoinSpace(ws: seq<string>)
    requires ws != []
    requires forall i :: 0 <= i < |ws| ==> IsWord(ws[i])
    ensures Fields(Join(ws) + " ") == ws + [""]
  {
    if |ws| == 1 {
      FieldsWordGap(ws[0], " ", "");
      assert Join(ws) + " " == ws[0] + " " + "";
    } else {
      FieldsJoinSpace(ws[1..]);
      FieldsJoin(ws[1..]);
      FieldsJoinSpaceStep(ws);
    }
  }

  /** The inductive step of `FieldsJoinSpace`: the first word and its blank come off first. */
  lemma FieldsJoinSpaceStep(ws: seq<string>)
    requires |ws| >= 2 && NoSpace(ws[0])
    requires Fields(Join(ws[1..]) + " ") == ws[1..] + [""]
    requires Join(ws[1..]) != [] && !IsSpace(Join(ws[1..])[0])
    ensures Fields(Join(ws) + " ") == ws + [""]
  {
    JoinConsSpace(ws);
    FieldsWordBeforeSpaced(ws[0], Join(ws[1..]), ws[1..]);
    assert ws == [ws[0]] + ws[1..];
  }

  /** A word and a blank in front of a spaced text add that word in front of its fields. */
  lemma FieldsWordBeforeSpaced(w: string, t: string, tail: seq<string>)
    requires NoSpace(w) && t != [] && !IsSpace(t[0])
    requires Fields(t + " ") == tail + [""]
    ensures Fields(w + " " + (t + " ")) == [w] + (tail + [""])
  {
    var rest := t + " ";
    assert rest[0] == t[0];
    FieldsWordGap(w, " ", rest);
  }

  /** Round trip for a line of words each followed by one space: the trailing space adds no token. */
  lemma TokenizeJoinSpace(ws: seq<string>)
    requires ws != []
    requires forall i :: 0 <= i < |ws| ==> IsWord(ws[i])
    ensures Tokenize(Join(ws) + " ") == ws
  {
    FieldsJoinSpace(ws);
    var fs := ws + [""];
    assert fs[..|fs| - 1] == ws;
    assert DropTrailingEmpty(ws) == ws;
  }

  /** The data lines are exactly the lines that are not header lines, in order. */
  lemma {:induction false} DataLinesMembers(lines: seq<string>)
    ensures |DataLines(lines)| <= |lines|
    ensures forall l :: l in DataLines(lines) <==> l in lines && !IsHeaderLine(l)
  {
    if lines != [] {
      var init := lines[..|lines| - 1];
      DataLinesMembers(init);
      assert lines == init + [lines[|lines| - 1]];
    }
  }

  /** Dropping header lines distributes over concatenation of files. */
  lemma {:induction false} DataLinesAppend(a: seq<string>, b: seq<string>)
    ensures DataLines(a + b) == DataLines(a) + DataLines(b)
    decreases |b|
  {
    if b == [] {
      assert a + b == a;
    } else {
      var ab := a + b;
      assert ab[..|ab| - 1] == a + b[..|b| - 1];
      assert ab[|ab| - 1] == b[|b| - 1];
      DataLinesAppend(a, b[..|b| - 1]);
      assert DataLines(ab) == DataLines(a + b[..|b| - 1]) + DataLines([b[|b| - 1]]);
    }
  }

  /** Reading one more line of a file: it is dropped when it is a header line and kept otherwise. */
  lemma DataLinesStep(lines: seq<string>, i: nat)
    requires i < |lines|
    ensures DataLines(lines[i..]) == (if IsHeaderLine(lines[i]) then [] else [lines[i]]) + DataLines(lines[i + 1..])
  {
    assert lines[i..] == [lines[i]] + lines[i + 1..];
    DataLinesAppend([lines[i]], lines[i + 1..]);
    assert [lines[i]][..0] == [];
  }
}
