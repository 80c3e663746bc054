/** library/Core.cpp: cheap_tokenise, which splits a command line into words. */
module Tokeniser {

  predicate IsSpace(c: char) {
    c == ' ' || c == '\t' || c == '\n' || c == '\U{0B}' || c == '\U{0C}' || c == '\r'
  }

  /** out with c added to its last word. */
  function Push(out: seq<string>, c: char): (pushed: seq<string>)
    requires out != []
    ensures pushed != []
  {
    out[..|out| - 1] + [out[|out| - 1] + [c]]
  }

  /** What the tokeniser makes of the rest s of the input, after the words out; open says that the last of
      them may still grow (cur is set). */
  function Scan(s: string, out: seq<string>, open: bool): seq<string>
    requires open ==> out != []
    decreases |s|
  {
    if s == "" then out
    else if IsSpace(s[0]) then Scan(s[1..], out, false)
    else
      var out := if open then out else out + [""];
      if s[0] == '"' then ScanQuoted(s[1..], out) else Scan(s[1..], Push(out, s[0]), true)
  }

  /** The same inside double quotes. A lone backslash at the end is dropped, and so is a missing quote. */
  function ScanQuoted(s: string, out: seq<string>): seq<string>
    requires out != []
    decreases |s|
  {
    if s == "" then out
    else if s[0] == '"' then Scan(s[1..], out, true)
    else if s[0] == '\\' then (if |s| == 1 then out else ScanQuoted(s[2..], Push(out, s[1])))
    else ScanQuoted(s[1..], Push(out, s[0]))
  }

  lemma PushLast(out: seq<string>, p: string, c: char)
    ensures Push(out + [p], c) == out + [p + [c]]
  {
  }

  function Rest(s: string, i: nat): string {
    if i <= |s| then s[i..] else ""
  }

  lemma RestIsSuffix(s: string, i: nat)
    requires i <= |s|
    ensures Rest(s, i) == s[i..]
  {
  }

  lemma QuotedCloses(s: string, i: nat, out: seq<string>)
    requires i < |s| && s[i] == '"' && out != []
    ensures ScanQuoted(Rest(s, i), out) == Scan(Rest(s, i + 1), out, true)
  {
    hide Scan;
    assert Rest(s, i)[1..] == Rest(s, i + 1);
  }

  lemma QuotedEscape(s: string, i: nat, out: seq<string>)
    requires i < |s| && s[i] == '\\' && out != []
    ensures ScanQuoted(Rest(s, i), out)
            == if i + 1 < |s| then ScanQuoted(Rest(s, i + 2), Push(out, s[i + 1])) else ScanQuoted(Rest(s, i + 2), out)
  {
    hide Scan, Push;
    if i + 1 < |s| {
      assert Rest(s, i)[1] == s[i + 1] && Rest(s, i)[2..] == Rest(s, i + 2);
    }
  }

  lemma QuotedPlain(s: string, i: nat, out: seq<string>)
    requires i < |s| && s[i] != '"' && s[i] != '\\' && out != []
    ensures ScanQuoted(Rest(s, i), out) == ScanQuoted(Rest(s, i + 1), Push(out, s[i]))
  {
    hide Scan, Push;
    assert Rest(s, i)[1..] == Rest(s, i + 1);
  }

  /** Past the end there is nothing left to read, inside quotes or outside. */
  lemma PastTheEnd(s: string, i: nat, out: seq<string>)
    requires |s| <= i && out != []
    ensures ScanQuoted(Rest(s, i), out) == Scan(Rest(s, i + 1), out, true)
  {
  }

  /** The inner loop, from the character after the opening quote; i ends on the closing one. */
  method ReadQuoted(input: string, start: nat, before: seq<string>) returns (i: nat, output: seq<string>)
    requires start <= |input| && before != []
    ensures i >= start && output != []
    ensures Scan(Rest(input, i + 1), output, true) == ScanQuoted(input[start..], before)
  {
    hide Scan, ScanQuoted, Rest, Push;
    ghost var result := ScanQuoted(Rest(input, start), before);
    RestIsSuffix(input, start);
    i, output := start, before;
    while i < |input|
      invariant start <= i && output != []
      invariant ScanQuoted(Rest(input, i), output) == result
      decreases |input| - i
    {
      var c := input[i];
      if c == '"' {
        QuotedCloses(input, i, output);
        return;
      } else if c == '\\' {
        QuotedEscape(input, i, output);
        i := i + 1;
        if i < |input| {
          output := Push(output, input[i]);
        }
      } else {
        QuotedPlain(input, i, output);
        output := Push(output, c);
      }
      i := i + 1;
    }
    PastTheEnd(input, i, output);
  }

  lemma ScanSpace(s: string, i: nat, out: seq<string>, open: bool)
    requires i < |s| && IsSpace(s[i]) && (open ==> out != [])
    ensures Scan(Rest(s, i), out, open) == Scan(Rest(s, i + 1), out, false)
  {
    hide ScanQuoted, IsSpace;
    assert Rest(s, i)[1..] == Rest(s, i + 1);
  }

  /** Any other character opens a word if none is open, and then starts a quote or is added to the word. */
  lemma ScanWordCharacter(s: string, i: nat, out: seq<string>, open: bool)
    requires i < |s| && !IsSpace(s[i]) && (open ==> out != [])
    ensures var out' := if open then out else out + [""];
      Scan(Rest(s, i), out, open)
      == if s[i] == '"' then ScanQuoted(Rest(s, i + 1), out') else Scan(Rest(s, i + 1), Push(out', s[i]), true)
  {
    hide ScanQuoted, IsSpace, Push;
    assert Rest(s, i)[1..] == Rest(s, i + 1);
  }

  lemma ScanNothing(s: string, i: nat, out: seq<string>, open: bool)
    requires |s| <= i && (open ==> out != [])
    ensures Scan(Rest(s, i), out, open) == out
  {
  }

  // ---- tokenising undoes quoting ----

  /** A word written bare, or in quotes with quotes and backslashes escaped. */
  datatype Word = Bare(text: string) | Quoted(text: string) {
    predicate Writable() {
      Bare? ==> text != "" && forall c | c in text :: !IsSpace(c) && c != '"'
    }
  }

  function Escape(t: string): string {
    if t == "" then ""
    else (if t[0] == '"' || t[0] == '\\' then ['\\', t[0]] else [t[0]]) + Escape(t[1..])
  }

  function Write(w: Word): string {
    if w.Bare? then w.text else "\"" + Escape(w.text) + "\""
  }

  /** The line with its gaps: one before each word and one at the end. */
  function Line(gaps: seq<string>, ws: seq<Word>): string
    requires |gaps| == |ws| + 1
  {
    if ws == [] then gaps[0] else gaps[0] + Write(ws[0]) + Line(gaps[1..], ws[1..])
  }

  predicate Gaps(gaps: seq<string>, ws: seq<Word>) {
    && |gaps| == |ws| + 1
    && (forall i | 0 <= i < |gaps| :: forall c | c in gaps[i] :: IsSpace(c))
    && (forall i | 0 < i < |ws| :: gaps[i] != "")
  }

  function Texts(ws: seq<Word>): seq<string> {
    if ws == [] then [] else [ws[0].text] + Texts(ws[1..])
  }

  lemma {:induction false} ScanGap(gap: string, rest: string, out: seq<string>, open: bool)
    requires forall c | c in gap :: IsSpace(c)
    requires open ==> out != [] && gap != ""
    ensures Scan(gap + rest, out, open) == Scan(rest, out, false)
  {
    if gap == "" {
      assert gap + rest == rest;
    } else {
      assert (gap + rest)[1..] == gap[1..] + rest;
      assert gap[0] in gap;
      ScanGap(gap[1..], rest, out, false);
    }
  }

  lemma {:induction false} ScanBare(t: string, rest: string, out: seq<string>, p: string)
    requires forall c | c in t :: !IsSpace(c) && c != '"'
    ensures Scan(t + rest, out + [p], true) == Scan(rest, out + [p + t], true)
  {
    if t == "" {
      assert t + rest == rest && p + t == p;
    } else {
      assert (t + rest)[1..] == t[1..] + rest;
      assert t[0] in t;
      PushLast(out, p, t[0]);
      ScanBare(t[1..], rest, out, p + [t[0]]);
      assert p + [t[0]] + t[1..] == p + t;
    }
  }

  /** One character of the quoted form is read back, escaped or not. */
  lemma ScanEscapedStep(t: string, rest: string, out: seq<string>, p: string)
    requires t != ""
    ensures ScanQuoted(Escape(t) + "\"" + rest, out + [p])
            == ScanQuoted(Escape(t[1..]) + "\"" + rest, out + [p + [t[0]]])
  {
    hide Scan, Push;
    var s := Escape(t) + "\"" + rest;
    var tail := Escape(t[1..]) + "\"" + rest;
    PushLast(out, p, t[0]);
    if t[0] == '"' || t[0] == '\\' {
      assert s == ['\\', t[0]] + tail;
      assert s[0] == '\\' && s[1] == t[0] && s[2..] == tail;
    } else {
      assert s == [t[0]] + tail;
      assert s[0] == t[0] && s[1..] == tail;
    }
  }

  lemma {:induction false} ScanEscaped(t: string, rest: string, out: seq<string>, p: string)
    ensures ScanQuoted(Escape(t) + "\"" + rest, out + [p]) == Scan(rest, out + [p + t], true)
  {
    if t == "" {
      assert Escape(t) + "\"" + rest == "\"" + rest && p + t == p;
    } else {
      hide Scan, ScanQuoted, Escape;
      ScanEscapedStep(t, rest, out, p);
      ScanEscaped(t[1..], rest, out, p + [t[0]]);
      assert p + [t[0]] + t[1..] == p + t;
    }
  }

  lemma ScanBareWord(t: string, rest: string, out: seq<string>)
    requires t != "" && forall c | c in t :: !IsSpace(c) && c != '"'
    ensures Scan(t + rest, out, false) == Scan(rest, out + [t], true)
  {
    hide ScanQuoted, IsSpace, Push;
    var s := t + rest;
    assert s[0] == t[0] && s[1..] == t[1..] + rest && t[0] in t;
    PushLast(out, "", t[0]);
    assert "" + [t[0]] == [t[0]] && [t[0]] + t[1..] == t;
    ScanBare(t[1..], rest, out, [t[0]]);
  }

  lemma ScanQuotedWord(t: string, rest: string, out: seq<string>)
    ensures Scan("\"" + Escape(t) + "\"" + rest, out, false) == Scan(rest, out + [t], true)
  {
    hide ScanQuoted, Push, Escape;
    var s := "\"" + Escape(t) + "\"" + rest;
    assert s[0] == '"' && s[1..] == Escape(t) + "\"" + rest;
    ScanEscaped(t, rest, out, "");
    assert "" + t == t;
  }

  lemma ScanWord(w: Word, rest: string, out: seq<string>)
    requires w.Writable()
    ensures Scan(Write(w) + rest, out, false) == Scan(rest, out + [w.text], true)
  {
    hide Scan, Escape;
    if w.Bare? {
      ScanBareWord(w.text, rest, out);
    } else {
      ScanQuotedWord(w.text, rest, out);
    }
  }

  lemma ScanTrailing(gap: string, out: seq<string>, open: bool)
    requires (forall c | c in gap :: IsSpace(c)) && (open ==> out != [])
    ensures Scan(gap, out, open) == out
  {
  }

  lemma GapsTail(gaps: seq<string>, ws: seq<Word>)
    requires Gaps(gaps, ws) && ws != []
    ensures Gaps(gaps[1..], ws[1..]) && (|ws| > 1 ==> gaps[1..][0] != "")
    ensures forall c | c in gaps[0] :: IsSpace(c)
  {
  }

  lemma LineCons(gaps: seq<string>, ws: seq<Word>)
    requires Gaps(gaps, ws) && ws != []
    ensures Line(gaps, ws) == gaps[0] + (Write(ws[0]) + Line(gaps[1..], ws[1..]))
  {
  }

  /** Every list of strings, empty ones included, comes back from any line that writes them this way. */
  lemma {:induction false} TokenisingUndoesQuoting(gaps: seq<string>, ws: seq<Word>, out: seq<string>, open: bool)
    requires Gaps(gaps, ws) && forall w | w in ws :: w.Writable()
    requires open ==> out != [] && (ws != [] ==> gaps[0] != "")
    ensures Scan(Line(gaps, ws), out, open) == out + Texts(ws)
  {
    hide Scan, Write;
    if ws == [] {
      ScanTrailing(gaps[0], out, open);
      assert out + Texts(ws) == out;
    } else {
      ScanFirstWord(gaps, ws, out, open);
      GapsTail(gaps, ws);
      TokenisingUndoesQuoting(gaps[1..], ws[1..], out + [ws[0].text], true);
      assert out + [ws[0].text] + Texts(ws[1..]) == out + Texts(ws);
    }
  }

  lemma ScanFirstWord(gaps: seq<string>, ws: seq<Word>, out: seq<string>, open: bool)
    requires Gaps(gaps, ws) && ws != [] && ws[0].Writable()
    requires open ==> out != [] && gaps[0] != ""
    ensures Scan(Line(gaps, ws), out, open) == Scan(Line(gaps[1..], ws[1..]), out + [ws[0].text], true)
  {
    hide Scan, Line, Write;
    var rest := Line(gaps[1..], ws[1..]);
    LineCons(gaps, ws);
    ScanGap(gaps[0], Write(ws[0]) + rest, out, open);
    ScanWord(ws[0], rest, out);
  }

  /** The same for the method's own specification: the whole input, starting with no words. */
  lemma RoundTrip(gaps: seq<string>, ws: seq<Word>)
    requires Gaps(gaps, ws) && forall w | w in ws :: w.Writable()
    ensures Scan(Line(gaps, ws), [], false) == Texts(ws)
  {
    TokenisingUndoesQuoting(gaps, ws, [], false);
    assert [] + Texts(ws) == Texts(ws);
  }

  // ---- plain words ----

  /** Space, and the characters with the codes 9 to 13. */
  predicate Separates(c: char) {
    c as int == 32 || 9 <= c as int <= 13
  }

  predicate Plain(word: string) {
    word != "" && forall c | c in word :: !Separates(c) && c as int != 34
  }

  function Joined(words: seq<string>, gap: char): string {
    if words == [] then "" else if |words| == 1 then words[0] else words[0] + ([gap] + Joined(words[1..], gap))
  }

  lemma SpaceIs(c: char)
    ensures IsSpace(c) <==> Separates(c)
    ensures c == '"' <==> c as int == 34
  {
  }

  lemma PlainWord(word: string, rest: string, out: seq<string>)
    requires Plain(word)
    ensures Scan(word + rest, out, false) == Scan(rest, out + [word], true)
  {
    hide IsSpace, Separates, Scan;
    forall c | c in word ensures !IsSpace(c) && c != '"' {
      SpaceIs(c);
    }
    ScanBareWord(word, rest, out);
  }

  lemma OneGap(gap: char, rest: string, out: seq<string>)
    requires Separates(gap) && out != []
    ensures Scan([gap] + rest, out, true) == Scan(rest, out, false)
  {
    hide ScanQuoted, IsSpace;
    SpaceIs(gap);
    assert ([gap] + rest)[1..] == rest;
  }

  lemma {:induction false} PlainWordsAfter(words: seq<string>, gap: char, out: seq<string>)
    requires Separates(gap) && forall w | w in words :: Plain(w)
    ensures Scan(Joined(words, gap), out, false) == out + words
  {
    hide Separates, Plain;
    if words == [] {
    } else if |words| == 1 {
      assert words[0] + "" == words[0] && words == [words[0]];
      PlainWord(words[0], "", out);
    } else {
      PlainWord(words[0], [gap] + Joined(words[1..], gap), out);
      OneGap(gap, Joined(words[1..], gap), out + [words[0]]);
      PlainWordsAfter(words[1..], gap, out + [words[0]]);
      assert out + [words[0]] + words[1..] == out + words;
    }
  }

  /** Words without quotes and separators, joined by one, come back. */
  lemma PlainWords(words: seq<string>, gap: char)
    requires Separates(gap) && forall w | w in words :: Plain(w)
    ensures Scan(Joined(words, gap), [], false) == words
  {
    PlainWordsAfter(words, gap, []);
    assert [] + words == words;
  }

  // ---- the loop ----

  ghost predicate Writes(line: string, gaps: seq<string>, ws: seq<Word>) {
    Gaps(gaps, ws) && (forall w | w in ws :: w.Writable()) && line == Line(gaps, ws)
  }

  ghost predicate Joins(line: string, words: seq<string>, gap: char) {
    Separates(gap) && (forall w | w in words :: Plain(w)) && line == Joined(words, gap)
  }

  /** What is written as a line of words, quoted or plain, comes back. */
  method CheapTokenise(input: string) returns (output: seq<string>)
    ensures output == Scan(input, [], false)
    ensures forall gaps, ws | Writes(input, gaps, ws) :: output == Texts(ws)
    ensures forall words, gap | Joins(input, words, gap) :: output == words
  {
    hide Scan, ScanQuoted, Rest, Push, IsSpace, Gaps, Line, Texts, Separates, Plain, Joined, Word.Writable;
    RestIsSuffix(input, 0);
    assert input[0..] == input;
    output := [];
    var open := false;
    var i := 0;
    while i < |input|
      invariant open ==> output != []
      invariant Scan(Rest(input, i), output, open) == Scan(input, [], false)
      decreases |input| - i
    {
      var c := input[i];
      if IsSpace(c) {
        ScanSpace(input, i, output, open);
        open := false;
      } else {
        ScanWordCharacter(input, i, output, open);
        if !open {
          output := output + [""];
          open := true;
        }
        if c == '"' {
          RestIsSuffix(input, i + 1);
          i, output := ReadQuoted(input, i + 1, output);
        } else {
          output := Push(output, c);
        }
      }
      i := i + 1;
    }
    ScanNothing(input, i, output, open);
    forall gaps, ws | Writes(input, gaps, ws) ensures output == Texts(ws) {
      RoundTrip(gaps, ws);
    }
    forall words, gap | Joins(input, words, gap) ensures output == words {
      PlainWords(words, gap);
    }
  }
}
