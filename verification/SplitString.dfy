/** library/MiscUtils.cpp: split_string. */
module SplitString {

  predicate OccursAt(s: string, sep: string, i: int) {
    0 <= i <= |s| - |sep| && s[i..i + |sep|] == sep
  }

  ghost predicate Contains(s: string, sep: string) {
    exists i :: OccursAt(s, sep, i)
  }

  const NPOS := -1

  /** std::string::find: the first occurrence at or after start. */
  function Find(s: string, sep: string, start: nat): (pos: int)
    requires start <= |s|
    ensures pos == NPOS ==> forall i :: start <= i ==> !OccursAt(s, sep, i)
    ensures pos != NPOS ==> start <= pos && OccursAt(s, sep, pos) && forall i :: start <= i < pos ==> !OccursAt(s, sep, i)
    decreases |s| - start
  {
    if OccursAt(s, sep, start) then start
    else if start == |s| then NPOS
    else Find(s, sep, start + 1)
  }

  /** The pieces between the separators, empty ones included. */
  function Split(s: string, sep: string): (pieces: seq<string>)
    requires sep != ""
    ensures pieces != []
    decreases |s|
  {
    var pos := Find(s, sep, 0);
    if pos == NPOS then [s] else [s[..pos]] + Split(s[pos + |sep|..], sep)
  }

  function NonEmpty(pieces: seq<string>): seq<string> {
    if pieces == [] then [] else (if pieces[0] == "" then [] else [pieces[0]]) + NonEmpty(pieces[1..])
  }

  function Join(pieces: seq<string>, sep: string): string {
    if pieces == [] then "" else if |pieces| == 1 then pieces[0] else pieces[0] + sep + Join(pieces[1..], sep)
  }

  function Result(s: string, sep: string, squashEmpty: bool): seq<string> {
    var pieces := if sep == "" then [s] else Split(s, sep);
    if squashEmpty then NonEmpty(pieces) else pieces
  }

  lemma FindInRest(s: string, sep: string, start: nat)
    requires start <= |s|
    ensures Find(s, sep, start) == (if Find(s[start..], sep, 0) == NPOS then NPOS else start + Find(s[start..], sep, 0))
  {
    hide Find;
    var t := s[start..];
    forall i | start <= i ensures OccursAt(s, sep, i) <==> OccursAt(t, sep, i - start) {
      if i + |sep| <= |s| {
        assert s[i..i + |sep|] == t[i - start..i - start + |sep|];
      }
    }
    var p, q := Find(s, sep, start), Find(t, sep, 0);
    assert p != NPOS ==> OccursAt(t, sep, p - start);
    assert q != NPOS ==> OccursAt(t, sep, start + q - start) && OccursAt(s, sep, start + q);
  }

  lemma SplitStep(t: string, sep: string, pos: nat)
    requires sep != "" && pos == Find(t, sep, 0)
    ensures Split(t, sep) == [t[..pos]] + Split(t[pos + |sep|..], sep)
  {
    hide Find;
  }

  lemma NonEmptyStep(p: string, rest: seq<string>)
    ensures NonEmpty([p] + rest) == (if p == "" then [] else [p]) + NonEmpty(rest)
  {
  }

  lemma ResultStep(t: string, sep: string, squashEmpty: bool, pos: nat)
    requires sep != "" && pos == Find(t, sep, 0)
    ensures Result(t, sep, squashEmpty)
            == (if pos > 0 || !squashEmpty then [t[..pos]] else []) + Result(t[pos + |sep|..], sep, squashEmpty)
  {
    hide Find, Split, NonEmpty, OccursAt;
    FoundInside(t, sep, pos);
    SplitStep(t, sep, pos);
    NonEmptyStep(t[..pos], Split(t[pos + |sep|..], sep));
  }

  lemma ResultEnd(t: string, sep: string, squashEmpty: bool)
    requires sep == "" || Find(t, sep, 0) == NPOS
    ensures Result(t, sep, squashEmpty) == if t != "" || !squashEmpty then [t] else []
  {
    hide Find;
    var pieces := [t];
    assert pieces[1..] == [] && NonEmpty(pieces) == (if t == "" then [] else [t]) + NonEmpty(pieces[1..]);
    assert sep != "" ==> Split(t, sep) == pieces;
  }

  method SplitInto(str: string, separator: string, squashEmpty: bool) returns (several: bool, out: seq<string>)
    ensures out == Result(str, separator, squashEmpty)
    ensures several == (|out| > 1)
  {
    hide Result, Find, OccursAt;
    out := [];
    var start := 0;
    assert str[0..] == str;
    if separator != "" {
      var pos := Find(str, separator, start);
      FindInRest(str, separator, start);
      while pos != NPOS
        invariant 0 <= start <= |str| && pos == Find(str, separator, start)
        invariant out + Result(str[start..], separator, squashEmpty) == Result(str, separator, squashEmpty)
        decreases |str| - start
      {
        FindInRest(str, separator, start);
        ResultStep(str[start..], separator, squashEmpty, pos - start);
        FoundInside(str, separator, pos);
        assert str[start..][..pos - start] == str[start..pos];
        assert str[start..][pos - start + |separator|..] == str[pos + |separator|..];
        if pos > start || !squashEmpty {
          out := out + [str[start..pos]];
        }
        start := pos + |separator|;
        pos := Find(str, separator, start);
      }
      FindInRest(str, separator, start);
    }
    ResultEnd(str[start..], separator, squashEmpty);
    if start < |str| || !squashEmpty {
      out := out + [str[start..]];
    }
    several := |out| > 1;
  }

  lemma FoundInside(s: string, sep: string, pos: int)
    requires OccursAt(s, sep, pos)
    ensures 0 <= pos && pos + |sep| <= |s|
  {
  }

  // ---- joining undoes splitting ----

  lemma {:induction false} JoinUndoesSplit(s: string, sep: string)
    requires sep != ""
    ensures Join(Split(s, sep), sep) == s
    decreases |s|
  {
    hide Find;
    var pos := Find(s, sep, 0);
    if pos != NPOS {
      var rest := Split(s[pos + |sep|..], sep);
      JoinUndoesSplit(s[pos + |sep|..], sep);
      assert ([s[..pos]] + rest)[1..] == rest;
      assert s == s[..pos] + s[pos..pos + |sep|] + s[pos + |sep|..];
    }
  }

  /** No occurrence fits in the text before the first one. */
  lemma BeforeFirst(s: string, sep: string)
    requires sep != "" && Find(s, sep, 0) != NPOS
    ensures !Contains(s[..Find(s, sep, 0)], sep)
  {
    hide Find;
    var pos := Find(s, sep, 0);
    forall i ensures !OccursAt(s[..pos], sep, i) {
      OccursInPrefix(s, sep, pos, i);
    }
  }

  lemma OccursInPrefix(s: string, sep: string, n: nat, i: int)
    requires sep != "" && n <= |s|
    ensures OccursAt(s[..n], sep, i) ==> i < n && OccursAt(s, sep, i)
  {
  }

  lemma {:induction false} PiecesAreFree(s: string, sep: string)
    requires sep != ""
    ensures forall p | p in Split(s, sep) :: !Contains(p, sep)
    decreases |s|
  {
    hide Find, OccursAt;
    var pos := Find(s, sep, 0);
    if pos != NPOS {
      FoundInside(s, sep, pos);
      BeforeFirst(s, sep);
      PiecesAreFree(s[pos + |sep|..], sep);
    } else {
      forall i ensures !OccursAt(s, sep, i) {
        if i < 0 {
          NotNegative(s, sep, i);
        }
      }
    }
  }

  lemma NotNegative(s: string, sep: string, i: int)
    requires i < 0
    ensures !OccursAt(s, sep, i)
  {
  }

  // ---- when splitting undoes joining ----

  /** In p followed by the separator, the separator is first found right after p. */
  predicate Clean(p: string, sep: string) {
    Find(p + sep, sep, 0) == |p|
  }

  /** The same whatever follows: an earlier occurrence would lie within p and the separator. */
  lemma FindAfter(p: string, sep: string, rest: string)
    requires sep != ""
    ensures Find(p + sep + rest, sep, 0) != NPOS && Find(p + sep + rest, sep, 0) <= |p|
    ensures Find(p + sep + rest, sep, 0) == |p| <==> Clean(p, sep)
  {
    hide Find;
    var s, t := p + sep + rest, p + sep;
    forall i | 0 <= i <= |p| ensures OccursAt(s, sep, i) <==> OccursAt(t, sep, i) {
      assert s[i..i + |sep|] == t[i..i + |sep|];
    }
    assert OccursAt(t, sep, |p|) && OccursAt(s, sep, |p|);
  }

  /** Splitting a join gives the pieces back if and only if the last is free of the separator and no other,
      with the separator after it, holds an earlier one. */
  lemma {:induction false} SplitUndoesJoinIff(ps: seq<string>, sep: string)
    requires sep != "" && ps != []
    ensures Split(Join(ps, sep), sep) == ps <==>
            ((forall i :: 0 <= i < |ps| - 1 ==> Clean(ps[i], sep)) && !Contains(ps[|ps| - 1], sep))
  {
    hide Find, OccursAt, Clean;
    if |ps| == 1 {
      SplitOfOne(ps[0], sep);
      assert ps == [ps[0]];
    } else {
      var tail := ps[1..];
      var rest := Join(tail, sep);
      SplitUndoesJoinIff(tail, sep);
      FindAfter(ps[0], sep, rest);
      SplitOfMore(ps[0], sep, rest);
      assert ps == [ps[0]] + tail && ps[|ps| - 1] == tail[|tail| - 1];
      assert forall i :: 0 < i < |ps| - 1 ==> ps[i] == tail[i - 1];
      assert forall i :: 0 <= i < |tail| - 1 ==> tail[i] == ps[i + 1];
    }
  }

  lemma SplitOfOne(p: string, sep: string)
    requires sep != ""
    ensures Split(p, sep) == [p] <==> !Contains(p, sep)
  {
  }

  lemma SplitOfMore(p: string, sep: string, rest: string)
    requires sep != ""
    ensures Clean(p, sep) ==> Split(p + sep + rest, sep) == [p] + Split(rest, sep)
    ensures !Clean(p, sep) ==> Split(p + sep + rest, sep)[0] != p
  {
    hide Find, Clean;
    FindAfter(p, sep, rest);
    var s := p + sep + rest;
    var pos := Find(s, sep, 0);
    assert pos == |p| ==> s[..pos] == p && s[pos + |sep|..] == rest;
  }

  /** For a separator of one character that is no more than being free of it. */
  lemma SplitUndoesJoin(ps: seq<string>, c: char)
    requires ps != [] && forall p | p in ps :: c !in p
    ensures Split(Join(ps, [c]), [c]) == ps
  {
    hide Split, Join;
    forall p | p in ps ensures Clean(p, [c]) && !Contains(p, [c]) {
      OneCharClean(p, c);
    }
    SplitUndoesJoinIff(ps, [c]);
  }

  lemma OneCharClean(p: string, c: char)
    requires c !in p
    ensures Clean(p, [c]) && !Contains(p, [c])
  {
    hide Find;
    var t := p + [c];
    forall i ensures !OccursAt(p, [c], i) && (i < |p| ==> !OccursAt(t, [c], i)) {
      if 0 <= i < |p| {
        assert p[i..i + 1] == [p[i]] && t[i..i + 1] == [p[i]] && p[i] in p;
      }
    }
    assert t[|p|..|p| + 1] == [c] && OccursAt(t, [c], |p|);
  }

  /** Pieces free of a longer separator need not come back. */
  lemma LongSeparatorCounterexample()
    ensures !Contains("a", "aa") && !Contains("b", "aa") && Split(Join(["a", "b"], "aa"), "aa") != ["a", "b"]
  {
  }
}
