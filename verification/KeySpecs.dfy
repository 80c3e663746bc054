/** library/Core.cpp: parseKeySpec, which reads a key such as Ctrl-Shift-F3. */
module KeySpecs {

  datatype Modifier = Shift | Ctrl | Alt {
    function Name(): string {
      match this case Shift => "Shift-" case Ctrl => "Ctrl-" case Alt => "Alt-"
    }
    function Bit(): bv32 {
      match this case Shift => 1 case Ctrl => 2 case Alt => 4
    }
  }

  /** What the parser reports: false, or true with the SDL key symbol and the modifier bits. */
  datatype KeySpec = Invalid | Key(sym: int, modifiers: bv32)

  const K_A := 97
  const K_F1 := 282

  predicate IsLetter(key: string) {
    |key| == 1 && 'A' <= key[0] <= 'Z'
  }

  predicate IsFunctionKey(key: string) {
    |key| == 2 && key[0] == 'F' && '1' <= key[1] <= '9'
  }

  function KeyOf(key: string, modifiers: bv32): KeySpec {
    if IsLetter(key) then Key(K_A + (key[0] as int - 'A' as int), modifiers)
    else if IsFunctionKey(key) then Key(K_F1 + (key[1] as int - '1' as int), modifiers)
    else Invalid
  }

  /** m's prefix is there, with something after it. */
  predicate Starts(spec: string, m: Modifier) {
    |spec| > |m.Name()| && spec[..|m.Name()|] == m.Name()
  }

  function Or(a: bv32, b: bv32): bv32 {
    a | b
  }

  function Parse(spec: string, modifiers: bv32): KeySpec
    decreases |spec|
  {
    if Starts(spec, Shift) then Parse(spec[6..], Or(modifiers, 1))
    else if Starts(spec, Ctrl) then Parse(spec[5..], Or(modifiers, 2))
    else if Starts(spec, Alt) then Parse(spec[4..], Or(modifiers, 4))
    else KeyOf(spec, modifiers)
  }

  lemma ParseTurn(spec: string, mod: bv32)
    ensures Starts(spec, Shift) ==> Parse(spec, mod) == Parse(spec[6..], Or(mod, 1))
    ensures !Starts(spec, Shift) && Starts(spec, Ctrl) ==> Parse(spec, mod) == Parse(spec[5..], Or(mod, 2))
    ensures (!Starts(spec, Shift) && !Starts(spec, Ctrl) && Starts(spec, Alt)
             ==> Parse(spec, mod) == Parse(spec[4..], Or(mod, 4)))
    ensures !(Starts(spec, Shift) || Starts(spec, Ctrl) || Starts(spec, Alt)) ==> Parse(spec, mod) == KeyOf(spec, mod)
  {
    hide KeyOf, Or;
  }

  method ParseKeySpec(keyspec: string) returns (r: KeySpec)
    ensures r == Parse(keyspec, 0)
  {
    hide Parse, Or;
    var spec, mod: bv32 := keyspec, 0;
    while true
      invariant Parse(spec, mod) == Parse(keyspec, 0)
      decreases |spec|
    {
      ParseTurn(spec, mod);
      if Starts(spec, Shift) {
        mod, spec := Or(mod, 1), spec[6..];
      } else if Starts(spec, Ctrl) {
        mod, spec := Or(mod, 2), spec[5..];
      } else if Starts(spec, Alt) {
        mod, spec := Or(mod, 4), spec[4..];
      } else {
        break;
      }
    }
    ParseTurn(spec, mod);
    if |spec| == 1 && 'A' <= spec[0] <= 'Z' {
      return Key(K_A + (spec[0] as int - 'A' as int), mod);
    } else if |spec| == 2 && spec[0] == 'F' && '1' <= spec[1] <= '9' {
      return Key(K_F1 + (spec[1] as int - '1' as int), mod);
    } else {
      return Invalid;
    }
  }

  // ---- which specifications are keys, and which of them are the same key ----

  predicate IsKey(key: string) {
    IsLetter(key) || IsFunctionKey(key)
  }

  function Written(prefixes: seq<Modifier>, key: string): string {
    if prefixes == [] then key else prefixes[0].Name() + Written(prefixes[1..], key)
  }

  function Union(prefixes: seq<Modifier>): bv32 {
    if prefixes == [] then 0 else Or(prefixes[0].Bit(), Union(prefixes[1..]))
  }

  lemma KeyHasNoPrefix(key: string, modifiers: bv32)
    requires IsKey(key)
    ensures key != "" && Parse(key, modifiers) == KeyOf(key, modifiers) && KeyOf(key, modifiers).Key?
  {
  }

  lemma OnlyPrefix(m: Modifier, rest: string)
    requires rest != ""
    ensures forall o: Modifier :: Starts(m.Name() + rest, o) <==> o == m
    ensures (m.Name() + rest)[|m.Name()|..] == rest
  {
    var s := m.Name() + rest;
    assert s[..|m.Name()|] == m.Name();
    assert s[0] == m.Name()[0];
    forall o: Modifier | o != m ensures !Starts(s, o) {
      assert o.Name()[0] != s[0];
    }
  }

  lemma ParseStep(m: Modifier, rest: string, modifiers: bv32)
    requires rest != ""
    ensures Parse(m.Name() + rest, modifiers) == Parse(rest, Or(modifiers, m.Bit()))
  {
    OnlyPrefix(m, rest);
    ParseUnfold(m.Name() + rest, m, modifiers);
  }

  /** One turn of the loop. */
  lemma ParseUnfold(s: string, m: Modifier, modifiers: bv32)
    requires forall o: Modifier :: Starts(s, o) <==> o == m
    ensures Starts(s, m) && Parse(s, modifiers) == Parse(s[|m.Name()|..], Or(modifiers, m.Bit()))
  {
    hide Starts, KeyOf;
  }

  lemma OrIsAssociative(a: bv32, b: bv32, c: bv32)
    ensures Or(Or(a, b), c) == Or(a, Or(b, c)) && Or(a, 0) == a && Or(0, a) == a
  {
  }

  lemma {:induction false} ParseWritten(prefixes: seq<Modifier>, key: string, modifiers: bv32)
    requires IsKey(key)
    ensures Written(prefixes, key) != ""
    ensures Parse(Written(prefixes, key), modifiers) == KeyOf(key, Or(modifiers, Union(prefixes)))
  {
    hide Parse, KeyOf, IsLetter, IsFunctionKey, Or;
    if prefixes == [] {
      KeyHasNoPrefix(key, modifiers);
      OrIsAssociative(modifiers, 0, 0);
    } else {
      var m, tail := prefixes[0], prefixes[1..];
      ParseWritten(tail, key, Or(modifiers, m.Bit()));
      ParseStep(m, Written(tail, key), modifiers);
      OrIsAssociative(modifiers, m.Bit(), Union(tail));
    }
  }

  /** Every accepted specification is a list of prefixes followed by a key. */
  lemma {:induction false} AcceptedIsWritten(spec: string, modifiers: bv32)
      returns (prefixes: seq<Modifier>, key: string)
    requires Parse(spec, modifiers).Key?
    ensures IsKey(key) && spec == Written(prefixes, key)
    decreases |spec|
  {
    if m: Modifier :| Starts(spec, m) {
      var n := |m.Name()|;
      assert spec == m.Name() + spec[n..] && spec[n..] != "";
      ParseStep(m, spec[n..], modifiers);
      prefixes, key := AcceptedIsWritten(spec[n..], Or(modifiers, m.Bit()));
      prefixes := [m] + prefixes;
    } else {
      prefixes, key := [], spec;
    }
  }

  function Flags(shift: bool, ctrl: bool, alt: bool): bv32 {
    if shift then (if ctrl then (if alt then 7 else 3) else if alt then 5 else 1)
    else if ctrl then (if alt then 6 else 2) else if alt then 4 else 0
  }

  lemma OrFlags(m: Modifier, shift: bool, ctrl: bool, alt: bool)
    ensures Or(m.Bit(), Flags(shift, ctrl, alt)) == Flags(shift || m == Shift, ctrl || m == Ctrl, alt || m == Alt)
  {
    match m case Shift => case Ctrl => case Alt =>
  }

  /** The modifier bits say exactly which prefixes occur. */
  lemma {:induction false} UnionIsMembership(prefixes: seq<Modifier>)
    ensures Union(prefixes) == Flags(Shift in prefixes, Ctrl in prefixes, Alt in prefixes)
  {
    hide Flags, Or;
    if prefixes == [] {
      assert Flags(false, false, false) == 0 by { NoFlags(); }
    } else {
      var m, tail := prefixes[0], prefixes[1..];
      UnionIsMembership(tail);
      OrFlags(m, Shift in tail, Ctrl in tail, Alt in tail);
      assert forall o :: o in prefixes <==> o == m || o in tail;
    }
  }

  lemma NoFlags()
    ensures Flags(false, false, false) == 0
  {
  }

  /** Two ways of writing a key mean the same if and only if they name the same key with the same set of
      modifiers, in whatever order and however often repeated. */
  lemma SameKeyIff(ps: seq<Modifier>, k: string, qs: seq<Modifier>, l: string)
    requires IsKey(k) && IsKey(l)
    ensures Parse(Written(ps, k), 0) == Parse(Written(qs, l), 0) <==>
            (k == l && forall m: Modifier :: m in ps <==> m in qs)
  {
    hide Parse, KeyOf, IsLetter, IsFunctionKey, Written, Union, Or;
    ParseWritten(ps, k, 0);
    ParseWritten(qs, l, 0);
    OrIsAssociative(Union(ps), 0, 0);
    OrIsAssociative(Union(qs), 0, 0);
    SameUnionIff(ps, qs);
    SameSymbolIff(k, Union(ps), l, Union(qs));
  }

  lemma SameSymbolIff(k: string, a: bv32, l: string, b: bv32)
    requires IsKey(k) && IsKey(l)
    ensures KeyOf(k, a) == KeyOf(l, b) <==> k == l && a == b
  {
  }

  lemma SameUnionIff(ps: seq<Modifier>, qs: seq<Modifier>)
    ensures Union(ps) == Union(qs) <==> forall m: Modifier :: m in ps <==> m in qs
  {
    hide Union, Flags;
    UnionIsMembership(ps);
    UnionIsMembership(qs);
    FlagsDiffer(Shift in ps, Ctrl in ps, Alt in ps, Shift in qs, Ctrl in qs, Alt in qs);
    if Union(ps) == Union(qs) {
      forall m: Modifier ensures m in ps <==> m in qs {
        match m case Shift => case Ctrl => case Alt =>
      }
    }
  }

  lemma FlagsDiffer(a: bool, b: bool, c: bool, x: bool, y: bool, z: bool)
    ensures Flags(a, b, c) == Flags(x, y, z) <==> a == x && b == y && c == z
  {
  }

  /** A specification is accepted if and only if it is a list of prefixes and a key. */
  lemma AcceptedIff(spec: string)
    ensures Parse(spec, 0).Key? <==>
            exists prefixes, key :: IsKey(key) && spec == Written(prefixes, key)
  {
    hide Parse, KeyOf, IsKey, Written, Or;
    if Parse(spec, 0).Key? {
      var prefixes, key := AcceptedIsWritten(spec, 0);
    }
    forall prefixes, key | IsKey(key) && spec == Written(prefixes, key) ensures Parse(spec, 0).Key? {
      ParseWritten(prefixes, key, 0);
      KeyHasNoPrefix(key, Or(0, Union(prefixes)));
    }
  }

  // ---- the symbols themselves ----

  /** A to Z are the key symbols from 97, F1 to F9 those from 282. */
  lemma SymbolsAre(key: char, modifiers: bv32)
    ensures Parse([key], modifiers) == if 65 <= key as int <= 90 then Key(97 + (key as int - 65), modifiers) else Invalid
    ensures Parse(['F', key], modifiers) == if 49 <= key as int <= 57 then Key(282 + (key as int - 49), modifiers) else Invalid
  {
  }

  /** Nothing else that is not a prefix with something after it is a key. */
  lemma NoOtherKey(spec: string, modifiers: bv32)
    requires |spec| != 1 && !(|spec| == 2 && spec[0] == 'F') && forall m: Modifier :: !Starts(spec, m)
    ensures Parse(spec, modifiers).Invalid?
  {
  }

  lemma PrefixesAre(rest: string, modifiers: bv32)
    requires rest != ""
    ensures Parse("Shift-" + rest, modifiers) == Parse(rest, Or(modifiers, 1))
    ensures Parse("Ctrl-" + rest, modifiers) == Parse(rest, Or(modifiers, 2))
    ensures Parse("Alt-" + rest, modifiers) == Parse(rest, Or(modifiers, 4))
  {
    hide Parse, Or;
    ParseStep(Shift, rest, modifiers);
    ParseStep(Ctrl, rest, modifiers);
    ParseStep(Alt, rest, modifiers);
  }
}
