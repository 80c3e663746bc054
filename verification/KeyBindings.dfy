/** library/Core.cpp: the key bindings, the keybinding command that edits them and the key press that uses them. */
module KeyBindings {
  import opened KeySpecs
  import Tokeniser

  datatype KeyBinding = KeyBinding(modifiers: bv32, command: seq<string>, cmdline: string)

  function Command(cmdline: string): seq<string> {
    Tokeniser.Scan(cmdline, [], false)
  }

  // ---- the bindings of one key symbol, oldest first ----

  /** The command lines bound with these modifiers, newest first: what `keybinding list` shows. */
  function Listing(bs: seq<KeyBinding>, mods: bv32): seq<string> {
    if bs == [] then [] else Listing(bs[1..], mods) + (if bs[0].modifiers == mods then [bs[0].cmdline] else [])
  }

  function Without(bs: seq<KeyBinding>, mods: bv32): seq<KeyBinding> {
    if bs == [] then [] else (if bs[0].modifiers == mods then [] else [bs[0]]) + Without(bs[1..], mods)
  }

  predicate Bound(bs: seq<KeyBinding>, mods: bv32, cmdline: string) {
    exists i :: 0 <= i < |bs| && bs[i].modifiers == mods && bs[i].cmdline == cmdline
  }

  /** No (modifiers, command line) pair twice. */
  predicate Distinct(bs: seq<KeyBinding>) {
    forall i, j :: 0 <= i < j < |bs| ==> bs[i].modifiers != bs[j].modifiers || bs[i].cmdline != bs[j].cmdline
  }

  /** Every stored command is its own line, tokenised, and has a first word. */
  predicate Tokenised(bs: seq<KeyBinding>) {
    forall b | b in bs :: b.command == Command(b.cmdline) && b.command != []
  }

  lemma {:induction false} ListingConcat(a: seq<KeyBinding>, b: seq<KeyBinding>, mods: bv32)
    ensures Listing(a + b, mods) == Listing(b, mods) + Listing(a, mods)
  {
    if a == [] {
      assert a + b == b;
    } else {
      assert (a + b)[1..] == a[1..] + b;
      ListingConcat(a[1..], b, mods);
    }
  }

  /** A binding pushed at the back is listed first, under its own modifiers only. */
  lemma ListingPush(bs: seq<KeyBinding>, b: KeyBinding, mods: bv32)
    ensures Listing(bs + [b], mods) == (if b.modifiers == mods then [b.cmdline] else []) + Listing(bs, mods)
  {
    ListingConcat(bs, [b], mods);
    assert Listing([b][1..], mods) == [];
  }

  lemma {:induction false} ListingWithout(bs: seq<KeyBinding>, gone: bv32, mods: bv32)
    ensures Listing(Without(bs, gone), mods) == if mods == gone then [] else Listing(bs, mods)
  {
    if bs != [] {
      ListingWithout(bs[1..], gone, mods);
      if bs[0].modifiers != gone {
        assert ([bs[0]] + Without(bs[1..], gone))[1..] == Without(bs[1..], gone);
      } else {
        assert [] + Without(bs[1..], gone) == Without(bs[1..], gone);
      }
    }
  }

  lemma {:induction false} ListedIffBound(bs: seq<KeyBinding>, mods: bv32, cmdline: string)
    ensures cmdline in Listing(bs, mods) <==> Bound(bs, mods, cmdline)
  {
    if bs != [] {
      ListedIffBound(bs[1..], mods, cmdline);
      assert forall i :: 0 < i < |bs| ==> bs[i] == bs[1..][i - 1];
      assert bs[0].modifiers == mods && bs[0].cmdline == cmdline ==> Bound(bs, mods, cmdline);
    }
  }

  lemma {:induction false} WithoutKeeps(bs: seq<KeyBinding>, mods: bv32)
    requires Distinct(bs) && Tokenised(bs)
    ensures Distinct(Without(bs, mods)) && Tokenised(Without(bs, mods))
    ensures forall b | b in Without(bs, mods) :: b in bs
  {
    if bs != [] {
      assert forall i :: 0 < i < |bs| ==> bs[i] == bs[1..][i - 1];
      WithoutKeeps(bs[1..], mods);
      var rest := Without(bs[1..], mods);
      forall b | b in rest ensures b.modifiers != bs[0].modifiers || b.cmdline != bs[0].cmdline {
        assert b in bs[1..];
      }
    }
  }

  lemma PushKeeps(bs: seq<KeyBinding>, b: KeyBinding)
    requires Distinct(bs) && Tokenised(bs) && !Bound(bs, b.modifiers, b.cmdline)
    requires b.command == Command(b.cmdline) && b.command != []
    ensures Distinct(bs + [b]) && Tokenised(bs + [b])
  {
    hide Command;
  }

  // ---- the order in which commands are bound ----

  function Front(c: string, list: seq<string>): seq<string> {
    if c in list then list else [c] + list
  }

  /** The listing after binding cs from last to first. */
  function AddAll(list: seq<string>, cs: seq<string>): seq<string> {
    if cs == [] then list else Front(cs[0], AddAll(list, cs[1..]))
  }

  /** The commands the loop gets to: it stops at the first one, from the end, that has no words. */
  function Kept(cs: seq<string>): (kept: seq<string>)
    ensures |kept| <= |cs|
  {
    if cs == [] then []
    else if Kept(cs[1..]) == cs[1..] && Command(cs[0]) != [] then cs
    else Kept(cs[1..])
  }

  /** The commands not bound yet, each at its last occurrence. */
  function Fresh(cs: seq<string>, list: seq<string>): seq<string> {
    if cs == [] then [] else (if cs[0] in list || cs[0] in cs[1..] then [] else [cs[0]]) + Fresh(cs[1..], list)
  }

  lemma {:induction false} FreshMembers(cs: seq<string>, list: seq<string>)
    ensures forall c :: c in Fresh(cs, list) <==> c in cs && c !in list
  {
    if cs != [] {
      FreshMembers(cs[1..], list);
      assert forall c :: c in cs <==> c == cs[0] || c in cs[1..];
    }
  }

  /** Adding c1..cn puts the new ones in front of the old listing, in order. */
  lemma {:induction false} AddedInFront(list: seq<string>, cs: seq<string>)
    ensures AddAll(list, cs) == Fresh(cs, list) + list
  {
    if cs != [] {
      AddedInFront(list, cs[1..]);
      FreshMembers(cs[1..], list);
    }
  }

  /** A later add does not always come first: a command that is bound already keeps its place. */
  lemma AddComesFirstIff(list: seq<string>, c: string)
    ensures var after := AddAll(list, [c]); after != [] && (after[0] == c <==> c !in list || list[0] == c)
  {
  }

  lemma {:induction false} AllKept(cs: seq<string>)
    requires forall c | c in cs :: Command(c) != []
    ensures Kept(cs) == cs
  {
    hide Command;
    if cs != [] {
      assert forall c | c in cs[1..] :: c in cs;
      AllKept(cs[1..]);
    }
  }

  lemma {:induction false} AllFresh(cs: seq<string>)
    requires forall i, j :: 0 <= i < j < |cs| ==> cs[i] != cs[j]
    ensures Fresh(cs, []) == cs
  {
    if cs != [] {
      AllFresh(cs[1..]);
    }
  }

  /** Setting distinct commands, each with a word in it, and then listing them gives the same list back. */
  lemma SetThenList(cs: seq<string>)
    requires forall i, j :: 0 <= i < j < |cs| ==> cs[i] != cs[j]
    requires forall c | c in cs :: Command(c) != []
    ensures AddAll([], Kept(cs)) == cs
  {
    AllKept(cs);
    AllFresh(cs);
    AddedInFront([], cs);
    assert cs + [] == cs;
  }

  // ---- choosing the command for a key press ----

  predicate Applies(can: string -> bool, cmdline: string) {
    Command(cmdline) != [] && can(Command(cmdline)[0])
  }

  function First(list: seq<string>, can: string -> bool): string {
    if list == [] then "" else if Applies(can, list[0]) then list[0] else First(list[1..], can)
  }

  lemma {:induction false} FirstApplicable(list: seq<string>, can: string -> bool)
    ensures First(list, can) == "" <==> forall c | c in list :: !Applies(can, c)
    ensures First(list, can) != "" ==>
            exists i :: (0 <= i < |list| && First(list, can) == list[i] && Applies(can, list[i])
                         && forall j :: 0 <= j < i ==> !Applies(can, list[j]))
  {
    if list != [] {
      assert Command("") == [];
      var tail := list[1..];
      FirstApplicable(tail, can);
      assert forall c :: c in list <==> c == list[0] || c in tail;
      if !Applies(can, list[0]) && First(tail, can) != "" {
        var i :| (0 <= i < |tail| && First(tail, can) == tail[i] && Applies(can, tail[i])
                  && forall j :: 0 <= j < i ==> !Applies(can, tail[j]));
        assert list[i + 1] == tail[i];
        assert forall j :: 0 < j < i + 1 ==> list[j] == tail[j - 1];
      }
    }
  }

  /** What SelectHotkey reads of the game: whether its globals are there, whether the top screen is the main
      one, whether its hotkey menu is open, and the game's own sixteen hotkeys. */
  datatype Screen = Screen(ready: bool, dwarfmode: bool, hotkeyMenu: bool, hotkeys: seq<string>)

  /** The game's own hotkey for F1 to F8, the second eight with Shift. */
  function GameHotkey(sym: int, mods: bv32, screen: Screen): string
    requires |screen.hotkeys| == 16
  {
    if K_F1 <= sym < K_F1 + 8 && screen.dwarfmode && !screen.hotkeyMenu then
      screen.hotkeys[if mods & 1 != 0 then sym - K_F1 + 8 else sym - K_F1]
    else ""
  }

  function Chosen(list: seq<string>, can: string -> bool, gameHotkey: string): string {
    if First(list, can) != "" then First(list, can) else gameHotkey
  }

  /** A key press runs a command that is listed and applies, if there is one; else F1 to F8 run the game's hotkeys, the
      second eight with Shift, on the main screen outside its hotkey menu; else nothing. */
  lemma PressIs(sym: int, shift: bool, ctrl: bool, alt: bool, screen: Screen, list: seq<string>, can: string -> bool)
    requires |screen.hotkeys| == 16
    ensures var cmd := Chosen(list, can, GameHotkey(sym, Flags(shift, ctrl, alt), screen));
      if exists c :: c in list && Command(c) != [] && can(Command(c)[0]) then
        cmd in list && Command(cmd) != [] && can(Command(cmd)[0])
      else if 282 <= sym <= 289 && screen.dwarfmode && !screen.hotkeyMenu then
        cmd == screen.hotkeys[(if shift then 8 else 0) + (sym - 282)]
      else cmd == ""
  {
    hide First, Command;
    FirstApplicable(list, can);
    assert Flags(shift, ctrl, alt) & 1 != 0 <==> shift;
  }

  function BindingsOf(table: map<int, seq<KeyBinding>>, sym: int): seq<KeyBinding> {
    if sym in table then table[sym] else []
  }

  /** Two tables list the same commands for every key but this one. */
  ghost predicate SameBut(was: map<int, seq<KeyBinding>>, now: map<int, seq<KeyBinding>>, sym: int, mods: bv32) {
    forall s, m :: s != sym || m != mods ==> Listing(BindingsOf(now, s), m) == Listing(BindingsOf(was, s), m)
  }

  /** The listings of the keys named by specs are empty, the others as they were. */
  ghost predicate Emptied(was: map<int, seq<KeyBinding>>, now: map<int, seq<KeyBinding>>, specs: seq<string>) {
    forall s, m :: Listing(BindingsOf(now, s), m) == if Named(specs, s, m) then [] else Listing(BindingsOf(was, s), m)
  }

  class Hotkeys {
    var keyBindings: map<int, seq<KeyBinding>>
    var hotkeySet: bool
    var hotkeyCmd: string

    constructor ()
      ensures Valid() && forall s, m :: Listed(s, m) == []
    {
      keyBindings, hotkeySet, hotkeyCmd := map[], false, "";
    }

    function At(sym: int): seq<KeyBinding>
      reads `keyBindings
    {
      BindingsOf(keyBindings, sym)
    }

    ghost function Listed(sym: int, mods: bv32): seq<string>
      reads `keyBindings
    {
      Listing(At(sym), mods)
    }

    ghost predicate Valid()
      reads `keyBindings
    {
      forall sym | sym in keyBindings :: Distinct(keyBindings[sym]) && Tokenised(keyBindings[sym])
    }

    method ClearKeyBindings(keyspec: string) returns (ok: bool)
      requires Valid()
      modifies `keyBindings
      ensures Valid() && ok == Parse(keyspec, 0).Key?
      ensures !ok ==> keyBindings == old(keyBindings)
      ensures ok ==> var k := Parse(keyspec, 0); Listed(k.sym, k.modifiers) == [] && SameBut(old(keyBindings), keyBindings, k.sym, k.modifiers)
    {
      hide Parse, Distinct, Tokenised;
      var k := ParseKeySpec(keyspec);
      if k.Invalid? {
        return false;
      }
      var before := At(k.sym);
      var bindings := EraseAll(before, k.modifiers);
      keyBindings := keyBindings[k.sym := bindings];
      EmptyIsSound();
      WithoutKeeps(before, k.modifiers);
      forall m ensures Listing(bindings, m) == if m == k.modifiers then [] else Listing(before, m) {
        ListingWithout(before, k.modifiers, m);
      }
      ok := true;
    }

    /** One turn of the loop that erases from the back. */
    static lemma EraseStep(before: seq<KeyBinding>, mods: bv32, i: nat)
      requires i < |before|
      ensures var now := before[..i + 1] + Without(before[i + 1..], mods);
        && now[i] == before[i]
        && before[..i] + Without(before[i..], mods) == if before[i].modifiers == mods then now[..i] + now[i + 1..] else now
    {
      assert before[i..][1..] == before[i + 1..] && before[i..][0] == before[i];
      assert before[..i + 1] == before[..i] + [before[i]];
    }

    static lemma EraseEnds(before: seq<KeyBinding>, mods: bv32)
      ensures before[..|before|] + Without(before[|before|..], mods) == before
      ensures before[..0] + Without(before[0..], mods) == Without(before, mods)
    {
      assert before[0..] == before;
    }

    static method EraseAll(before: seq<KeyBinding>, mods: bv32) returns (bindings: seq<KeyBinding>)
      ensures bindings == Without(before, mods)
    {
      hide Without;
      bindings := before;
      EraseEnds(before, mods);
      var i := |bindings| - 1;
      while i >= 0
        invariant -1 <= i < |before|
        invariant bindings == before[..i + 1] + Without(before[i + 1..], mods)
      {
        EraseStep(before, mods, i);
        if bindings[i].modifiers == mods {
          bindings := bindings[..i] + bindings[i + 1..];
        }
        i := i - 1;
      }
    }

    /** A key that was never touched has an empty, sound list. */
    static lemma EmptyIsSound()
      ensures Distinct([]) && Tokenised([])
    {
    }

    method AddKeyBinding(keyspec: string, cmdline: string) returns (ok: bool)
      requires Valid()
      modifies `keyBindings
      ensures Valid() && ok == (Parse(keyspec, 0).Key? && Command(cmdline) != [])
      ensures !ok ==> keyBindings == old(keyBindings)
      ensures ok ==> var k := Parse(keyspec, 0); (Listed(k.sym, k.modifiers) == Front(cmdline, old(Listed(k.sym, k.modifiers)))
                                                  && SameBut(old(keyBindings), keyBindings, k.sym, k.modifiers))
    {
      hide Parse, Distinct, Tokenised, Bound, Listing, Tokeniser.Scan;
      var k := ParseKeySpec(keyspec);
      if k.Invalid? {
        return false;
      }
      var command := Tokeniser.CheapTokenise(cmdline);
      if command == [] {
        return false;
      }
      var bindings := At(k.sym);
      ListedIffBound(bindings, k.modifiers, cmdline);
      var bound := IsBound(bindings, k.modifiers, cmdline);
      if bound {
        return true;
      }
      var binding := KeyBinding(k.modifiers, command, cmdline);
      EmptyIsSound();
      PushKeeps(bindings, binding);
      forall m ensures Listing(bindings + [binding], m) == (if m == k.modifiers then [cmdline] else []) + Listing(bindings, m) {
        ListingPush(bindings, binding, m);
      }
      keyBindings := keyBindings[k.sym := bindings + [binding]];
      ok := true;
    }

    /** The search for a duplicate. */
    static method IsBound(bindings: seq<KeyBinding>, mods: bv32, cmdline: string) returns (bound: bool)
      ensures bound == Bound(bindings, mods, cmdline)
    {
      var i := |bindings| - 1;
      while i >= 0
        invariant -1 <= i < |bindings|
        invariant forall j :: i < j < |bindings| ==> bindings[j].modifiers != mods || bindings[j].cmdline != cmdline
      {
        if bindings[i].modifiers == mods && bindings[i].cmdline == cmdline {
          return true;
        }
        i := i - 1;
      }
      bound := false;
    }

    method ListKeyBindings(keyspec: string) returns (list: seq<string>)
      ensures var k := Parse(keyspec, 0); list == if k.Key? then Listed(k.sym, k.modifiers) else []
    {
      hide Parse, Listing;
      var k := ParseKeySpec(keyspec);
      if k.Invalid? {
        return [];
      }
      list := ListAll(At(k.sym), k.modifiers);
    }

    /** The loop that lists from the back. */
    static method ListAll(bindings: seq<KeyBinding>, mods: bv32) returns (list: seq<string>)
      ensures list == Listing(bindings, mods)
    {
      list := [];
      var i := |bindings| - 1;
      while i >= 0
        invariant -1 <= i < |bindings|
        invariant list == Listing(bindings[i + 1..], mods)
      {
        assert bindings[i..][1..] == bindings[i + 1..] && bindings[i..][0] == bindings[i];
        if bindings[i].modifiers == mods {
          list := list + [bindings[i].cmdline];
        }
        i := i - 1;
      }
      assert bindings[0..] == bindings;
    }

    /** A key press. The look-up leaves an empty list behind for a key that had none. */
    method SelectHotkey(sym: int, mods: bv32, screen: Screen, can: string -> bool) returns (ok: bool)
      requires Valid() && |screen.hotkeys| == 16
      modifies this
      ensures Valid() && forall s, m :: Listed(s, m) == old(Listed(s, m))
      ensures ok == (screen.ready && Chosen(Listed(sym, mods), can, GameHotkey(sym, mods, screen)) != "")
      ensures ok ==> hotkeySet && hotkeyCmd == Chosen(Listed(sym, mods), can, GameHotkey(sym, mods, screen))
      ensures !ok ==> hotkeySet == old(hotkeySet) && hotkeyCmd == old(hotkeyCmd)
    {
      hide Distinct, Tokenised, Listing, First, Command;
      if !screen.ready {
        return false;
      }
      var cmd := "";
      EmptyIsSound();
      keyBindings := keyBindings[sym := At(sym)];
      var bindings := keyBindings[sym];
      cmd := FirstBinding(bindings, mods, can);
      if cmd == "" {
        var idx := sym - K_F1;
        if idx >= 0 && idx < 8 {
          if mods & 1 != 0 {
            idx := idx + 8;
          }
          if screen.dwarfmode && !screen.hotkeyMenu {
            cmd := screen.hotkeys[idx];
          }
        }
      }
      if cmd != "" {
        hotkeySet, hotkeyCmd := true, cmd;
        return true;
      } else {
        return false;
      }
    }

    /** The search through the bindings of the key, newest first. */
    static method FirstBinding(bindings: seq<KeyBinding>, mods: bv32, can: string -> bool) returns (cmd: string)
      requires Tokenised(bindings)
      ensures cmd == First(Listing(bindings, mods), can)
    {
      hide Command;
      cmd := "";
      var i := |bindings| - 1;
      assert bindings[..|bindings|] == bindings;
      while i >= 0
        invariant -1 <= i < |bindings|
        invariant First(Listing(bindings, mods), can) == First(Listing(bindings[..i + 1], mods), can)
      {
        assert bindings[..i + 1] == bindings[..i] + [bindings[i]] && bindings[i] in bindings;
        ListingPush(bindings[..i], bindings[i], mods);
        if bindings[i].modifiers == mods {
          var rest := Listing(bindings[..i], mods);
          assert ([bindings[i].cmdline] + rest)[1..] == rest;
          if can(bindings[i].command[0]) {
            return bindings[i].cmdline;
          }
        } else {
          assert [] + Listing(bindings[..i], mods) == Listing(bindings[..i], mods);
        }
        i := i - 1;
      }
    }

    /** keybinding set and keybinding add. */
    method SetOrAdd(parts: seq<string>)
      requires Valid() && |parts| >= 3 && (parts[0] == "set" || parts[0] == "add")
      modifies `keyBindings
      ensures Valid()
      ensures Parse(parts[1], 0).Invalid? ==> keyBindings == old(keyBindings)
      ensures var k := Parse(parts[1], 0); k.Key? ==> (
        Listed(k.sym, k.modifiers)
        == AddAll(if parts[0] == "set" then [] else old(Listed(k.sym, k.modifiers)), Kept(parts[2..]))
        && SameBut(old(keyBindings), keyBindings, k.sym, k.modifiers))
    {
      hide Parse, Command, Valid, Listing, BindingsOf, SameBut, Kept, AddAll, Front;
      var keystr := parts[1];
      ghost var k, cs := Parse(keystr, 0), parts[2..];
      SameButItself(keyBindings);
      if parts[0] == "set" {
        var _ := ClearKeyBindings(keystr);
      }
      ghost var base := if k.Key? then Listed(k.sym, k.modifiers) else [];
      var i := |parts| - 1;
      StartAdding(base);
      assert cs[|cs|..] == [];
      while i >= 2
        invariant 1 <= i < |parts| && Valid()
        invariant k.Invalid? ==> keyBindings == old(keyBindings)
        invariant k.Key? ==> Kept(cs[i - 1..]) == cs[i - 1..]
        invariant k.Key? ==> Listed(k.sym, k.modifiers) == AddAll(base, cs[i - 1..])
        invariant k.Key? ==> SameBut(old(keyBindings), keyBindings, k.sym, k.modifiers)
      {
        ghost var now := keyBindings;
        var ok := AddKeyBinding(keystr, parts[i]);
        if !ok {
          if k.Key? {
            KeptBefore(cs, i - 2);
          }
          break;
        }
        AddStep(base, cs, i - 2);
        SameButTransitive(old(keyBindings), now, keyBindings, k.sym, k.modifiers);
        i := i - 1;
      }
      assert cs[0..] == cs;
    }

    static lemma SameButItself(table: map<int, seq<KeyBinding>>)
      ensures forall s, m :: SameBut(table, table, s, m)
    {
    }

    static lemma SameButTransitive(a: map<int, seq<KeyBinding>>, b: map<int, seq<KeyBinding>>,
                                   c: map<int, seq<KeyBinding>>, sym: int, mods: bv32)
      requires SameBut(a, b, sym, mods) && SameBut(b, c, sym, mods)
      ensures SameBut(a, c, sym, mods)
    {
      hide Listing, BindingsOf;
    }

    static lemma StartAdding(base: seq<string>)
      ensures Kept([]) == [] && AddAll(base, []) == base
    {
    }

    static lemma AddStep(base: seq<string>, cs: seq<string>, i: nat)
      requires i < |cs| && Kept(cs[i + 1..]) == cs[i + 1..] && Command(cs[i]) != []
      ensures Kept(cs[i..]) == cs[i..] && AddAll(base, cs[i..]) == Front(cs[i], AddAll(base, cs[i + 1..]))
    {
    }

    /** Once the loop has stopped, what comes before does not matter. */
    static lemma {:induction false} KeptBefore(cs: seq<string>, i: nat)
      requires i < |cs| && Command(cs[i]) == []
      ensures Kept(cs) == Kept(cs[i + 1..]) && Kept(cs) != cs
    {
      hide Command;
      if i > 0 {
        KeptBefore(cs[1..], i - 1);
        assert cs[1..][i..] == cs[i + 1..];
      }
    }

    /** keybinding clear: it stops at the first specification that is not a key. */
    method Clear(parts: seq<string>)
      requires Valid() && |parts| >= 2 && parts[0] == "clear"
      modifies `keyBindings
      ensures Valid()
      ensures forall s, m :: Listed(s, m) == if Cleared(parts[1..], s, m) then [] else old(Listed(s, m))
    {
      hide Parse, Valid, Named, Cleared, Listing;
      var i := 1;
      ghost var was := keyBindings;
      NoneNamed();
      assert parts[1..1] == [];
      while i < |parts|
        invariant 1 <= i <= |parts| && Valid()
        invariant forall j :: 1 <= j < i ==> Parse(parts[j], 0).Key?
        invariant Emptied(was, keyBindings, parts[1..i])
      {
        ghost var now := keyBindings;
        var ok := ClearKeyBindings(parts[i]);
        if !ok {
          forall s, m ensures Cleared(parts[1..], s, m) <==> Named(parts[1..i], s, m) {
            ClearedBefore(parts[1..], i - 1, s, m);
            assert parts[1..][..i - 1] == parts[1..i];
          }
          return;
        }
        assert parts[1..i + 1] == parts[1..i] + [parts[i]];
        EmptiedStep(was, now, keyBindings, parts[1..i], parts[i]);
        i := i + 1;
      }
      assert parts[1..|parts|] == parts[1..];
      forall s, m ensures Cleared(parts[1..], s, m) <==> Named(parts[1..], s, m) {
        AllNamedCleared(parts[1..], s, m);
      }
    }
  }

  lemma NoneNamed()
    ensures forall s, m :: !Named([], s, m)
  {
  }

  lemma AllNamedCleared(specs: seq<string>, sym: int, mods: bv32)
    requires forall j :: 0 <= j < |specs| ==> Parse(specs[j], 0).Key?
    ensures Cleared(specs, sym, mods) <==> Named(specs, sym, mods)
  {
    hide Parse;
  }

  lemma NamedAppend(specs: seq<string>, spec: string, sym: int, mods: bv32)
    ensures Named(specs + [spec], sym, mods) <==> Named(specs, sym, mods) || Parse(spec, 0) == Key(sym, mods)
  {
    hide Parse;
    var all := specs + [spec];
    assert forall i :: 0 <= i < |specs| ==> all[i] == specs[i];
    assert all[|specs|] == spec;
  }

  lemma EmptiedStep(was: map<int, seq<KeyBinding>>, now: map<int, seq<KeyBinding>>, next: map<int, seq<KeyBinding>>,
                    specs: seq<string>, spec: string)
    requires Emptied(was, now, specs) && Parse(spec, 0).Key?
    requires var k := Parse(spec, 0);
      SameBut(now, next, k.sym, k.modifiers) && Listing(BindingsOf(next, k.sym), k.modifiers) == []
    ensures Emptied(was, next, specs + [spec])
  {
    hide Parse, Named, Listing, BindingsOf;
    forall s, m ensures Named(specs + [spec], s, m) <==> Named(specs, s, m) || Parse(spec, 0) == Key(s, m) {
      NamedAppend(specs, spec, s, m);
    }
  }

  predicate Named(specs: seq<string>, sym: int, mods: bv32) {
    exists i :: 0 <= i < |specs| && Parse(specs[i], 0) == Key(sym, mods)
  }

  /** Named before the first specification that is not a key. */
  predicate Cleared(specs: seq<string>, sym: int, mods: bv32) {
    exists i :: (0 <= i < |specs| && Parse(specs[i], 0) == Key(sym, mods)
                 && forall j :: 0 <= j < i ==> Parse(specs[j], 0).Key?)
  }

  lemma ClearedBefore(specs: seq<string>, n: nat, sym: int, mods: bv32)
    requires n < |specs| && Parse(specs[n], 0).Invalid?
    requires forall j :: 0 <= j < n ==> Parse(specs[j], 0).Key?
    ensures Cleared(specs, sym, mods) <==> Named(specs[..n], sym, mods)
  {
    hide Parse;
    if Named(specs[..n], sym, mods) {
      var i :| 0 <= i < n && Parse(specs[..n][i], 0) == Key(sym, mods);
      assert specs[..n][i] == specs[i];
    }
    if Cleared(specs, sym, mods) {
      var i :| (0 <= i < |specs| && Parse(specs[i], 0) == Key(sym, mods)
                && forall j :: 0 <= j < i ==> Parse(specs[j], 0).Key?);
      assert i < n && specs[..n][i] == specs[i];
    }
  }
}
