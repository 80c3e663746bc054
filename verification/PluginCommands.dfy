/** library/PluginManager.cpp: the index from command names to the plugins that own them. */
module PluginCommands {

  /** The index after the names are entered, in order, for plugin p. */
  function Registered(belongs: map<string, nat>, names: seq<string>, p: nat): (r: map<string, nat>)
    ensures forall n :: n in r <==> n in belongs || n in names
    ensures forall n | n in r :: r[n] == if n in names then p else belongs[n]
    decreases names
  {
    if names == [] then belongs
    else Registered(belongs[names[0] := p], names[1..], p)
  }

  /** The index after the names are erased. Whoever owns a name, erasing takes it out. */
  function Unregistered(belongs: map<string, nat>, names: seq<string>): (r: map<string, nat>)
    ensures forall n :: n in r <==> n in belongs && n !in names
    ensures forall n | n in r :: r[n] == belongs[n]
    decreases names
  {
    if names == [] then belongs
    else Unregistered(belongs - {names[0]}, names[1..])
  }

  /** Names nobody else holds come back out without a trace; a name somebody else held is lost. */
  lemma RegisterUnregister(belongs: map<string, nat>, names: seq<string>, p: nat)
    ensures Unregistered(Registered(belongs, names, p), names) == belongs
      <==> forall n | n in names :: n !in belongs
  {
  }

  class PluginManager {
    var belongs: map<string, nat>

    method RegisterCommands(p: nat, cmds: seq<string>)
      modifies this
      ensures belongs == Registered(old(belongs), cmds, p)
    {
      for i := 0 to |cmds|
        invariant Registered(belongs, cmds[i..], p) == Registered(old(belongs), cmds, p)
      {
        belongs := belongs[cmds[i] := p];
        assert cmds[i..][1..] == cmds[i + 1..];
      }
    }

    method UnregisterCommands(cmds: seq<string>)
      modifies this
      ensures belongs == Unregistered(old(belongs), cmds)
    {
      for i := 0 to |cmds|
        invariant Unregistered(belongs, cmds[i..]) == Unregistered(old(belongs), cmds)
      {
        belongs := belongs - {cmds[i]};
        assert cmds[i..][1..] == cmds[i + 1..];
      }
    }
  }
}
