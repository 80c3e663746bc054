/** library/PluginManager.cpp: loading and unloading plugins while other threads call into them, as an
    interleaving of atomic steps. One thread loads and unloads; any number of threads call. A caller
    tests the state without holding the lock. */
module PluginLifecycle {
  import opened PluginCommands

  datatype PluginState = Unloaded | Loaded | Broken

  datatype Plugin = Plugin(
    state: PluginState,
    libOpen: bool,
    commands: seq<string>,
    refcount: int,
    locked: bool)          // the loader holds access->mut; callers hold it only within one step

  datatype CallerPc =
    | Out        // not calling
    | Looked     // has a plugin pointer, about to lock_add
    | Added      // about to test the state
    | Inside     // saw PS_LOADED: in plugin code, or looking through its commands
    | Leaving    // about to lock_sub

  datatype Caller = Caller(pc: CallerPc, plugin: nat)

  datatype LoaderPc =
    | Idle
    | LoadLocked                   // load: about to test the state
    | Opened                       // library open, about to call plugin_init
    | Registering                  // state is PS_LOADED, about to register the commands
    | UnloadLocked                 // unload: about to test the state and call plugin_shutdown
    | WaitTest(ok: bool)           // in RefLock::wait, holds the lock, tests refcount
    | WaitSleep(ok: bool)          // asleep, lock released
    | WaitWoken(ok: bool)          // awake, wants the lock back
    | Unregistering(ok: bool)
    | Closing(ok: bool)
    | Unlocking

  datatype State = State(
    plugins: seq<Plugin>,
    callers: seq<Caller>,
    loader: LoaderPc,
    target: nat,
    belongs: map<string, nat>)

  /** A step and what the outside world answers in it. */
  datatype Step =
    | Call(t: nat, p: nat)                        // a caller picks a plugin, by name or from the list
    | CallerStep(t: nat)
    | StartLoad(p: nat)
    | StartUnload(p: nat)
    | LoaderStep(ok: bool, commands: seq<string>) // success of the external call, commands init pushed
    | SpuriousWake

  /** Between lock_add and lock_sub. */
  predicate Counted(pc: CallerPc) {
    pc == Added || pc == Inside || pc == Leaving
  }

  function Callers(callers: seq<Caller>, p: nat): (n: nat)
  {
    if callers == [] then 0
    else (if Counted(callers[0].pc) && callers[0].plugin == p then 1 else 0) + Callers(callers[1..], p)
  }

  /** owner says which plugin may use a name: command names are disjoint between plugins. */
  ghost predicate Enabled(owner: string -> nat, s: State, step: Step) {
    match step
    case Call(t, p) => t < |s.callers| && s.callers[t].pc == Out && p < |s.plugins|
    case CallerStep(t) =>
      && t < |s.callers| && s.callers[t].pc != Out && s.callers[t].plugin < |s.plugins|
      && (s.callers[t].pc == Looked || s.callers[t].pc == Leaving ==> !s.plugins[s.callers[t].plugin].locked)
    case StartLoad(p) => s.loader == Idle && p < |s.plugins| && !s.plugins[p].locked
    case StartUnload(p) => s.loader == Idle && p < |s.plugins| && !s.plugins[p].locked
    case LoaderStep(ok, commands) =>
      && s.loader != Idle && !s.loader.WaitSleep? && s.target < |s.plugins|
      && (s.loader.WaitWoken? ==> !s.plugins[s.target].locked)
      && (forall n | n in commands :: owner(n) == s.target)
    case SpuriousWake => s.loader.WaitSleep?
  }

  function WithPlugin(s: State, p: nat, plugin: Plugin): State
    requires p < |s.plugins|
  {
    s.(plugins := s.plugins[p := plugin])
  }

  function WithCaller(s: State, t: nat, pc: CallerPc): State
    requires t < |s.callers|
  {
    s.(callers := s.callers[t := s.callers[t].(pc := pc)])
  }

  function ApplyCaller(s: State, t: nat): State
    requires t < |s.callers| && s.callers[t].plugin < |s.plugins|
  {
    var p := s.callers[t].plugin;
    var plugin := s.plugins[p];
    match s.callers[t].pc
    case Out => s
    case Looked => WithPlugin(WithCaller(s, t, Added), p, plugin.(refcount := plugin.refcount + 1))
    case Added => WithCaller(s, t, if plugin.state == Loaded then Inside else Leaving)
    case Inside => WithCaller(s, t, Leaving)
    case Leaving =>
      // notify_one: the loader is the only thread that ever waits here
      WithPlugin(WithCaller(s, t, Out), p, plugin.(refcount := plugin.refcount - 1))
        .(loader := if s.loader.WaitSleep? && s.target == p then WaitWoken(s.loader.ok) else s.loader)
  }

  function ApplyLoader(s: State, ok: bool, commands: seq<string>): State
    requires s.target < |s.plugins|
  {
    var p := s.target;
    var plugin := s.plugins[p];
    match s.loader
    case Idle => s
    case LoadLocked =>
      if plugin.state != Unloaded then s.(loader := Unlocking)
      else if !ok then WithPlugin(s, p, plugin.(state := Broken)).(loader := Unlocking)
      else WithPlugin(s, p, plugin.(libOpen := true)).(loader := Opened)
    case Opened =>
      if ok then WithPlugin(s, p, plugin.(state := Loaded, commands := commands)).(loader := Registering)
      else WithPlugin(s, p, plugin.(state := Broken, commands := commands, libOpen := false)).(loader := Unlocking)
    case Registering => s.(belongs := Registered(s.belongs, plugin.commands, p), loader := Unlocking)
    case UnloadLocked => s.(loader := if plugin.state == Loaded then WaitTest(ok) else Unlocking)
    case WaitTest(cr) =>
      if plugin.refcount != 0 then WithPlugin(s, p, plugin.(locked := false)).(loader := WaitSleep(cr))
      else s.(loader := Unregistering(cr))
    case WaitSleep(cr) => s
    case WaitWoken(cr) => WithPlugin(s, p, plugin.(locked := true)).(loader := WaitTest(cr))
    case Unregistering(cr) => s.(belongs := Unregistered(s.belongs, plugin.commands), loader := Closing(cr))
    case Closing(cr) =>
      (if cr then WithPlugin(s, p, plugin.(state := Unloaded, libOpen := false))
       else WithPlugin(s, p, plugin.(state := Broken))).(loader := Unlocking)
    case Unlocking => WithPlugin(s, p, plugin.(locked := false)).(loader := Idle)
  }

  ghost function Apply(owner: string -> nat, s: State, step: Step): State
    requires Enabled(owner, s, step)
  {
    match step
    case Call(t, p) => s.(callers := s.callers[t := Caller(Looked, p)])
    case CallerStep(t) => ApplyCaller(s, t)
    case StartLoad(p) => WithPlugin(s, p, s.plugins[p].(locked := true)).(loader := LoadLocked, target := p)
    case StartUnload(p) => WithPlugin(s, p, s.plugins[p].(locked := true)).(loader := UnloadLocked, target := p)
    case LoaderStep(ok, commands) => ApplyLoader(s, ok, commands)
    case SpuriousWake => s.(loader := WaitWoken(s.loader.ok))
  }

  ghost predicate Init(s: State) {
    && (forall p | 0 <= p < |s.plugins| :: s.plugins[p] == Plugin(Unloaded, false, [], 0, false))
    && (forall t | 0 <= t < |s.callers| :: s.callers[t].pc == Out)
    && s.loader == Idle && s.belongs == map[]
  }

  // ---- the invariant ----

  predicate LoaderAt(s: State, p: nat) {
    s.loader != Idle && s.target == p
  }

  predicate InTeardown(pc: LoaderPc) {
    pc.WaitTest? || pc.WaitSleep? || pc.WaitWoken? || pc.Unregistering? || pc.Closing?
  }

  /** The plugin's commands are in the index: it is loaded, not just before registering or just after
      unregistering. */
  predicate Listed(s: State, p: nat) {
    && p < |s.plugins| && s.plugins[p].state == Loaded
    && !(LoaderAt(s, p) && (s.loader == Registering || s.loader.Closing?))
  }

  ghost predicate PluginOk(owner: string -> nat, s: State, p: nat)
    requires p < |s.plugins|
  {
    var plugin := s.plugins[p];
    && plugin.refcount == Callers(s.callers, p)
    && (plugin.locked <==> LoaderAt(s, p) && !s.loader.WaitSleep? && !s.loader.WaitWoken?)
    && (plugin.state == Loaded ==> plugin.libOpen)
    && (plugin.state == Unloaded && plugin.libOpen ==> LoaderAt(s, p) && s.loader == Opened)
    && (forall n | n in plugin.commands :: owner(n) == p)
    && (LoaderAt(s, p) ==>
          && (s.loader == Opened ==> plugin.state == Unloaded && plugin.libOpen)
          && (InTeardown(s.loader) || s.loader == Registering ==> plugin.state == Loaded)
          && (s.loader.WaitSleep? ==> plugin.refcount > 0)
          && (s.loader.Unregistering? || s.loader.Closing? ==> plugin.refcount == 0))
  }

  ghost predicate CallerOk(s: State, t: nat)
    requires t < |s.callers|
  {
    && (s.callers[t].pc != Out ==> s.callers[t].plugin < |s.plugins|)
    && (s.callers[t].pc == Inside ==> s.plugins[s.callers[t].plugin].state == Loaded)
  }

  ghost predicate NameOk(owner: string -> nat, s: State, n: string) {
    && (n in s.belongs <==> Listed(s, owner(n)) && n in s.plugins[owner(n)].commands)
    && (n in s.belongs ==> s.belongs[n] == owner(n))
  }

  ghost predicate Inv(owner: string -> nat, s: State) {
    && (s.loader != Idle ==> s.target < |s.plugins|)
    && (forall p | 0 <= p < |s.plugins| :: PluginOk(owner, s, p))
    && (forall t | 0 <= t < |s.callers| :: CallerOk(s, t))
    && (forall n :: NameOk(owner, s, n))
  }

  lemma {:induction false} CallersUpdate(callers: seq<Caller>, t: nat, c: Caller, p: nat)
    requires t < |callers|
    ensures Callers(callers[t := c], p) == Callers(callers, p)
      - (if Counted(callers[t].pc) && callers[t].plugin == p then 1 else 0)
      + (if Counted(c.pc) && c.plugin == p then 1 else 0)
  {
    if t == 0 {
      assert callers[t := c][1..] == callers[1..];
    } else {
      assert callers[t := c][1..] == callers[1..][t - 1 := c];
      CallersUpdate(callers[1..], t - 1, c, p);
    }
  }

  lemma {:induction false} CallerIsCounted(callers: seq<Caller>, t: nat)
    requires t < |callers| && Counted(callers[t].pc)
    ensures Callers(callers, callers[t].plugin) > 0
  {
    if t > 0 {
      CallerIsCounted(callers[1..], t - 1);
    }
  }

  lemma {:induction false} NobodyCounted(callers: seq<Caller>, p: nat)
    requires forall t | 0 <= t < |callers| :: callers[t].pc == Out
    ensures Callers(callers, p) == 0
  {
    if callers != [] {
      NobodyCounted(callers[1..], p);
    }
  }

  lemma InitInv(owner: string -> nat, s: State)
    requires Init(s)
    ensures Inv(owner, s)
  {
    forall p: nat | p < |s.plugins| ensures PluginOk(owner, s, p) {
      NobodyCounted(s.callers, p);
    }
  }

  lemma CallerKeepsPlugin(owner: string -> nat, s: State, t: nat, p: nat)
    requires Inv(owner, s) && Enabled(owner, s, CallerStep(t)) && p < |s.plugins|
    ensures |ApplyCaller(s, t).plugins| == |s.plugins| && PluginOk(owner, ApplyCaller(s, t), p)
  {
    hide NameOk, Callers;
    assert PluginOk(owner, s, p);
    CallersUpdate(s.callers, t, ApplyCaller(s, t).callers[t], p);
  }

  lemma CallerKeepsCaller(owner: string -> nat, s: State, t: nat, u: nat)
    requires Inv(owner, s) && Enabled(owner, s, CallerStep(t)) && u < |s.callers|
    ensures |ApplyCaller(s, t).callers| == |s.callers| && CallerOk(ApplyCaller(s, t), u)
  {
    assert CallerOk(s, t) && CallerOk(s, u);
  }

  lemma CallerKeepsName(owner: string -> nat, s: State, t: nat, n: string)
    requires Inv(owner, s) && Enabled(owner, s, CallerStep(t))
    ensures NameOk(owner, ApplyCaller(s, t), n)
  {
    assert NameOk(owner, s, n);
  }

  lemma CallerKeepsTarget(s: State, t: nat)
    requires t < |s.callers| && s.callers[t].plugin < |s.plugins|
    ensures var r := ApplyCaller(s, t);
      r.target == s.target && |r.plugins| == |s.plugins| && |r.callers| == |s.callers| && (r.loader == Idle <==> s.loader == Idle)
  {
  }

  lemma LoaderKeepsPlugin(owner: string -> nat, s: State, ok: bool, commands: seq<string>, p: nat)
    requires Inv(owner, s) && Enabled(owner, s, LoaderStep(ok, commands)) && p < |s.plugins|
    ensures |ApplyLoader(s, ok, commands).plugins| == |s.plugins| && PluginOk(owner, ApplyLoader(s, ok, commands), p)
  {
    hide CallerOk, NameOk, Callers, Registered, Unregistered;
    assert PluginOk(owner, s, p) && PluginOk(owner, s, s.target);
  }

  lemma LoaderKeepsCaller(owner: string -> nat, s: State, ok: bool, commands: seq<string>, t: nat)
    requires Inv(owner, s) && Enabled(owner, s, LoaderStep(ok, commands)) && t < |s.callers|
    ensures ApplyLoader(s, ok, commands).callers == s.callers && CallerOk(ApplyLoader(s, ok, commands), t)
  {
    assert CallerOk(s, t) && PluginOk(owner, s, s.target);
    if Counted(s.callers[t].pc) {
      CallerIsCounted(s.callers, t);
    }
  }

  lemma LoaderKeepsName(owner: string -> nat, s: State, ok: bool, commands: seq<string>, n: string)
    requires s.target < |s.plugins| && NameOk(owner, s, n) && PluginOk(owner, s, s.target)
    requires Enabled(owner, s, LoaderStep(ok, commands))
    ensures NameOk(owner, ApplyLoader(s, ok, commands), n)
  {
    hide Registered, Unregistered, Callers;
  }

  lemma OtherKeepsInv(owner: string -> nat, s: State, step: Step)
    requires Inv(owner, s) && Enabled(owner, s, step)
    requires step.Call? || step.StartLoad? || step.StartUnload? || step.SpuriousWake?
    ensures Inv(owner, Apply(owner, s, step))
  {
    var r := Apply(owner, s, step);
    forall p: nat | p < |r.plugins| ensures PluginOk(owner, r, p) {
      assert PluginOk(owner, s, p);
      if step.Call? {
        CallersUpdate(s.callers, step.t, r.callers[step.t], p);
      }
    }
    forall u: nat | u < |r.callers| ensures CallerOk(r, u) {
      assert CallerOk(s, u);
    }
    forall n ensures NameOk(owner, r, n) {
      assert NameOk(owner, s, n);
    }
  }

  lemma StepKeepsInv(owner: string -> nat, s: State, step: Step)
    requires Inv(owner, s) && Enabled(owner, s, step)
    ensures Inv(owner, Apply(owner, s, step))
  {
    hide ApplyCaller, ApplyLoader, PluginOk, CallerOk, NameOk;
    match step
    case CallerStep(t) =>
      CallerKeepsTarget(s, t);
      forall p: nat | p < |s.plugins| { CallerKeepsPlugin(owner, s, t, p); }
      forall u: nat | u < |s.callers| { CallerKeepsCaller(owner, s, t, u); }
      forall n { CallerKeepsName(owner, s, t, n); }
    case LoaderStep(ok, commands) =>
      LoaderKeepsTarget(s, ok, commands);
      forall p: nat | p < |s.plugins| { LoaderKeepsPlugin(owner, s, ok, commands, p); }
      forall t: nat | t < |s.callers| { LoaderKeepsCaller(owner, s, ok, commands, t); }
      assert PluginOk(owner, s, s.target);
      forall n ensures NameOk(owner, ApplyLoader(s, ok, commands), n) {
        assert NameOk(owner, s, n);
        LoaderKeepsName(owner, s, ok, commands, n);
      }
    case _ => OtherKeepsInv(owner, s, step);
  }

  lemma LoaderKeepsTarget(s: State, ok: bool, commands: seq<string>)
    requires s.target < |s.plugins|
    ensures var r := ApplyLoader(s, ok, commands);
      r.target == s.target && |r.plugins| == |s.plugins| && r.callers == s.callers
  {
  }

  // ---- theorems ----

  ghost predicate IsRun(owner: string -> nat, states: seq<State>, steps: seq<Step>) {
    && |states| == |steps| + 1
    && forall i | 0 <= i < |steps| ::
         Enabled(owner, states[i], steps[i]) && states[i + 1] == Apply(owner, states[i], steps[i])
  }

  lemma {:induction false} RunKeepsInv(owner: string -> nat, states: seq<State>, steps: seq<Step>, i: nat)
    requires IsRun(owner, states, steps) && Init(states[0]) && i < |states|
    ensures Inv(owner, states[i])
  {
    if i == 0 {
      InitInv(owner, states[0]);
    } else {
      RunKeepsInv(owner, states, steps, i - 1);
      StepKeepsInv(owner, states[i - 1], steps[i - 1]);
    }
  }

  /** In every run: a caller inside plugin code sees the plugin loaded and its library open from the
      state test until it leaves, and nothing replaces the command list under it. */
  lemma NeverClosedUnderACaller(owner: string -> nat, states: seq<State>, steps: seq<Step>, i: nat, t: nat)
    requires IsRun(owner, states, steps) && Init(states[0]) && i < |steps|
    requires t < |states[i].callers| && states[i].callers[t].pc == Inside
    ensures var p := states[i].callers[t].plugin;
      && p < |states[i].plugins| && p < |states[i + 1].plugins|
      && states[i].plugins[p].state == Loaded && states[i].plugins[p].libOpen
      && states[i + 1].plugins[p].state == Loaded && states[i + 1].plugins[p].libOpen
      && states[i + 1].plugins[p].commands == states[i].plugins[p].commands
  {
    hide NameOk, Callers, Registered, Unregistered;
    RunKeepsInv(owner, states, steps, i);
    var s := states[i];
    var p := s.callers[t].plugin;
    assert CallerOk(s, t) && PluginOk(owner, s, p);
    CallerIsCounted(s.callers, t);
    if steps[i].LoaderStep? {
      assert PluginOk(owner, s, s.target);
    }
  }

  /** The counter is exact, and an unloader asleep on it has a caller to wait for: no wake-up is lost. */
  lemma RefcountIsExact(owner: string -> nat, states: seq<State>, steps: seq<Step>, i: nat, p: nat)
    requires IsRun(owner, states, steps) && Init(states[0]) && i < |states| && p < |states[i].plugins|
    ensures states[i].plugins[p].refcount == Callers(states[i].callers, p)
    ensures states[i].loader.WaitSleep? && states[i].target == p ==> Callers(states[i].callers, p) > 0
  {
    RunKeepsInv(owner, states, steps, i);
    assert PluginOk(owner, states[i], p);
  }

  /** Whenever nothing is being loaded or unloaded the index is the union of the loaded plugins'
      commands, each name leading to the plugin that owns it. */
  lemma QuiescentIndex(owner: string -> nat, states: seq<State>, steps: seq<Step>, i: nat, n: string)
    requires IsRun(owner, states, steps) && Init(states[0]) && i < |states|
    requires states[i].loader == Idle
    ensures var s := states[i];
      n in s.belongs <==> exists p: nat :: p < |s.plugins| && s.plugins[p].state == Loaded && n in s.plugins[p].commands
    ensures var s := states[i];
      n in s.belongs ==> s.belongs[n] < |s.plugins| && s.plugins[s.belongs[n]].state == Loaded
                         && n in s.plugins[s.belongs[n]].commands
  {
    RunKeepsInv(owner, states, steps, i);
    var s := states[i];
    assert NameOk(owner, s, n);
    forall p: nat | p < |s.plugins| && s.plugins[p].state == Loaded && n in s.plugins[p].commands
      ensures p == owner(n)
    {
      assert PluginOk(owner, s, p);
    }
  }

  // ---- who waits for whom ----

  /** The loader is between taking a plugin's lock and giving it back, and not in RefLock::wait. */
  predicate Holds(s: State, p: nat) {
    s.loader != Idle && s.target == p && !s.loader.WaitSleep? && !s.loader.WaitWoken?
  }

  /** Nobody is kept waiting but by a lock: a call can start whenever its thread is free, and goes on except that
      entering and leaving wait for the loader to let go of that plugin; a load or unload can start whenever none is
      under way, and goes on except while it sleeps in wait. */
  lemma GuardsAre(owner: string -> nat, s: State, t: nat, p: nat, ok: bool)
    requires Inv(owner, s) && t < |s.callers| && p < |s.plugins|
    ensures Enabled(owner, s, Call(t, p)) <==> s.callers[t].pc == Out
    ensures Enabled(owner, s, CallerStep(t)) <==>
      match s.callers[t].pc
      case Out => false
      case Looked => !Holds(s, s.callers[t].plugin)
      case Leaving => !Holds(s, s.callers[t].plugin)
      case _ => true
    ensures Enabled(owner, s, StartLoad(p)) <==> s.loader == Idle
    ensures Enabled(owner, s, StartUnload(p)) <==> s.loader == Idle
    ensures Enabled(owner, s, LoaderStep(ok, [])) <==> s.loader != Idle && !s.loader.WaitSleep?
    ensures Enabled(owner, s, SpuriousWake) <==> s.loader.WaitSleep?
  {
    hide Callers, NameOk;
    assert PluginOk(owner, s, p) && CallerOk(s, t);
    if s.callers[t].pc != Out {
      assert PluginOk(owner, s, s.callers[t].plugin);
    }
    if s.loader != Idle {
      assert PluginOk(owner, s, s.target);
    }
  }

  /** An unload that is under way can always go on, or some caller it waits for can. */
  lemma UnloadCanGoOn(owner: string -> nat, s: State) returns (step: Step)
    requires Inv(owner, s) && s.loader != Idle
    ensures Enabled(owner, s, step) && (step.LoaderStep? || (step.CallerStep? && s.callers[step.t].plugin == s.target))
  {
    assert PluginOk(owner, s, s.target);
    if s.loader.WaitSleep? {
      var t := SomeCaller(s.callers, s.target);
      assert CallerOk(s, t);
      step := CallerStep(t);
    } else {
      step := LoaderStep(true, []);
    }
  }

  lemma {:induction false} SomeCaller(callers: seq<Caller>, p: nat) returns (t: nat)
    requires Callers(callers, p) > 0
    ensures t < |callers| && Counted(callers[t].pc) && callers[t].plugin == p
  {
    if Counted(callers[0].pc) && callers[0].plugin == p {
      t := 0;
    } else {
      t := SomeCaller(callers[1..], p);
      t := t + 1;
    }
  }

  // ---- a load or unload always ends ----

  function CallerRank(pc: CallerPc): nat {
    match pc
    case Looked => 12
    case Added => 9
    case Inside => 6
    case Leaving => 3
    case Out => 0
  }

  function CallerWork(callers: seq<Caller>): nat {
    if callers == [] then 0 else CallerRank(callers[0].pc) + CallerWork(callers[1..])
  }

  lemma {:induction false} CallerWorkUpdate(callers: seq<Caller>, t: nat, c: Caller)
    requires t < |callers|
    ensures CallerWork(callers[t := c]) == CallerWork(callers) - CallerRank(callers[t].pc) + CallerRank(c.pc)
  {
    if t == 0 {
      assert callers[t := c][1..] == callers[1..];
    } else {
      assert callers[t := c][1..] == callers[1..][t - 1 := c];
      CallerWorkUpdate(callers[1..], t - 1, c);
    }
  }

  function LoaderRank(pc: LoaderPc): nat {
    match pc
    case UnloadLocked => 7
    case WaitWoken(_) => 6
    case WaitTest(_) => 5
    case WaitSleep(_) => 4
    case LoadLocked => 4
    case Opened => 3
    case Unregistering(_) => 3
    case Registering => 2
    case Closing(_) => 2
    case Unlocking => 1
    case Idle => 0
  }

  /** What is left to do, for the loader and for the calls under way: a call that ends may wake the loader. */
  function Work(s: State): nat {
    CallerWork(s.callers) + LoaderRank(s.loader)
  }

  lemma CallerStepLowersWork(s: State, t: nat)
    requires t < |s.callers| && s.callers[t].plugin < |s.plugins| && s.callers[t].pc != Out
    ensures Work(ApplyCaller(s, t)) < Work(s)
  {
    hide CallerWork;
    var r := ApplyCaller(s, t);
    CallerWorkUpdate(s.callers, t, r.callers[t]);
  }

  /** Every step of a load or unload, or of a call under way, uses up a natural number, unless the loader wakes by
      chance. */
  lemma StepLowersWork(owner: string -> nat, s: State, step: Step)
    requires Enabled(owner, s, step) && s.loader != Idle && !step.Call?
    ensures if step.SpuriousWake? then Work(Apply(owner, s, step)) == Work(s) + 2 else Work(Apply(owner, s, step)) < Work(s)
  {
    hide CallerWork, Registered, Unregistered;
    if step.CallerStep? {
      CallerStepLowersWork(s, step.t);
    }
  }

  function Chance(steps: seq<Step>): (n: nat)
    ensures n <= |steps|
  {
    if steps == [] then 0
    else Chance(steps[..|steps| - 1]) + (if steps[|steps| - 1].SpuriousWake? then 1 else 0)
  }

  /** It is the number of chance wake-ups. */
  lemma {:induction false} ChanceCounts(steps: seq<Step>)
    ensures Chance(steps) == |set i | 0 <= i < |steps| && steps[i].SpuriousWake?|
  {
    if steps == [] {
    } else {
      var n := |steps| - 1;
      ChanceCounts(steps[..n]);
      assert (set i | 0 <= i < |steps| && steps[i].SpuriousWake?)
        == (set i | 0 <= i < n && steps[..n][i].SpuriousWake?) + if steps[n].SpuriousWake? then {n} else {};
    }
  }

  /** As long as no new call starts, a load or unload under way ends: whatever the interleaving with the calls
      under way, the steps taken number at most the work there was plus three for each chance wake-up. */
  lemma {:induction false} UnloadIsBounded(owner: string -> nat, states: seq<State>, steps: seq<Step>)
    requires IsRun(owner, states, steps)
    requires forall i | 0 <= i < |steps| :: states[i].loader != Idle && !steps[i].Call?
    ensures |steps| + Work(states[|steps|]) <= Work(states[0]) + 3 * Chance(steps)
  {
    if steps != [] {
      var n := |steps| - 1;
      assert IsRun(owner, states[..n + 1], steps[..n]);
      UnloadIsBounded(owner, states[..n + 1], steps[..n]);
      StepLowersWork(owner, states[n], steps[n]);
    }
  }

  // ---- what a whole load or unload leaves ----

  predicate Same(was: Plugin, now: Plugin) {
    now.state == was.state && now.libOpen == was.libOpen && now.commands == was.commands
  }

  /** A load of a plugin that was so, as far as it has come; answers are those of the dynamic loader and plugin_init
      so far. */
  ghost predicate Loading(was: Plugin, now: Plugin, pc: LoaderPc, answers: seq<(bool, seq<string>)>) {
    if pc == LoadLocked then answers == [] && Same(was, now)
    else if was.state != Unloaded then Same(was, now) && (pc == Unlocking || pc == Idle)
    else if pc == Opened then |answers| == 1 && answers[0].0 && now.state == Unloaded && now.libOpen
    else
      && (pc == Registering || pc == Unlocking || pc == Idle)
      && answers != [] && (forall k | 0 <= k < |answers| - 1 :: answers[k].0)
      && (if answers[|answers| - 1].0 then now.state == Loaded && now.libOpen && now.commands == answers[|answers| - 1].1
          else now.state == Broken && !now.libOpen)
      && (answers[|answers| - 1].0 ==> |answers| == 2)
  }

  /** An unload likewise; answer is that of plugin_shutdown, once it was asked. */
  predicate Unloading(was: Plugin, now: Plugin, pc: LoaderPc, answer: bool) {
    if pc == UnloadLocked then Same(was, now)
    else if was.state != Loaded then Same(was, now) && (pc == Unlocking || pc == Idle)
    else if InTeardown(pc) then Same(was, now) && pc.ok == answer
    else
      && (pc == Unlocking || pc == Idle)
      && now.commands == was.commands
      && (if answer then now.state == Unloaded && !now.libOpen else now.state == Broken && now.libOpen == was.libOpen)
  }

  /** In a load: asked by this step. */
  predicate LoadAsks(s: State, step: Step)
    requires s.target < |s.plugins|
  {
    step.LoaderStep? && (s.loader == Opened || (s.loader == LoadLocked && s.plugins[s.target].state == Unloaded))
  }

  function Answered(s: State, step: Step): seq<(bool, seq<string>)> {
    if s.target < |s.plugins| && LoadAsks(s, step) then [(step.ok, step.commands)] else []
  }

  /** The answers in the first n steps, after the one that starts the load. */
  function Answers(states: seq<State>, steps: seq<Step>, n: nat): seq<(bool, seq<string>)>
    requires n <= |steps| <= |states|
  {
    if n <= 1 then [] else Answers(states, steps, n - 1) + Answered(states[n - 1], steps[n - 1])
  }

  lemma LoadGoesOn(owner: string -> nat, s: State, step: Step, was: Plugin, answers: seq<(bool, seq<string>)>)
    requires Inv(owner, s) && Enabled(owner, s, step) && s.loader != Idle && s.target < |s.plugins|
    requires Loading(was, s.plugins[s.target], s.loader, answers)
    requires was.state == Unloaded ==> !was.libOpen
    ensures var r := Apply(owner, s, step);
      && r.target == s.target && |r.plugins| == |s.plugins|
      && Loading(was, r.plugins[s.target], r.loader, answers + Answered(s, step))
      && forall q | 0 <= q < |s.plugins| && q != s.target :: Same(s.plugins[q], r.plugins[q])
  {
    hide Inv, Registered, Unregistered;
    assert answers + [] == answers;
  }

  lemma LoadStarts(owner: string -> nat, s: State, p: nat)
    requires Enabled(owner, s, StartLoad(p))
    ensures var r := Apply(owner, s, StartLoad(p));
      && r.target == p && |r.plugins| == |s.plugins| && Loading(s.plugins[p], r.plugins[p], r.loader, [])
      && forall q | 0 <= q < |s.plugins| && q != p :: Same(s.plugins[q], r.plugins[q])
  {
  }

  lemma {:induction false} LoadUnderWay(owner: string -> nat, states: seq<State>, steps: seq<Step>, p: nat, n: nat)
    requires IsRun(owner, states, steps) && Inv(owner, states[0]) && 0 < n <= |steps|
    requires p < |states[0].plugins| && steps[0] == StartLoad(p) && forall k | 0 < k < n :: states[k].loader != Idle
    ensures Inv(owner, states[n]) && states[n].target == p && |states[n].plugins| == |states[0].plugins|
    ensures Loading(states[0].plugins[p], states[n].plugins[p], states[n].loader, Answers(states, steps, n))
    ensures forall q | 0 <= q < |states[0].plugins| && q != p :: Same(states[0].plugins[q], states[n].plugins[q])
  {
    hide Loading, Answered, Apply, Inv, PluginOk;
    if n == 1 {
      LoadStarts(owner, states[0], p);
      StepKeepsInv(owner, states[0], steps[0]);
    } else {
      LoadUnderWay(owner, states, steps, p, n - 1);
      ClosedWhenUnloaded(owner, states[0], p);
      LoadGoesOn(owner, states[n - 1], steps[n - 1], states[0].plugins[p], Answers(states, steps, n - 1));
      StepKeepsInv(owner, states[n - 1], steps[n - 1]);
    }
  }

  lemma ClosedWhenUnloaded(owner: string -> nat, s: State, p: nat)
    requires Inv(owner, s) && s.loader == Idle && p < |s.plugins|
    ensures s.plugins[p].state == Unloaded ==> !s.plugins[p].libOpen
  {
    assert PluginOk(owner, s, p);
  }

  /** A whole load, whatever the callers do meanwhile: a plugin that is loaded or broken stays as it is. Otherwise it is
      loaded, its library open and its commands those that plugin_init gave, if everything was answered well, and
      else broken with its library closed. No other plugin changes. */
  lemma LoadEnds(owner: string -> nat, states: seq<State>, steps: seq<Step>, p: nat)
    requires IsRun(owner, states, steps) && Inv(owner, states[0]) && steps != []
    requires p < |states[0].plugins| && steps[0] == StartLoad(p)
    requires states[|steps|].loader == Idle && forall k | 0 < k < |steps| :: states[k].loader != Idle
    ensures |states[|steps|].plugins| == |states[0].plugins|
    ensures forall q | 0 <= q < |states[0].plugins| && q != p :: Same(states[0].plugins[q], states[|steps|].plugins[q])
    ensures var was, now, answers := states[0].plugins[p], states[|steps|].plugins[p], Answers(states, steps, |steps|);
      if was.state != Unloaded then Same(was, now)
      else if forall a | a in answers :: a.0 then
        now.state == Loaded && now.libOpen && |answers| == 2 && now.commands == answers[1].1
      else
        now.state == Broken && !now.libOpen
  {
    hide Answers, Inv, Apply;
    LoadUnderWay(owner, states, steps, p, |steps|);
    var answers := Answers(states, steps, |steps|);
    assert answers != [] ==> answers[|answers| - 1] in answers;
  }

  // ---- unloading ----

  /** Callers, and chance wake-ups, change no plugin but its counter, and at most wake the loader. */
  lemma CallersLeave(owner: string -> nat, s: State, step: Step)
    requires Enabled(owner, s, step) && s.loader != Idle && s.target < |s.plugins| && !step.LoaderStep?
    ensures var r := Apply(owner, s, step);
      && r.target == s.target && |r.plugins| == |s.plugins|
      && (r.loader == s.loader || (s.loader.WaitSleep? && r.loader == WaitWoken(s.loader.ok)))
      && (step.CallerStep? && r.loader != s.loader ==> s.callers[step.t] == Caller(Leaving, s.target))
      && forall q | 0 <= q < |s.plugins| :: Same(s.plugins[q], r.plugins[q])
  {
  }

  lemma UnloadLoaderGoesOn(s: State, ok: bool, commands: seq<string>, was: Plugin, answer: bool)
    requires s.loader != Idle && s.target < |s.plugins|
    requires Unloading(was, s.plugins[s.target], s.loader, answer)
    requires s.loader == UnloadLocked && was.state == Loaded ==> answer == ok
    ensures var r := ApplyLoader(s, ok, commands);
      && r.target == s.target && |r.plugins| == |s.plugins|
      && Unloading(was, r.plugins[s.target], r.loader, answer)
      && forall q | 0 <= q < |s.plugins| && q != s.target :: Same(s.plugins[q], r.plugins[q])
  {
    hide Registered, Unregistered;
  }

  lemma UnloadGoesOn(owner: string -> nat, s: State, step: Step, was: Plugin, answer: bool)
    requires Enabled(owner, s, step) && s.loader != Idle && s.target < |s.plugins|
    requires Unloading(was, s.plugins[s.target], s.loader, answer)
    requires s.loader == UnloadLocked && step.LoaderStep? && was.state == Loaded ==> answer == step.ok
    ensures var r := Apply(owner, s, step);
      && r.target == s.target && |r.plugins| == |s.plugins|
      && Unloading(was, r.plugins[s.target], r.loader, answer)
      && forall q | 0 <= q < |s.plugins| && q != s.target :: Same(s.plugins[q], r.plugins[q])
  {
    hide ApplyLoader, ApplyCaller;
    if step.LoaderStep? {
      UnloadLoaderGoesOn(s, step.ok, step.commands, was, answer);
    } else {
      CallersLeave(owner, s, step);
    }
  }

  lemma UnloadStarts(owner: string -> nat, s: State, p: nat, answer: bool)
    requires Enabled(owner, s, StartUnload(p))
    ensures var r := Apply(owner, s, StartUnload(p));
      && r.target == p && |r.plugins| == |s.plugins| && Unloading(s.plugins[p], r.plugins[p], r.loader, answer)
      && forall q | 0 <= q < |s.plugins| && q != p :: Same(s.plugins[q], r.plugins[q])
  {
  }

  lemma {:induction false} UnloadUnderWay(owner: string -> nat, states: seq<State>, steps: seq<Step>, p: nat, answer: bool, n: nat)
    requires IsRun(owner, states, steps) && Inv(owner, states[0]) && 0 < n <= |steps|
    requires p < |states[0].plugins| && steps[0] == StartUnload(p) && forall k | 0 < k < n :: states[k].loader != Idle
    requires forall k | 0 < k < n && states[k].loader == UnloadLocked && steps[k].LoaderStep? :: steps[k].ok == answer
    ensures Inv(owner, states[n]) && states[n].target == p && |states[n].plugins| == |states[0].plugins|
    ensures Unloading(states[0].plugins[p], states[n].plugins[p], states[n].loader, answer)
    ensures forall q | 0 <= q < |states[0].plugins| && q != p :: Same(states[0].plugins[q], states[n].plugins[q])
  {
    hide Unloading, Apply, Inv, PluginOk;
    if n == 1 {
      UnloadStarts(owner, states[0], p, answer);
      StepKeepsInv(owner, states[0], steps[0]);
    } else {
      UnloadUnderWay(owner, states, steps, p, answer, n - 1);
      UnloadGoesOn(owner, states[n - 1], steps[n - 1], states[0].plugins[p], answer);
      StepKeepsInv(owner, states[n - 1], steps[n - 1]);
    }
  }

  /** A whole unload, whatever the callers do meanwhile: a plugin that is not loaded stays as it is. Otherwise it is
      unloaded with its library closed if plugin_shutdown answered well, and else broken with its library still open.
      No other plugin changes. */
  lemma UnloadEnds(owner: string -> nat, states: seq<State>, steps: seq<Step>, p: nat, answer: bool)
    requires IsRun(owner, states, steps) && Inv(owner, states[0]) && steps != []
    requires p < |states[0].plugins| && steps[0] == StartUnload(p)
    requires states[|steps|].loader == Idle && forall k | 0 < k < |steps| :: states[k].loader != Idle
    requires forall k | 0 < k < |steps| && states[k].loader == UnloadLocked && steps[k].LoaderStep? :: steps[k].ok == answer
    ensures |states[|steps|].plugins| == |states[0].plugins|
    ensures forall q | 0 <= q < |states[0].plugins| && q != p :: Same(states[0].plugins[q], states[|steps|].plugins[q])
    ensures var was, now := states[0].plugins[p], states[|steps|].plugins[p];
      && now.commands == was.commands
      && if was.state != Loaded then Same(was, now)
         else if answer then now.state == Unloaded && !now.libOpen
         else now.state == Broken && now.libOpen
  {
    hide Apply, Callers, NameOk, CallerOk;
    assert PluginOk(owner, states[0], p);
    UnloadUnderWay(owner, states, steps, p, answer, |steps|);
  }
}
