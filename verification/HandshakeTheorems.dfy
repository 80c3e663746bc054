/** What the handshake guarantees in every state of every interleaving. */
module HandshakeTheorems {
  import opened Handshake

  // ---- runs ----

  ghost predicate IsRun(states: seq<State>, steps: seq<Step>) {
    && |states| == |steps| + 1
    && forall i | 0 <= i < |steps| :: Enabled(states[i], steps[i]) && states[i + 1] == Apply(states[i], steps[i])
  }

  lemma {:induction false} RunKeepsInv(states: seq<State>, steps: seq<Step>, i: nat)
    requires IsRun(states, steps) && Inv(states[0]) && i < |states|
    ensures Inv(states[i])
  {
    if i > 0 {
      RunKeepsInv(states, steps, i - 1);
      StepKeepsInv(states[i - 1], steps[i - 1]);
    }
  }

  // ---- one access token ----

  ghost function Holders(s: State): set<nat> {
    set t: nat | t < |s.tools| && Holding(s.tools[t].pc)
  }

  ghost function RaisedConds(s: State): set<nat> {
    set c: nat | c < |s.conds| && s.conds[c].raised
  }

  /** Tools that have the game, raised conditions, the raised core condition, and the simulation
      thread when it is not waiting for the game: each counts one token. */
  ghost function Tokens(s: State): nat {
    |Holders(s)| + |RaisedConds(s)| + (if s.core then 1 else 0) + (if SimHasGame(s) then 1 else 0)
  }

  lemma ExactlyOneToken(states: seq<State>, steps: seq<Step>, i: nat)
    requires IsRun(states, steps) && Init(states[0]) && i < |states|
    ensures Tokens(states[i]) == 1
  {
    InitInv(states[0]);
    RunKeepsInv(states, steps, i);
    var s := states[i];
    HoldersAre(s);
    RaisedAre(s);
    if InCoreWait(s.sim) {
      assert CondOk(s, s.hand);
    }
  }

  lemma HoldersAre(s: State)
    requires Inv(s)
    ensures Holders(s) == if InCoreWait(s.sim) && s.conds[s.hand].life == Entered then {s.conds[s.hand].owner} else {}
  {
    forall t: nat | t < |s.tools| && Holding(s.tools[t].pc)
      ensures InCoreWait(s.sim) && s.conds[s.hand].life == Entered && t == s.conds[s.hand].owner
    {
      assert ToolOk(s, t) && CondOk(s, s.tools[t].cond);
    }
    if InCoreWait(s.sim) {
      assert CondOk(s, s.hand);
    }
  }

  lemma RaisedAre(s: State)
    requires Inv(s)
    ensures RaisedConds(s) == if InCoreWait(s.sim) && s.conds[s.hand].life == Signalled then {s.hand} else {}
  {
    forall c: nat | c < |s.conds| && s.conds[c].raised
      ensures InCoreWait(s.sim) && s.conds[s.hand].life == Signalled && c == s.hand
    {
      assert CondOk(s, c);
    }
    if InCoreWait(s.sim) {
      assert CondOk(s, s.hand);
    }
  }

  /** Two tools never have the game together, and the simulation thread never has it beside a tool. */
  lemma ExclusiveAccess(states: seq<State>, steps: seq<Step>, i: nat, t: nat, u: nat)
    requires IsRun(states, steps) && Init(states[0]) && i < |states|
    requires t < |states[i].tools| && u < |states[i].tools|
    requires Holding(states[i].tools[t].pc) && Holding(states[i].tools[u].pc)
    ensures t == u && !SimHasGame(states[i])
  {
    InitInv(states[0]);
    RunKeepsInv(states, steps, i);
    HoldersAre(states[i]);
    assert t in Holders(states[i]) && u in Holders(states[i]);
  }

  // ---- the life of a condition ----

  function Age(life: Life): nat {
    match life
    case Made => 0
    case OnStack => 1
    case Popped => 2
    case Signalled => 3
    case Entered => 4
    case Returned => 5
    case Deleted => 6
  }

  /** Each condition is pushed, popped, signalled, entered, handed back and deleted exactly once, in
      this order: no step skips or repeats a stage. */
  lemma LivesAdvanceByOne(s: State, step: Step, c: nat)
    requires Inv(s) && Enabled(s, step) && c < |s.conds|
    ensures c < |Apply(s, step).conds| && Apply(s, step).conds[c].owner == s.conds[c].owner
    ensures Age(s.conds[c].life) <= Age(Apply(s, step).conds[c].life) <= Age(s.conds[c].life) + 1
  {
    hide ApplyTool, ApplySim, SimOk, CondOk, ToolOk, Age;
    match step
    case ToolStep(t) => ToolAdvancesLives(s, t, c);
    case SimStep => SimAdvancesLives(s, c);
    case _ =>
  }

  lemma ToolAdvancesLives(s: State, t: nat, c: nat)
    requires Inv(s) && Enabled(s, ToolStep(t)) && c < |s.conds|
    ensures c < |ApplyTool(s, t).conds| && ApplyTool(s, t).conds[c].owner == s.conds[c].owner
    ensures Age(s.conds[c].life) <= Age(ApplyTool(s, t).conds[c].life) <= Age(s.conds[c].life) + 1
  {
    assert ToolOk(s, t);
    if s.tools[t].pc != Idle {
      assert CondOk(s, s.tools[t].cond);
    }
  }

  lemma SimAdvancesLives(s: State, c: nat)
    requires Inv(s) && Enabled(s, SimStep) && c < |s.conds|
    ensures c < |ApplySim(s).conds| && ApplySim(s).conds[c].owner == s.conds[c].owner
    ensures Age(s.conds[c].life) <= Age(ApplySim(s).conds[c].life) <= Age(s.conds[c].life) + 1
  {
    if s.sim == LoopTest && s.stack != [] {
      assert CondOk(s, s.stack[|s.stack| - 1]);
    } else if s.hand < |s.conds| {
      assert CondOk(s, s.hand);
    }
  }

  /** When Update deletes a condition its waiter has left Lock: no thread will look at it again. */
  lemma DeletedAfterUse(s: State, t: nat)
    requires Inv(s) && s.sim == Delete && t < |s.tools|
    requires s.tools[t].pc != Idle && s.tools[t].pc != Resumed
    ensures s.tools[t].cond != s.hand
    ensures s.tools[t].cond < |s.conds| && s.conds[s.tools[t].cond].life != Deleted
  {
    assert ToolOk(s, t) && CondOk(s, s.hand) && CondOk(s, s.tools[t].cond);
  }

  // ---- a drain always ends ----

  /** How far a tool is from its next stop. During a drain nobody is between the two StackMutex calls. */
  function ToolRank(pc: ToolPc): nat {
    match pc
    case WantAccess => 9
    case Woken => 9
    case Checking => 8
    case Waiting => 7
    case Taken => 6
    case Running => 5
    case WantResume => 4
    case InResume => 3
    case Resumed => 2
    case Idle => 1
    case _ => 0
  }

  function RankSum(tools: seq<ToolState>): (r: nat)
    ensures r <= 9 * |tools|
  {
    if tools == [] then 0 else ToolRank(tools[0].pc) + RankSum(tools[1..])
  }

  lemma {:induction false} RankSumUpdate(tools: seq<ToolState>, t: nat, x: ToolState)
    requires t < |tools|
    ensures RankSum(tools[t := x]) == RankSum(tools) - ToolRank(tools[t].pc) + ToolRank(x.pc)
  {
    if t == 0 {
      assert tools[t := x][1..] == tools[1..];
    } else {
      assert tools[t := x][1..] == tools[1..][t - 1 := x];
      RankSumUpdate(tools[1..], t - 1, x);
    }
  }

  function SimRank(sim: SimPc): nat {
    if sim == CoreWoken then 2 else if sim == CoreChecking then 1 else 0
  }

  /** How far the current hand-off is. */
  function Phase(s: State): nat {
    match s.sim
    case Outside => 0
    case LoopTest => 1
    case Delete => 2
    case CoreTaken => 3
    case SimWantAccess => 8
    case Signal => 7
    case _ =>
      if s.hand < |s.conds| && s.conds[s.hand].life == Signalled then 6
      else if s.hand < |s.conds| && s.conds[s.hand].life == Entered then 5
      else 4
  }

  /** Hand-offs left, then the state of the current one. StackMutex keeps the first term from growing. */
  function HandOffs(s: State): nat {
    9 * |s.stack| + Phase(s)
  }

  function LocalWork(s: State): nat {
    RankSum(s.tools) + SimRank(s.sim)
  }

  function Measure(s: State): nat {
    HandOffs(s) * (9 * |s.tools| + 3) + LocalWork(s)
  }

  predicate Forward(s: State, r: State) {
    HandOffs(r) < HandOffs(s) || (HandOffs(r) == HandOffs(s) && LocalWork(r) < LocalWork(s))
  }

  lemma StackStepProgress(s: State, t: nat)
    requires Inv(s) && Enabled(s, ToolStep(t)) && s.sim != Outside
    requires InStackPart(s.tools[t].pc)
    ensures Forward(s, StackStep(s, t))
  {
    assert ToolOk(s, t);
    var r := StackStep(s, t);
    assert r.tools == s.tools[t := r.tools[t]];
    RankSumUpdate(s.tools, t, r.tools[t]);
  }

  lemma LockStepProgress(s: State, t: nat)
    requires Inv(s) && Enabled(s, ToolStep(t)) && s.sim != Outside
    requires InLockPart(s.tools[t].pc)
    ensures Forward(s, LockStep(s, t))
  {
    assert ToolOk(s, t);
    var r := LockStep(s, t);
    assert r.tools == s.tools[t := r.tools[t]];
    RankSumUpdate(s.tools, t, r.tools[t]);
    if s.tools[t].pc != Idle {
      assert CondOk(s, s.tools[t].cond);
    }
  }

  lemma ResumeStepProgress(s: State, t: nat)
    requires Enabled(s, ToolStep(t)) && s.sim != Outside
    requires !InStackPart(s.tools[t].pc) && !InLockPart(s.tools[t].pc) && s.tools[t].pc != InResume
    ensures Forward(s, ResumeStep(s, t))
  {
    var r := ResumeStep(s, t);
    assert r.tools == s.tools[t := r.tools[t]];
    RankSumUpdate(s.tools, t, r.tools[t]);
  }

  /** Giving the game back moves the hand-off on, and wakes the simulation thread if it sleeps. */
  lemma GivingBackProgress(s: State, t: nat)
    requires Inv(s) && Enabled(s, ToolStep(t)) && s.sim != Outside && s.tools[t].pc == InResume
    ensures Forward(s, ResumeStep(s, t))
  {
    assert ToolOk(s, t) && CondOk(s, s.tools[t].cond);
  }

  lemma ToolProgress(s: State, t: nat)
    requires Inv(s) && Enabled(s, ToolStep(t)) && s.sim != Outside
    ensures Forward(s, ApplyTool(s, t))
  {
    hide Inv, StackStep, LockStep, ResumeStep, InStackPart, InLockPart, Forward;
    if InStackPart(s.tools[t].pc) {
      StackStepProgress(s, t);
    } else if InLockPart(s.tools[t].pc) {
      LockStepProgress(s, t);
    } else if s.tools[t].pc == InResume {
      GivingBackProgress(s, t);
    } else {
      ResumeStepProgress(s, t);
    }
  }

  lemma SimProgress(s: State)
    requires Inv(s) && Enabled(s, SimStep) && s.sim != Outside
    ensures Forward(s, ApplySim(s))
  {
  }

  lemma SpuriousCost(s: State, step: Step)
    requires Enabled(s, step) && step.IsSpurious()
    ensures Measure(Apply(s, step)) <= Measure(s) + 2
  {
    var r := Apply(s, step);
    assert HandOffs(r) == HandOffs(s) && |r.tools| == |s.tools|;
    assert LocalWork(r) <= LocalWork(s) + 2 by {
      if step.ToolSpurious? {
        RankSumUpdate(s.tools, step.t, ToolState(Woken, s.tools[step.t].cond));
      }
    }
  }

  lemma ToolCountFixed(s: State, step: Step)
    requires Enabled(s, step)
    ensures |Apply(s, step).tools| == |s.tools|
  {
  }

  /** Every step of a drain that is not a chance wake-up uses up a natural number. */
  lemma DrainStepLowersMeasure(s: State, step: Step)
    requires Inv(s) && Enabled(s, step) && s.sim != Outside && !step.IsSpurious()
    ensures Measure(Apply(s, step)) < Measure(s)
  {
    hide ApplyTool, ApplySim, Inv, HandOffs, LocalWork, Enabled;
    var r := Apply(s, step);
    if step.ToolStep? {
      ToolProgress(s, step.t);
    } else {
      SimProgress(s);
    }
    ToolCountFixed(s, step);
    LocalWorkBound(r);
    Lexicographic(HandOffs(s), HandOffs(r), LocalWork(s), LocalWork(r), 9 * |s.tools| + 3);
  }

  lemma LocalWorkBound(s: State)
    ensures LocalWork(s) <= 9 * |s.tools| + 2
  {
  }

  lemma Lexicographic(a: nat, a': nat, b: nat, b': nat, k: nat)
    requires b' < k
    requires a' < a || (a' == a && b' < b)
    ensures a' * k + b' < a * k + b
  {
    if a' < a {
      assert (a' + 1) * k <= a * k;
    }
  }

  function Chance(steps: seq<Step>): (n: nat)
    ensures n <= |steps|
  {
    if steps == [] then 0
    else Chance(steps[..|steps| - 1]) + (if steps[|steps| - 1].IsSpurious() then 1 else 0)
  }

  /** It is the number of chance wake-ups. */
  lemma {:induction false} ChanceCounts(steps: seq<Step>)
    ensures Chance(steps) == |set i | 0 <= i < |steps| && steps[i].IsSpurious()|
  {
    if steps == [] {
    } else {
      var n := |steps| - 1;
      ChanceCounts(steps[..n]);
      assert (set i | 0 <= i < |steps| && steps[i].IsSpurious())
        == (set i | 0 <= i < n && steps[..n][i].IsSpurious()) + if steps[n].IsSpurious() then {n} else {};
    }
  }

  /** A drain ends: whatever the interleaving, the steps taken inside it number at most its measure
      at the start plus three for each chance wake-up. */
  lemma {:induction false} DrainIsBounded(states: seq<State>, steps: seq<Step>)
    requires IsRun(states, steps) && Inv(states[0])
    requires forall i | 0 <= i < |steps| :: states[i].sim != Outside
    ensures |steps| - Chance(steps) + Measure(states[|steps|]) <= Measure(states[0]) + 2 * Chance(steps)
  {
    if steps != [] {
      var n := |steps| - 1;
      assert IsRun(states[..n + 1], steps[..n]);
      DrainIsBounded(states[..n + 1], steps[..n]);
      RunKeepsInv(states, steps, n);
      if steps[n].IsSpurious() {
        SpuriousCost(states[n], steps[n]);
      } else {
        DrainStepLowersMeasure(states[n], steps[n]);
      }
    }
  }

  // ---- and never gets stuck ----

  /** A step that takes the protocol forward: not a chance wake-up, and not the start of a new Suspend. */
  predicate Useful(s: State, step: Step) {
    && Enabled(s, step)
    && !step.IsSpurious()
    && (step.ToolStep? ==> s.tools[step.t].pc != Idle)
  }

  /** Whenever the drain is under way some thread can take it forward; when the simulation thread is
      asleep on core_cond (no wake-up can have been lost) that thread is a tool. */
  lemma DrainCanGoOn(s: State) returns (step: Step)
    requires Inv(s) && s.sim != Outside
    ensures Useful(s, step)
    ensures s.sim == CoreWaiting ==> step.ToolStep?
  {
    if s.accessMutex.Tool? {
      step := ToolStep(s.accessMutex.id);
      assert ToolOk(s, s.accessMutex.id);
    } else if s.sim != CoreWaiting {
      step := SimStep;
    } else {
      assert CondOk(s, s.hand);
      step := ToolStep(s.conds[s.hand].owner);
      assert ToolOk(s, s.conds[s.hand].owner);
    }
  }

  /** Nobody who was parked when a drain was under way is left behind when it ends. */
  lemma DrainServesEveryone(states: seq<State>, steps: seq<Step>, c: nat)
    requires IsRun(states, steps) && Inv(states[0])
    requires steps != [] && states[|steps| - 1].sim != Outside && states[|steps|].sim == Outside
    requires c < |states[0].conds| && states[0].conds[c].life != Made
    ensures c < |states[|steps|].conds| && states[|steps|].conds[c].life == Deleted
  {
    var n := |steps| - 1;
    LivesNeverGoBack(states, steps, c, n);
    RunKeepsInv(states, steps, n);
    var s := states[n];
    assert CondOk(s, c);
    assert steps[n] == SimStep && s.sim == LoopTest && s.stack == [] by {
      OnlyEmptyDrainEnds(s, steps[n]);
    }
    LivesAdvanceByOne(s, steps[n], c);
  }

  lemma OnlyEmptyDrainEnds(s: State, step: Step)
    requires Enabled(s, step) && s.sim != Outside && Apply(s, step).sim == Outside
    ensures step == SimStep && s.sim == LoopTest && s.stack == []
  {
  }

  lemma {:induction false} LivesNeverGoBack(states: seq<State>, steps: seq<Step>, c: nat, i: nat)
    requires IsRun(states, steps) && Inv(states[0]) && i < |states|
    requires c < |states[0].conds|
    ensures c < |states[i].conds| && Age(states[0].conds[c].life) <= Age(states[i].conds[c].life)
  {
    if i > 0 {
      LivesNeverGoBack(states, steps, c, i - 1);
      RunKeepsInv(states, steps, i - 1);
      LivesAdvanceByOne(states[i - 1], steps[i - 1], c);
    }
  }

  // ---- who is served first ----

  lemma ToolPushes(s: State, t: nat)
    requires Enabled(s, ToolStep(t))
    ensures var now := ApplyTool(s, t).stack; now == s.stack || now == s.stack + [s.tools[t].cond]
  {
  }

  lemma SimPops(s: State)
    requires Enabled(s, SimStep) && forall i | 0 <= i < |s.stack| :: s.stack[i] < |s.conds|
    ensures var now := ApplySim(s);
      || now.stack == s.stack
      || (s.stack != [] && s.stack == now.stack + [now.hand] && now.hand < |now.conds| && now.conds[now.hand].life == Popped)
  {
    if s.stack != [] {
      assert s.stack == s.stack[..|s.stack| - 1] + [s.stack[|s.stack| - 1]];
    }
  }

  /** A step leaves suspended_tools alone, pushes one condition on top, or pops the top one. */
  lemma StackSteps(s: State, step: Step)
    requires Inv(s) && Enabled(s, step)
    ensures var now := Apply(s, step);
      || now.stack == s.stack
      || (exists c :: now.stack == s.stack + [c])
      || (s.stack != [] && s.stack == now.stack + [now.hand] && now.hand < |now.conds| && now.conds[now.hand].life == Popped)
  {
    hide ToolOk, CondOk, ApplyTool, ApplySim;
    match step
    case ToolStep(t) => ToolPushes(s, t);
    case SimStep => SimPops(s);
    case _ =>
  }

  /** The tool that suspended last is served first: while a condition waits in suspended_tools, so does everything
      that was pushed before it. */
  lemma {:induction false} NewestFirst(states: seq<State>, steps: seq<Step>, j: nat, i: nat)
    requires IsRun(states, steps) && Inv(states[0]) && i < |states| && j < |states[0].stack|
    requires states[0].stack[j] < |states[i].conds| && states[i].conds[states[0].stack[j]].life == OnStack
    ensures j < |states[i].stack| && states[i].stack[..j + 1] == states[0].stack[..j + 1]
    ensures forall k | 0 <= k < j ::
      states[0].stack[k] < |states[i].conds| && states[i].conds[states[0].stack[k]].life == OnStack
  {
    hide Apply, ToolOk;
    var d := states[0].stack[j];
    if i > 0 {
      var was, now := states[i - 1], states[i];
      RunKeepsInv(states, steps, 0);
      RunKeepsInv(states, steps, i - 1);
      assert CondOk(states[0], d);
      LivesNeverGoBack(states, steps, d, i - 1);
      LivesAdvanceByOne(was, steps[i - 1], d);
      NewestFirst(states, steps, j, i - 1);
      StackSteps(was, steps[i - 1]);
      assert was.stack[j] == was.stack[..j + 1][j] == d;
    }
    RunKeepsInv(states, steps, i);
    forall k | 0 <= k < j
      ensures states[0].stack[k] < |states[i].conds| && states[i].conds[states[0].stack[k]].life == OnStack
    {
      assert states[i].stack[k] == states[i].stack[..j + 1][k] == states[0].stack[k];
      assert CondOk(states[i], states[0].stack[k]);
    }
  }

  // ---- who waits for whom ----

  predicate SimHasAccess(sim: SimPc) {
    sim == Signal || sim == CoreChecking || sim == CoreTaken
  }

  predicate HasAccess(pc: ToolPc) {
    pc == Checking || pc == Taken || pc == InResume || pc == Resumed
  }

  /** StackMutex is between the push of some tool and its unlocking, or the whole of Update. */
  ghost predicate StackIsFree(s: State) {
    s.sim == Outside && forall t | 0 <= t < |s.tools| :: s.tools[t].pc != InStack && s.tools[t].pc != Pushed
  }

  ghost predicate AccessIsFree(s: State) {
    !SimHasAccess(s.sim) && forall t | 0 <= t < |s.tools| :: !HasAccess(s.tools[t].pc)
  }

  lemma MutexesAre(s: State)
    requires Inv(s)
    ensures s.stackMutex == Free <==> StackIsFree(s)
    ensures s.accessMutex == Free <==> AccessIsFree(s)
  {
    hide CondOk;
    forall t: nat | t < |s.tools|
      ensures s.stackMutex == Tool(t) <==> s.tools[t].pc == InStack || s.tools[t].pc == Pushed
      ensures s.accessMutex == Tool(t) <==> HasAccess(s.tools[t].pc)
    {
      assert ToolOk(s, t);
    }
    assert s.stackMutex.Tool? ==> ToolOk(s, s.stackMutex.id);
    assert s.accessMutex.Tool? ==> ToolOk(s, s.accessMutex.id);
  }

  /** Nobody is kept waiting but by a mutex that somebody is using, or by sleeping on a condition. */
  lemma GuardsAre(s: State, t: nat)
    requires Inv(s) && t < |s.tools|
    ensures Enabled(s, ToolStep(t)) <==>
      match s.tools[t].pc
      case WantStack => StackIsFree(s)
      case WantAccess => AccessIsFree(s)
      case Woken => AccessIsFree(s)
      case WantResume => AccessIsFree(s)
      case Waiting => false
      case _ => true
    ensures Enabled(s, SimStep) <==>
      match s.sim
      case Outside => StackIsFree(s)
      case SimWantAccess => AccessIsFree(s)
      case CoreWoken => AccessIsFree(s)
      case CoreWaiting => false
      case _ => true
    ensures Enabled(s, ToolSpurious(t)) <==> s.tools[t].pc == Waiting
    ensures Enabled(s, SimSpurious) <==> s.sim == CoreWaiting
  {
    hide Inv, StackIsFree, AccessIsFree;
    MutexesAre(s);
  }
}
