/** library/Core.cpp: Suspend, Resume and the drain loop of Update, as an interleaving of atomic steps.
    Locking, unlocking, testing a predicate and going to sleep are separate steps; a waiter may wake
    without having been notified; any number of tool threads take part. */
module Handshake {

  /** Where a tool thread is. It owns a condition from WantStack on. */
  datatype ToolPc =
    | Idle         // outside Suspend and Resume, not holding the game
    | WantStack    // Suspend: condition made, about to lock StackMutex
    | InStack      // about to push the condition
    | Pushed       // about to unlock StackMutex
    | WantAccess   // about to lock AccessMutex
    | Checking     // holds AccessMutex, tests the predicate
    | Waiting      // asleep on the condition, AccessMutex released
    | Woken        // awake, wants AccessMutex back
    | Taken        // predicate reset, about to unlock AccessMutex
    | Running      // Suspend returned: the tool owns the game
    | WantResume   // Resume: about to lock AccessMutex
    | InResume     // about to set core_cond and notify
    | Resumed      // about to unlock AccessMutex

  /** Where the simulation thread is; all but Outside hold StackMutex. */
  datatype SimPc = Outside | LoopTest | SimWantAccess | Signal | CoreChecking | CoreWaiting | CoreWoken | CoreTaken | Delete

  /** The life of a condition, in order. A history value: no step looks at it. */
  datatype Life = Made | OnStack | Popped | Signalled | Entered | Returned | Deleted

  datatype Holder = Free | Sim | Tool(id: nat)

  datatype Cond = Cond(owner: nat, raised: bool, life: Life)

  datatype ToolState = ToolState(pc: ToolPc, cond: nat)

  datatype State = State(
    tools: seq<ToolState>,
    sim: SimPc,
    hand: nat,             // the condition Update popped last
    stackMutex: Holder,
    accessMutex: Holder,
    stack: seq<nat>,       // suspended_tools, top last
    conds: seq<Cond>,
    core: bool)            // core_cond's predicate

  datatype Step = ToolStep(t: nat) | SimStep | ToolSpurious(t: nat) | SimSpurious {
    predicate IsSpurious() { ToolSpurious? || SimSpurious? }
  }

  ghost predicate Init(s: State) {
    && (forall t | 0 <= t < |s.tools| :: s.tools[t].pc == Idle)
    && s.sim == Outside && s.stackMutex == Free && s.accessMutex == Free
    && s.stack == [] && s.conds == [] && !s.core
  }

  predicate Enabled(s: State, step: Step) {
    match step
    case ToolStep(t) =>
      t < |s.tools| &&
      (match s.tools[t].pc
       case WantStack => s.stackMutex == Free
       case WantAccess => s.accessMutex == Free
       case Woken => s.accessMutex == Free
       case WantResume => s.accessMutex == Free
       case Waiting => false
       case _ => true)
    case SimStep =>
      (match s.sim
       case Outside => s.stackMutex == Free
       case SimWantAccess => s.accessMutex == Free
       case CoreWoken => s.accessMutex == Free
       case CoreWaiting => false
       case _ => true)
    case ToolSpurious(t) => t < |s.tools| && s.tools[t].pc == Waiting
    case SimSpurious => s.sim == CoreWaiting
  }

  function Move(s: State, t: nat, pc: ToolPc): State
    requires t < |s.tools|
  {
    s.(tools := s.tools[t := s.tools[t].(pc := pc)])
  }

  function SetCond(s: State, c: nat, raised: bool, life: Life): State {
    if c < |s.conds| then s.(conds := s.conds[c := s.conds[c].(raised := raised, life := life)]) else s
  }

  predicate Raised(s: State, c: nat) {
    c < |s.conds| && s.conds[c].raised
  }

  /** Suspend up to the unlocking of StackMutex. */
  function StackStep(s: State, t: nat): State
    requires t < |s.tools|
  {
    var c := s.tools[t].cond;
    match s.tools[t].pc
    case Idle => s.(tools := s.tools[t := ToolState(WantStack, |s.conds|)], conds := s.conds + [Cond(t, false, Made)])
    case WantStack => Move(s, t, InStack).(stackMutex := Tool(t))
    case InStack => SetCond(Move(s, t, Pushed).(stack := s.stack + [c]), c, Raised(s, c), OnStack)
    case Pushed => Move(s, t, WantAccess).(stackMutex := Free)
    case _ => s
  }

  /** Cond::Lock under AccessMutex, up to the end of Suspend. */
  function LockStep(s: State, t: nat): State
    requires t < |s.tools|
  {
    var c := s.tools[t].cond;
    match s.tools[t].pc
    case WantAccess => Move(s, t, Checking).(accessMutex := Tool(t))
    case Checking =>
      if Raised(s, c) then SetCond(Move(s, t, Taken), c, false, Entered)
      else Move(s, t, Waiting).(accessMutex := Free)
    case Woken => Move(s, t, Checking).(accessMutex := Tool(t))
    case Taken => Move(s, t, Running).(accessMutex := Free)
    case _ => s
  }

  /** The tool's work with the game, then Resume. */
  function ResumeStep(s: State, t: nat): State
    requires t < |s.tools|
  {
    var c := s.tools[t].cond;
    match s.tools[t].pc
    case Running => Move(s, t, WantResume)
    case WantResume => Move(s, t, InResume).(accessMutex := Tool(t))
    case InResume =>
      SetCond(Move(s, t, Resumed).(core := true, sim := if s.sim == CoreWaiting then CoreWoken else s.sim),
              c, Raised(s, c), Returned)
    case Resumed => Move(s, t, Idle).(accessMutex := Free)
    case _ => s
  }

  predicate InStackPart(pc: ToolPc) { pc == Idle || pc == WantStack || pc == InStack || pc == Pushed }

  predicate InLockPart(pc: ToolPc) { pc == WantAccess || pc == Checking || pc == Woken || pc == Taken }

  function ApplyTool(s: State, t: nat): State
    requires Enabled(s, ToolStep(t))
  {
    if InStackPart(s.tools[t].pc) then StackStep(s, t)
    else if InLockPart(s.tools[t].pc) then LockStep(s, t)
    else ResumeStep(s, t)
  }

  /** notify_one on a condition: its waiter, if asleep, wakes. Only the owner ever waits on it. */
  function Notify(s: State, c: nat): State {
    if c < |s.conds| && s.conds[c].owner < |s.tools| && s.tools[s.conds[c].owner] == ToolState(Waiting, c)
    then Move(s, s.conds[c].owner, Woken) else s
  }

  /** Update's loop around the hand-offs. */
  function DrainStep(s: State): State {
    match s.sim
    case Outside => s.(sim := LoopTest, stackMutex := Sim)
    case LoopTest =>
      if s.stack == [] then s.(sim := Outside, stackMutex := Free)
      else
        var top := s.stack[|s.stack| - 1];
        SetCond(s.(sim := SimWantAccess, hand := top, stack := s.stack[..|s.stack| - 1]), top, Raised(s, top), Popped)
    case Delete => SetCond(s.(sim := LoopTest), s.hand, false, Deleted)
    case _ => s
  }

  /** One hand-off, under AccessMutex. */
  function HandOffStep(s: State): State {
    match s.sim
    case SimWantAccess => s.(sim := Signal, accessMutex := Sim)
    case Signal => SetCond(Notify(s, s.hand).(sim := CoreChecking), s.hand, true, Signalled)
    case CoreChecking =>
      if s.core then s.(sim := CoreTaken, core := false)
      else s.(sim := CoreWaiting, accessMutex := Free)
    case CoreWoken => s.(sim := CoreChecking, accessMutex := Sim)
    case CoreTaken => s.(sim := Delete, accessMutex := Free)
    case _ => s
  }

  predicate InDrainPart(sim: SimPc) { sim == Outside || sim == LoopTest || sim == Delete }

  function ApplySim(s: State): State
    requires Enabled(s, SimStep)
  {
    if InDrainPart(s.sim) then DrainStep(s) else HandOffStep(s)
  }

  function Apply(s: State, step: Step): State
    requires Enabled(s, step)
  {
    match step
    case ToolStep(t) => ApplyTool(s, t)
    case SimStep => ApplySim(s)
    case ToolSpurious(t) => Move(s, t, Woken)
    case SimSpurious => s.(sim := CoreWoken)
  }

  // ---- the invariant ----

  /** Between the push and the return from Lock. */
  predicate Parked(pc: ToolPc) {
    pc == Pushed || pc == WantAccess || pc == Checking || pc == Waiting || pc == Woken
  }

  /** Between the end of Lock and the notification in Resume: the tool has the game. */
  predicate Holding(pc: ToolPc) {
    pc == Taken || pc == Running || pc == WantResume || pc == InResume
  }

  predicate InCoreWait(sim: SimPc) {
    sim == CoreChecking || sim == CoreWaiting || sim == CoreWoken
  }

  /** The simulation thread may touch the game: it is not waiting for it to be given back. */
  predicate SimHasGame(s: State) {
    !InCoreWait(s.sim)
  }

  ghost predicate ToolOk(s: State, t: nat)
    requires t < |s.tools|
  {
    var pc := s.tools[t].pc;
    var c := s.tools[t].cond;
    && (s.stackMutex == Tool(t) <==> pc == InStack || pc == Pushed)
    && (s.accessMutex == Tool(t) <==> pc == Checking || pc == Taken || pc == InResume || pc == Resumed)
    && (pc != Idle ==> c < |s.conds| && s.conds[c].owner == t)
    && (pc == WantStack || pc == InStack ==> s.conds[c].life == Made)
    && (Parked(pc) ==> s.conds[c].life == OnStack || s.conds[c].life == Popped || s.conds[c].life == Signalled)
    && (Holding(pc) ==> s.conds[c].life == Entered)
    && (pc == Waiting ==> !s.conds[c].raised)
  }

  /** A condition's life says where its owner is, where the simulation thread is, and where the token is. */
  ghost predicate CondOk(s: State, c: nat)
    requires c < |s.conds|
  {
    var o := s.conds[c].owner;
    var life := s.conds[c].life;
    && o < |s.tools|
    && (s.conds[c].raised <==> life == Signalled)
    && (life == Made ==> s.tools[o].cond == c && (s.tools[o].pc == WantStack || s.tools[o].pc == InStack))
    && (life == OnStack || life == Popped || life == Signalled ==> s.tools[o].cond == c && Parked(s.tools[o].pc))
    && (life == Entered ==> s.tools[o].cond == c && Holding(s.tools[o].pc))
    && (life == OnStack <==> c in s.stack)
    && (life == Popped ==> s.hand == c && (s.sim == SimWantAccess || s.sim == Signal))
    && (life == Signalled || life == Entered ==> s.hand == c && InCoreWait(s.sim) && !s.core)
    && (life == Returned ==> s.hand == c)
    && (life == Returned ==> if s.core then InCoreWait(s.sim) else s.sim == CoreTaken || s.sim == Delete)
  }

  ghost predicate SimOk(s: State) {
    && (s.stackMutex == Sim <==> s.sim != Outside)
    && (s.accessMutex == Sim <==> s.sim == Signal || s.sim == CoreChecking || s.sim == CoreTaken)
    && (s.stackMutex.Tool? ==> s.stackMutex.id < |s.tools|)
    && (s.accessMutex.Tool? ==> s.accessMutex.id < |s.tools|)
    && (s.sim != Outside && s.sim != LoopTest ==> s.hand < |s.conds|)
    && (s.sim == SimWantAccess || s.sim == Signal ==> s.conds[s.hand].life == Popped)
    && (InCoreWait(s.sim) ==> s.conds[s.hand].life == (if s.core then Returned else s.conds[s.hand].life)
                              && (s.conds[s.hand].life == Signalled || s.conds[s.hand].life == Entered || s.conds[s.hand].life == Returned))
    && (s.sim == CoreTaken || s.sim == Delete ==> s.conds[s.hand].life == Returned)
    && (s.core ==> InCoreWait(s.sim))
    && (s.sim == CoreWaiting ==> !s.core)
    && (forall i, j | 0 <= i < j < |s.stack| :: s.stack[i] != s.stack[j])
    && (forall i | 0 <= i < |s.stack| :: s.stack[i] < |s.conds|)
  }

  ghost predicate Inv(s: State) {
    && SimOk(s)
    && (forall t | 0 <= t < |s.tools| :: ToolOk(s, t))
    && (forall c | 0 <= c < |s.conds| :: CondOk(s, c))
  }

  lemma InitInv(s: State)
    requires Init(s)
    ensures Inv(s)
  {
  }

  // Each kind of step keeps each part of the invariant.

  lemma DrainStepKeepsTool(s: State, t: nat)
    requires Inv(s) && Enabled(s, SimStep) && t < |s.tools|
    requires InDrainPart(s.sim)
    ensures |DrainStep(s).tools| == |s.tools| && ToolOk(DrainStep(s), t)
  {
    assert ToolOk(s, t);
    assert s.sim == LoopTest && s.stack != [] ==> CondOk(s, s.stack[|s.stack| - 1]);
    assert s.sim == Delete ==> CondOk(s, s.hand);
  }

  lemma PopKeepsCond(s: State, c: nat)
    requires Inv(s) && s.sim == LoopTest && s.stack != [] && c < |s.conds|
    ensures |DrainStep(s).conds| == |s.conds| && CondOk(DrainStep(s), c)
  {
    hide ToolOk;
    var top := s.stack[|s.stack| - 1];
    assert CondOk(s, c) && CondOk(s, top);
    assert s.stack == s.stack[..|s.stack| - 1] + [top];
    assert c in s.stack <==> c == top || c in s.stack[..|s.stack| - 1];
  }

  lemma DrainStepKeepsCond(s: State, c: nat)
    requires Inv(s) && Enabled(s, SimStep) && c < |s.conds|
    requires InDrainPart(s.sim)
    ensures |DrainStep(s).conds| == |s.conds| && CondOk(DrainStep(s), c)
  {
    hide ToolOk;
    if s.sim == LoopTest && s.stack != [] {
      PopKeepsCond(s, c);
    } else {
      assert CondOk(s, c);
      assert s.sim == Delete ==> CondOk(s, s.hand);
    }
  }

  lemma DrainStepKeepsSim(s: State)
    requires Inv(s) && Enabled(s, SimStep)
    requires InDrainPart(s.sim)
    ensures SimOk(DrainStep(s))
  {
  }

  lemma HandOffStepKeepsTool(s: State, t: nat)
    requires Inv(s) && Enabled(s, SimStep) && t < |s.tools|
    requires !InDrainPart(s.sim)
    ensures |HandOffStep(s).tools| == |s.tools| && ToolOk(HandOffStep(s), t)
  {
    assert ToolOk(s, t);
    assert CondOk(s, s.hand);
  }

  lemma HandOffStepKeepsCond(s: State, c: nat)
    requires Inv(s) && Enabled(s, SimStep) && c < |s.conds|
    requires !InDrainPart(s.sim)
    ensures |HandOffStep(s).conds| == |s.conds| && CondOk(HandOffStep(s), c)
  {
    assert CondOk(s, c);
    assert CondOk(s, s.hand);
  }

  lemma HandOffStepKeepsSim(s: State)
    requires Inv(s) && Enabled(s, SimStep)
    requires !InDrainPart(s.sim)
    ensures SimOk(HandOffStep(s))
  {
  }

  lemma StackStepKeepsTool(s: State, t: nat, u: nat)
    requires Inv(s) && Enabled(s, ToolStep(t)) && u < |s.tools|
    requires InStackPart(s.tools[t].pc)
    ensures |StackStep(s, t).tools| == |s.tools| && ToolOk(StackStep(s, t), u)
  {
    assert ToolOk(s, t) && ToolOk(s, u);
    var c := s.tools[t].cond;
    assert c < |s.conds| ==> CondOk(s, c);
  }

  lemma StackStepKeepsCond(s: State, t: nat, d: nat)
    requires Inv(s) && Enabled(s, ToolStep(t)) && d < |StackStep(s, t).conds|
    requires InStackPart(s.tools[t].pc)
    ensures CondOk(StackStep(s, t), d)
  {
    assert ToolOk(s, t);
    assert d < |s.conds| ==> CondOk(s, d);
    var c := s.tools[t].cond;
    assert c < |s.conds| ==> CondOk(s, c);
  }

  lemma StackStepKeepsSim(s: State, t: nat)
    requires Inv(s) && Enabled(s, ToolStep(t))
    requires InStackPart(s.tools[t].pc)
    ensures SimOk(StackStep(s, t))
  {
    assert ToolOk(s, t);
    var c := s.tools[t].cond;
    assert c < |s.conds| ==> CondOk(s, c);
  }

  lemma LockStepKeepsTool(s: State, t: nat, u: nat)
    requires Inv(s) && Enabled(s, ToolStep(t)) && u < |s.tools|
    requires InLockPart(s.tools[t].pc)
    ensures |LockStep(s, t).tools| == |s.tools| && ToolOk(LockStep(s, t), u)
  {
    assert ToolOk(s, t) && ToolOk(s, u);
    var c := s.tools[t].cond;
    assert c < |s.conds| ==> CondOk(s, c);
  }

  lemma LockStepKeepsCond(s: State, t: nat, d: nat)
    requires Inv(s) && Enabled(s, ToolStep(t)) && d < |LockStep(s, t).conds|
    requires InLockPart(s.tools[t].pc)
    ensures CondOk(LockStep(s, t), d)
  {
    assert ToolOk(s, t);
    assert d < |s.conds| ==> CondOk(s, d);
    var c := s.tools[t].cond;
    assert c < |s.conds| ==> CondOk(s, c);
  }

  lemma LockStepKeepsSim(s: State, t: nat)
    requires Inv(s) && Enabled(s, ToolStep(t))
    requires InLockPart(s.tools[t].pc)
    ensures SimOk(LockStep(s, t))
  {
    assert ToolOk(s, t);
    var c := s.tools[t].cond;
    assert c < |s.conds| ==> CondOk(s, c);
  }

  lemma ResumeStepKeepsSelf(s: State, t: nat)
    requires Inv(s) && Enabled(s, ToolStep(t))
    requires !InStackPart(s.tools[t].pc) && !InLockPart(s.tools[t].pc)
    ensures |ResumeStep(s, t).tools| == |s.tools| && ToolOk(ResumeStep(s, t), t)
  {
    assert ToolOk(s, t);
    var c := s.tools[t].cond;
    assert c < |s.conds| ==> CondOk(s, c);
  }

  lemma ResumeStepKeepsOther(s: State, t: nat, u: nat)
    requires Inv(s) && Enabled(s, ToolStep(t)) && u < |s.tools| && u != t
    requires !InStackPart(s.tools[t].pc) && !InLockPart(s.tools[t].pc)
    ensures |ResumeStep(s, t).tools| == |s.tools| && ToolOk(ResumeStep(s, t), u)
  {
    assert ToolOk(s, t) && ToolOk(s, u);
  }

  lemma ResumeStepKeepsCond(s: State, t: nat, d: nat)
    requires Inv(s) && Enabled(s, ToolStep(t)) && d < |ResumeStep(s, t).conds|
    requires !InStackPart(s.tools[t].pc) && !InLockPart(s.tools[t].pc)
    ensures CondOk(ResumeStep(s, t), d)
  {
    assert ToolOk(s, t);
    assert d < |s.conds| ==> CondOk(s, d);
    var c := s.tools[t].cond;
    assert c < |s.conds| ==> CondOk(s, c);
  }

  lemma ResumeStepKeepsSim(s: State, t: nat)
    requires Inv(s) && Enabled(s, ToolStep(t))
    requires !InStackPart(s.tools[t].pc) && !InLockPart(s.tools[t].pc)
    ensures SimOk(ResumeStep(s, t))
  {
    assert ToolOk(s, t);
    var c := s.tools[t].cond;
    assert c < |s.conds| ==> CondOk(s, c);
  }

  /** Every step of every thread, woken by chance or not, keeps the invariant. */
  lemma StepKeepsInv(s: State, step: Step)
    requires Inv(s) && Enabled(s, step)
    ensures Inv(Apply(s, step))
  {
    hide ToolOk, CondOk, SimOk, StackStep, LockStep, ResumeStep, DrainStep, HandOffStep, InStackPart, InLockPart, InDrainPart;
    var r := Apply(s, step);
    match step
    case ToolStep(t) =>
      ToolStepKeepsInv(s, t);
    case SimStep =>
      SimStepKeepsInv(s);
    case ToolSpurious(t) =>
      SpuriousKeepsInv(s, step);
    case SimSpurious =>
      SpuriousKeepsInv(s, step);
  }

  lemma ToolStepKeepsInv(s: State, t: nat)
    requires Inv(s) && Enabled(s, ToolStep(t))
    ensures Inv(ApplyTool(s, t))
  {
    hide ToolOk, CondOk, SimOk, StackStep, LockStep, ResumeStep, InStackPart, InLockPart;
    if InStackPart(s.tools[t].pc) {
      forall u | 0 <= u < |s.tools| { StackStepKeepsTool(s, t, u); }
      forall d | 0 <= d < |StackStep(s, t).conds| { StackStepKeepsCond(s, t, d); }
      StackStepKeepsTool(s, t, t);
      StackStepKeepsSim(s, t);
    } else if InLockPart(s.tools[t].pc) {
      forall u | 0 <= u < |s.tools| { LockStepKeepsTool(s, t, u); }
      forall d | 0 <= d < |LockStep(s, t).conds| { LockStepKeepsCond(s, t, d); }
      LockStepKeepsTool(s, t, t);
      LockStepKeepsSim(s, t);
    } else {
      ResumeStepKeepsSelf(s, t);
      forall u | 0 <= u < |s.tools| && u != t { ResumeStepKeepsOther(s, t, u); }
      forall d | 0 <= d < |ResumeStep(s, t).conds| { ResumeStepKeepsCond(s, t, d); }
      ResumeStepKeepsSim(s, t);
    }
  }

  lemma SimStepKeepsInv(s: State)
    requires Inv(s) && Enabled(s, SimStep)
    ensures Inv(ApplySim(s))
  {
    hide ToolOk, CondOk, SimOk, DrainStep, HandOffStep, InDrainPart;
    SimStepKeepsCounts(s);
    if InDrainPart(s.sim) {
      forall t | 0 <= t < |s.tools| { DrainStepKeepsTool(s, t); }
      forall c | 0 <= c < |s.conds| { DrainStepKeepsCond(s, c); }
      DrainStepKeepsSim(s);
    } else {
      forall t | 0 <= t < |s.tools| { HandOffStepKeepsTool(s, t); }
      forall c | 0 <= c < |s.conds| { HandOffStepKeepsCond(s, c); }
      HandOffStepKeepsSim(s);
    }
  }

  lemma SimStepKeepsCounts(s: State)
    requires Enabled(s, SimStep)
    ensures |ApplySim(s).tools| == |s.tools| && |ApplySim(s).conds| == |s.conds|
  {
  }

  lemma SpuriousKeepsInv(s: State, step: Step)
    requires Inv(s) && Enabled(s, step) && step.IsSpurious()
    ensures Inv(Apply(s, step))
  {
    var r := Apply(s, step);
    forall t | 0 <= t < |r.tools| ensures ToolOk(r, t) {
      assert ToolOk(s, t);
    }
    forall c | 0 <= c < |r.conds| ensures CondOk(r, c) {
      assert CondOk(s, c);
    }
  }
}
