/** plugins/workflow.cpp: deciding which jobs run, and why that does not oscillate. */
module WorkflowDecisions {
  import opened JobControl

  /** Some constraint asks for more, and none asks to stop with more weight. */
  predicate MustRun(cts: seq<ItemConstraint>)
    reads cts
  {
    exists i :: 0 <= i < |cts| && cts[i].requestResume
      && forall j | 0 <= j < |cts| && cts[j].requestSuspend :: cts[j].weight <= cts[i].weight
  }

  /** Some constraint asks to stop, and outweighs every one that asks for more. */
  predicate MustStop(cts: seq<ItemConstraint>)
    reads cts
  {
    exists i :: 0 <= i < |cts| && cts[i].requestSuspend
      && forall j | 0 <= j < |cts| && cts[j].requestResume :: cts[j].weight < cts[i].weight
  }

  predicate Asks(ct: ItemConstraint, resume: bool)
    reads ct
  {
    if resume then ct.requestResume else ct.requestSuspend
  }

  /** w is the greatest weight among those that ask, or -1 when none does. */
  predicate Heaviest(cts: seq<ItemConstraint>, n: nat, resume: bool, w: int)
    requires n <= |cts|
    reads cts
  {
    && -1 <= w
    && (w >= 0 ==> exists i :: 0 <= i < n && Asks(cts[i], resume) && cts[i].weight == w)
    && (forall i | 0 <= i < n && Asks(cts[i], resume) :: cts[i].weight <= w)
  }

  /** The two maxima and the choice between them come to this: resuming wins ties. */
  method DecideGoal(cts: seq<ItemConstraint>, current: bool) returns (goal: bool)
    requires forall ct | ct in cts :: ct.weight >= 0
    ensures goal == if MustRun(cts) then true else if MustStop(cts) then false else current
  {
    var resumeWeight, suspendWeight := -1, -1;
    for i := 0 to |cts|
      invariant Heaviest(cts, i, true, resumeWeight) && Heaviest(cts, i, false, suspendWeight)
    {
      assert cts[i] in cts;
      if cts[i].requestResume {
        resumeWeight := Max(resumeWeight, cts[i].weight);
      }
      if cts[i].requestSuspend {
        suspendWeight := Max(suspendWeight, cts[i].weight);
      }
    }
    assert forall i | 0 <= i < |cts| :: cts[i] in cts;
    if resumeWeight >= 0 {
      var i :| 0 <= i < |cts| && Asks(cts[i], true) && cts[i].weight == resumeWeight;
      assert resumeWeight >= suspendWeight ==> MustRun(cts);
    }
    if suspendWeight >= 0 {
      var i :| 0 <= i < |cts| && Asks(cts[i], false) && cts[i].weight == suspendWeight;
      assert resumeWeight < suspendWeight ==> MustStop(cts);
    }
    goal := current;
    if resumeWeight >= 0 && resumeWeight >= suspendWeight {
      goal := true;
    } else if suspendWeight >= 0 && suspendWeight >= resumeWeight {
      goal := false;
    }
  }

  /** Where one pass leaves a job: a melt job follows the melt count when that option is on, a job
      without constraints or without a live counterpart is left alone, the others follow their requests.
      A job nobody asks about is set to what it already is. */
  ghost function Target(pj: ProtectedJob, frame: int, autoMelt: bool, meltType: int, meltable: int): Control
    reads pj, pj.actual, pj.constraints
  {
    if pj.actual != null && pj.actual.jobType == meltType && autoMelt then Set(pj.View(), meltable > 0, frame)
    else if pj.actual == null || pj.constraints == [] then pj.View()
    else Set(pj.View(), if MustRun(pj.constraints) then true else if MustStop(pj.constraints) then false
                        else pj.IsResumed(), frame)
  }

  method UpdateJob(pj: ProtectedJob, frame: int, autoMelt: bool, meltType: int, meltable: int)
    requires forall ct | ct in pj.constraints :: ct.weight >= 0
    modifies pj`wantResumed, pj`resumeTime, pj`resumeDelay, {pj.actual}`suspend
    ensures pj.View() == old(Target(pj, frame, autoMelt, meltType, meltable))
    ensures old(DelayOk(pj)) ==> DelayOk(pj)
  {
    hide MustRun, MustStop;
    if pj.actual == null {
      return;
    }
    if pj.actual.jobType == meltType && autoMelt {
      pj.SetResumed(meltable > 0, frame);
      return;
    }
    if pj.constraints == [] {
      return;
    }
    var goal := DecideGoal(pj.constraints, pj.IsResumed());
    pj.SetResumed(goal, frame);
  }

  /** update_jobs_by_constraints, over the known jobs in key order. */
  method UpdateJobs(pjs: seq<ProtectedJob>, frame: int, autoMelt: bool, meltType: int, meltable: int)
    requires NoDuplicates(pjs)
    requires forall i, j | 0 <= i < j < |pjs| && pjs[i].actual != null :: pjs[i].actual != pjs[j].actual
    requires forall pj, ct | pj in pjs && ct in pj.constraints :: ct.weight >= 0
    modifies pjs`wantResumed, pjs`resumeTime, pjs`resumeDelay, (set pj | pj in pjs :: pj.actual)`suspend
    ensures forall pj | pj in pjs :: pj.View() == old(Target(pj, frame, autoMelt, meltType, meltable))
    ensures forall pj | pj in pjs && old(DelayOk(pj)) :: DelayOk(pj)
  {
    hide MustRun, MustStop, Set, DelayOk;
    for i := 0 to |pjs|
      invariant forall k | 0 <= k < |pjs| && old(DelayOk(pjs[k])) :: DelayOk(pjs[k])
      invariant forall k | 0 <= k < i :: pjs[k].View() == old(Target(pjs[k], frame, autoMelt, meltType, meltable))
      invariant forall k | i <= k < |pjs| ::
        Target(pjs[k], frame, autoMelt, meltType, meltable) == old(Target(pjs[k], frame, autoMelt, meltType, meltable))
    {
      UpdateJob(pjs[i], frame, autoMelt, meltType, meltable);
    }
  }

  // ---- hysteresis ----

  /** What happens to one job governed by one constraint while nobody edits anything: ticks, and passes
      that find a number of items. */
  datatype Happening = Tick(frame: nat, ticks: nat) | Pass(frame: nat, size: int)

  function Next(c: Control, goal: int, gap: int, h: Happening): Control {
    match h
    case Tick(frame, ticks) => Ticked(c, frame, ticks)
    case Pass(frame, size) =>
      Set(c, if size <= goal - gap then true else if size >= goal then false else c.IsResumed(), frame)
  }

  /** The pass is what Target makes of a single constraint whose requests were just computed. */
  lemma SingleConstraintPass(pj: ProtectedJob, ct: ItemConstraint, frame: nat, meltType: int, meltable: int)
    requires pj.actual != null && pj.constraints == [ct]
    requires ct.requestResume <==> ct.Size() <= ct.goalCount - GoalGap(ct.goalCount, ct.gapSetting)
    requires ct.requestSuspend <==> ct.Size() >= ct.goalCount
    ensures Target(pj, frame, false, meltType, meltable)
      == Next(pj.View(), ct.goalCount, GoalGap(ct.goalCount, ct.gapSetting), Pass(frame, ct.Size()))
  {
    assert pj.constraints[0] == ct;
  }

  ghost predicate IsHistory(cs: seq<Control>, hs: seq<Happening>, goal: int, gap: int) {
    && |cs| == |hs| + 1
    && forall i | 0 <= i < |hs| :: cs[i + 1] == Next(cs[i], goal, gap, hs[i])
  }

  /** A job the plugin waits to resume has a time to wait for. */
  predicate Steady(c: Control) {
    c.suspended && c.want ==> c.time > 0
  }

  lemma {:induction false} HistoryIsSteady(cs: seq<Control>, hs: seq<Happening>, goal: int, gap: int, i: nat)
    requires IsHistory(cs, hs, goal, gap) && Steady(cs[0]) && i < |cs|
    ensures Steady(cs[i])
  {
    if i > 0 {
      HistoryIsSteady(cs, hs, goal, gap, i - 1);
    }
  }

  /** Opposite flips are at least the gap apart: between switching a job on and switching it off (in
      either order) the count must have moved by the gap, so by at least one item. */
  lemma OppositeFlipsAreAGapApart(cs: seq<Control>, hs: seq<Happening>, goalCount: int, gapSetting: int, i: nat, j: nat)
    requires var gap := GoalGap(goalCount, gapSetting); IsHistory(cs, hs, goalCount, gap)
    requires Steady(cs[0]) && i < |hs| && j < |hs|
    requires !cs[i].IsResumed() && cs[i + 1].IsResumed()
    requires cs[j].IsResumed() && !cs[j + 1].IsResumed()
    ensures hs[i].Pass? && hs[j].Pass? && hs[j].size - hs[i].size >= GoalGap(goalCount, gapSetting) >= 1
  {
    var gap := GoalGap(goalCount, gapSetting);
    HistoryIsSteady(cs, hs, goalCount, gap, i);
    HistoryIsSteady(cs, hs, goalCount, gap, j);
  }

  /** A pass that asks nothing still cancels the back-off of a suspended job nobody wants: after it the
      next request resumes the job at once. A job that was wanted keeps its time. */
  lemma NeutralPassCancelsBackOff(c: Control, goal: int, gap: int, size: int, frame: nat, later: nat)
    requires goal - gap < size < goal && c.suspended
    ensures Set(Next(c, goal, gap, Pass(frame, size)), true, later).suspended
      <==> c.want && frame < c.time && later < c.time
  {
  }
}
