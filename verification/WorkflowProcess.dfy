/** plugins/workflow.cpp: process_constraints, the three passes together. Which jobs run afterwards follows
    from the items alone, whatever the mapping lists, the counters and the caches held before. */
module WorkflowProcess {
  import opened JobControl
  import opened WorkflowConstraints
  import opened WorkflowItems
  import opened WorkflowDecisions

  /** What a pass of process_constraints goes by: the constraints, the outputs of each job, the items, and the
      melt option. */
  datatype Pass = Pass(m: Matching, k: Kinds, cts: seq<ItemConstraint>, outputs: map<int, seq<Output>>,
                       items: seq<Item>, autoMelt: bool, meltType: int)

  ghost predicate PassOk(pass: Pass)
    reads pass.cts`materialCache
  {
    NoDuplicates(pass.cts) && forall ct | ct in pass.cts :: ct.weight >= 0 && CacheSound(pass.m, ct)
  }

  ghost function Available(m: Matching, k: Kinds, ct: ItemConstraint, items: seq<Item>): int
    reads ct`byCount
  {
    var t := TallyAll(m, k, ct, items);
    if ct.byCount then t.count else t.amount
  }

  ghost predicate Short(m: Matching, k: Kinds, ct: ItemConstraint, items: seq<Item>)
    reads ct`byCount, ct`goalCount, ct`gapSetting
  {
    Available(m, k, ct, items) <= ct.goalCount - GoalGap(ct.goalCount, ct.gapSetting)
  }

  ghost predicate Enough(m: Matching, k: Kinds, ct: ItemConstraint, items: seq<Item>)
    reads ct`byCount, ct`goalCount
  {
    Available(m, k, ct, items) >= ct.goalCount
  }

  /** By count, the number of free matching items is what matters, and otherwise the sum of their stacks. */
  lemma AvailableIs(m: Matching, k: Kinds, ct: ItemConstraint, items: seq<Item>)
    ensures var free := it => Wanted(m, ct, it) && !InUse(k, it);
      var n := if ct.byCount then |Where(items, free)| else Stacks(Those(items, free));
      && (Short(m, k, ct, items) <==> n <= ct.goalCount - GoalGap(ct.goalCount, ct.gapSetting))
      && (Enough(m, k, ct, items) <==> n >= ct.goalCount)
  {
    hide TallyAll, Where, Those, Stacks, Wanted, InUse;
    TallyIsExact(m, k, ct, items);
  }

  /** Some constraint on the job's products is short, and none that has enough outweighs it. */
  ghost predicate Demanded(m: Matching, k: Kinds, cts: seq<ItemConstraint>, outs: seq<Output>, items: seq<Item>)
    reads cts`byCount, cts`goalCount, cts`gapSetting
  {
    exists ct :: ct in cts && Governs(m, ct, outs) && Short(m, k, ct, items)
      && forall other | other in cts && Governs(m, other, outs) && Enough(m, k, other, items) :: other.weight <= ct.weight
  }

  /** Some constraint on the job's products has enough, and outweighs every one that is short. */
  ghost predicate Satisfied(m: Matching, k: Kinds, cts: seq<ItemConstraint>, outs: seq<Output>, items: seq<Item>)
    reads cts`byCount, cts`goalCount, cts`gapSetting
  {
    exists ct :: ct in cts && Governs(m, ct, outs) && Enough(m, k, ct, items)
      && forall other | other in cts && Governs(m, other, outs) && Short(m, k, other, items) :: other.weight < ct.weight
  }

  /** The goal process_constraints sets a live job, if any: a melt job follows the melt count when that option
      is on, a job nobody constrains is left alone, one about which nobody asks is set to what it is. */
  ghost function GoalsFor(m: Matching, k: Kinds, cts: seq<ItemConstraint>, outs: seq<Output>, items: seq<Item>,
                          frame: int, autoMelt: bool, melts: bool, c: Control): seq<Event>
    reads cts`byCount, cts`goalCount, cts`gapSetting
  {
    if melts && autoMelt then [Goal(Meltable(items) > 0, frame)]
    else if forall ct | ct in cts :: !Governs(m, ct, outs) then []
    else [Goal(if Demanded(m, k, cts, outs, items) then true
               else if Satisfied(m, k, cts, outs, items) then false
               else c.IsResumed(), frame)]
  }

  /** The goal events of one pass for a job in state c: none when no pass is due or the job is not live. */
  ghost function Goals(pass: Pass, due: bool, pj: ProtectedJob, frame: int, c: Control): seq<Event>
    reads pj`actual, pass.cts`byCount, pass.cts`goalCount, pass.cts`gapSetting
  {
    if !due || pj.actual == null then []
    else GoalsFor(pass.m, pass.k, pass.cts, OutputsOf(pass.outputs, pj), pass.items, frame, pass.autoMelt,
                  pj.actual.jobType == pass.meltType, c)
  }

  lemma GoalsAreGoals(pass: Pass, due: bool, pj: ProtectedJob, frame: int, c: Control)
    ensures var gs := Goals(pass, due, pj, frame, c); |gs| <= 1 && forall e | e in gs :: e.Goal? && e.frame == frame
  {
  }

  /** The state after a pass, if one is due. */
  ghost function AfterPass(pass: Pass, due: bool, pj: ProtectedJob, frame: int, c: Control): Control
    reads pj`actual, pass.cts`byCount, pass.cts`goalCount, pass.cts`gapSetting
  {
    AfterAll(c, Goals(pass, due, pj, frame, c))
  }

  lemma NoPassNoChange(pass: Pass, frame: int)
    ensures forall pj, c :: AfterPass(pass, false, pj, frame, c) == c
  {
  }

  /** What the whole of process_constraints makes of one job. */
  ghost function Decided(pass: Pass, pj: ProtectedJob, frame: int): Control
    reads pj`actual, pj`wantResumed, pj`resumeTime, pj`resumeDelay, pj.actual
    reads pass.cts`byCount, pass.cts`goalCount, pass.cts`gapSetting
  {
    AfterPass(pass, true, pj, frame, pj.View())
  }

  /** The lists and the requests say what the items say. */
  ghost predicate Counted(m: Matching, k: Kinds, cts: seq<ItemConstraint>, items: seq<Item>)
    reads cts
  {
    forall ct | ct in cts ::
      (ct.requestResume <==> Short(m, k, ct, items)) && (ct.requestSuspend <==> Enough(m, k, ct, items))
  }

  ghost predicate Linked(m: Matching, pj: ProtectedJob, cts: seq<ItemConstraint>, outs: seq<Output>)
    reads pj
  {
    && (forall ct | ct in pj.constraints :: ct in cts)
    && (forall ct | ct in cts :: ct in pj.constraints <==> pj.actual != null && Governs(m, ct, outs))
  }

  lemma MustRunIffDemanded(m: Matching, k: Kinds, pj: ProtectedJob, cts: seq<ItemConstraint>, outs: seq<Output>, items: seq<Item>)
    requires pj.actual != null && Linked(m, pj, cts, outs) && Counted(m, k, cts, items)
    ensures MustRun(pj.constraints) <==> Demanded(m, k, cts, outs, items)
  {
  }

  lemma MustStopIffSatisfied(m: Matching, k: Kinds, pj: ProtectedJob, cts: seq<ItemConstraint>, outs: seq<Output>, items: seq<Item>)
    requires pj.actual != null && Linked(m, pj, cts, outs) && Counted(m, k, cts, items)
    ensures MustStop(pj.constraints) <==> Satisfied(m, k, cts, outs, items)
  {
  }

  /** What the third pass aims at, given what the first two have done. */
  lemma TargetIsDecided(pass: Pass, pj: ProtectedJob, frame: int)
    requires Linked(pass.m, pj, pass.cts, OutputsOf(pass.outputs, pj)) && Counted(pass.m, pass.k, pass.cts, pass.items)
    ensures Target(pj, frame, pass.autoMelt, pass.meltType, Meltable(pass.items)) == Decided(pass, pj, frame)
  {
    hide MustRun, MustStop, Demanded, Satisfied, Governs, Counted, Set, Meltable, OutputsOf;
    var outs := OutputsOf(pass.outputs, pj);
    if pj.actual != null {
      var goals := Goals(pass, true, pj, frame, pj.View());
      if goals != [] {
        AfterOne(pj.View(), goals[0]);
      }
      MustRunIffDemanded(pass.m, pass.k, pj, pass.cts, outs, pass.items);
      MustStopIffSatisfied(pass.m, pass.k, pj, pass.cts, outs, pass.items);
      assert pj.constraints == [] <==> forall ct | ct in pass.cts :: !Governs(pass.m, ct, outs) by {
        assert pj.constraints != [] ==> pj.constraints[0] in pj.constraints;
      }
    }
  }

  lemma NothingToDo(pass: Pass, pj: ProtectedJob, frame: int)
    requires pass.cts == [] && !pass.autoMelt
    ensures Decided(pass, pj, frame) == pj.View()
  {
  }

  lemma MappedIsLinked(m: Matching, pjs: seq<ProtectedJob>, cts: seq<ItemConstraint>, outputs: map<int, seq<Output>>, pj: ProtectedJob)
    requires Mapped(m, pjs, |pjs|, cts, outputs) && pj in pjs
    ensures Linked(m, pj, cts, OutputsOf(outputs, pj))
  {
  }

  /** The first two passes. */
  method MapAndCount(m: Matching, k: Kinds, pjs: seq<ProtectedJob>, cts: seq<ItemConstraint>,
                     outputs: map<int, seq<Output>>, items: seq<Item>) returns (meltable: int)
    requires NoDuplicates(pjs) && NoDuplicates(cts)
    requires forall ct | ct in cts :: CacheSound(m, ct)
    modifies pjs`constraints, cts`jobs, cts`isActive
    modifies cts`itemAmount, cts`itemCount, cts`itemInuse, cts`materialCache, cts`requestResume, cts`requestSuspend
    ensures forall ct | ct in cts :: CacheSound(m, ct)
    ensures Counted(m, k, cts, items) && meltable == Meltable(items)
    ensures forall pj | pj in pjs :: Linked(m, pj, cts, OutputsOf(outputs, pj))
  {
    hide Governs, Meltable, CacheSound, TallyAll, OutputsOf, Mapped, Linked, NoDuplicates;
    MapJobConstraints(m, pjs, cts, outputs);
    forall pj | pj in pjs ensures Linked(m, pj, cts, OutputsOf(outputs, pj)) {
      MappedIsLinked(m, pjs, cts, outputs, pj);
    }
    meltable := MapJobItems(m, k, cts, items);
  }

  method ProcessConstraints(pass: Pass, pjs: seq<ProtectedJob>, frame: int)
    requires NoDuplicates(pjs) && PassOk(pass)
    requires forall i, j | 0 <= i < j < |pjs| && pjs[i].actual != null :: pjs[i].actual != pjs[j].actual
    modifies pjs`constraints, pjs`wantResumed, pjs`resumeTime, pjs`resumeDelay, (set pj | pj in pjs :: pj.actual)`suspend
    modifies pass.cts`jobs, pass.cts`isActive, pass.cts`itemAmount, pass.cts`itemCount, pass.cts`itemInuse,
      pass.cts`materialCache, pass.cts`requestResume, pass.cts`requestSuspend
    ensures PassOk(pass)
    ensures forall pj | pj in pjs :: pj.View() == old(Decided(pass, pj, frame))
    ensures forall pj | pj in pjs && old(DelayOk(pj)) :: DelayOk(pj)
  {
    hide MustRun, MustStop, GoalsFor, Governs, Set, Meltable, CacheSound, TallyAll, OutputsOf, Counted, NoDuplicates,
         Target, DelayOk, ProtectedJob.View;
    if pass.cts == [] && !pass.autoMelt {
      forall pj | pj in pjs ensures pj.View() == Decided(pass, pj, frame) {
        NothingToDo(pass, pj, frame);
      }
      return;
    }
    var meltable := MapAndCount(pass.m, pass.k, pjs, pass.cts, pass.outputs, pass.items);
    forall pj | pj in pjs
      ensures Target(pj, frame, pass.autoMelt, pass.meltType, meltable) == old(Decided(pass, pj, frame))
    {
      TargetIsDecided(pass, pj, frame);
    }
    UpdateJobs(pjs, frame, pass.autoMelt, pass.meltType, meltable);
  }
}
