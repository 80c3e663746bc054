/** plugins/workflow.cpp: plugin_onupdate as a whole, and what it does to each job in terms of the events of
    JobControl, about whose runs the theorems there are. */
module WorkflowUpdate {
  import opened JobControl
  import opened WorkflowJobs
  import opened WorkflowProcess

  /** The known jobs in key order, as the loops over known_jobs visit them. */
  method KnownInOrder(known: map<int, ProtectedJob>) returns (pjs: seq<ProtectedJob>)
    requires forall id | id in known :: known[id].id == id
    ensures NoDuplicates(pjs) && forall pj :: pj in pjs <==> pj.id in known && known[pj.id] == pj
    ensures forall i, j | 0 <= i < j < |pjs| :: pjs[i].id < pjs[j].id
  {
    pjs := [];
    var rest := known.Keys;
    while rest != {}
      invariant rest <= known.Keys
      invariant forall pj :: pj in pjs <==> pj.id in known && pj.id !in rest && known[pj.id] == pj
      invariant forall pj, id | pj in pjs && id in rest :: pj.id < id
      invariant forall i, j | 0 <= i < j < |pjs| :: pjs[i].id < pjs[j].id
    {
      var id := Least(rest);
      rest := rest - {id};
      assert forall i | 0 <= i < |pjs| :: pjs[i] in pjs;
      pjs := pjs + [known[id]];
    }
  }

  /** After a check a live job is the one of its id in the list. */
  lemma LiveIsListed(w: Workflow)
    requires w.Valid() && w.Checked()
    ensures forall id | id in w.known && w.known[id].actual != null ::
      w.known[id].actual.id == id && w.known[id].actual in w.jobs
  {
  }

  lemma KeysAgree(w: Workflow)
    requires w.Valid()
    ensures forall id | id in w.known :: w.known[id].id == id && DelayOk(w.known[id])
  {
  }

  /** process_constraints on the known jobs of the plugin. */
  method ProcessKnown(w: Workflow, pass: Pass)
    requires w.Valid() && w.Checked() && PassOk(pass)
    modifies w.known.Values`constraints, w.known.Values`wantResumed, w.known.Values`resumeTime,
      w.known.Values`resumeDelay, (set j | j in w.jobs)`suspend
    modifies pass.cts`jobs, pass.cts`isActive, pass.cts`itemAmount, pass.cts`itemCount, pass.cts`itemInuse,
      pass.cts`materialCache, pass.cts`requestResume, pass.cts`requestSuspend
    ensures w.Valid() && w.Checked() && PassOk(pass)
    ensures forall id | id in w.known :: w.known[id].View() == old(Decided(pass, w.known[id], w.frame))
    ensures forall j | j in w.jobs && j.id !in w.known :: j.suspend == old(j.suspend)
  {
    hide Workflow.Shape, Workflow.Checked, NoDuplicates, PassOk, Decided, ProtectedJob.View, DelayOk;
    KeysAgree(w);
    LiveIsListed(w);
    var pjs := KnownInOrder(w.known);
    assert forall pj | pj in pjs :: pj in w.known.Values && (pj.actual == null || pj.actual in w.jobs);
    ProcessConstraints(pass, pjs, w.frame);
    assert forall id | id in w.known :: w.known[id] in pjs;
  }

  /** An entry that was missing and is still known is the one under its id. */
  lemma FateIsKnown(w: Workflow, tried: bool)
    requires w.Valid()
    ensures forall p, waited, hopeless :: w.Fate(p, tried, waited, hopeless) && p.id in w.known ==> w.known[p.id] == p
  {
  }

  /** A job of the list after the whole update, given the state c the check left it in. */
  ghost predicate HandledAfter(w: Workflow, pass: Pass, due: bool, j: Job, before: map<int, ProtectedJob>, c: Control)
    reads w`known, w`frame, w.known.Values, j`suspend, set id | id in w.known :: w.known[id].actual
    reads pass.cts`byCount, pass.cts`goalCount, pass.cts`gapSetting
  {
    w.Handled(j, before, if j.id in w.known then AfterPass(pass, due, w.known[j.id], w.frame, c) else c)
  }

  /** A job that was missing, after the whole update, given the state it had. */
  ghost predicate Met(w: Workflow, pass: Pass, due: bool, tried: bool, p: ProtectedJob, start: Control, waited: bool, hopeless: bool)
    reads w`known, w`jobs, w`frame, w`pending, w`buildings, w.buildings.Values, p, p.actual
    reads pass.cts`byCount, pass.cts`goalCount, pass.cts`gapSetting
  {
    && w.Fate(p, tried, waited, hopeless)
    && (p.id in w.known ==> p.View() == AfterPass(pass, due, p, w.frame, w.Back(p, start)))
  }

  method PassIfDue(w: Workflow, pass: Pass, due: bool, tried: bool, ghost before: map<int, ProtectedJob>, ghost missing: set<ProtectedJob>)
    requires w.Valid() && PassOk(pass) && (due ==> w.Checked())
    modifies w.known.Values`constraints, w.known.Values`wantResumed, w.known.Values`resumeTime,
      w.known.Values`resumeDelay, (set j | j in w.jobs)`suspend
    modifies pass.cts`jobs, pass.cts`isActive, pass.cts`itemAmount, pass.cts`itemCount, pass.cts`itemInuse,
      pass.cts`materialCache, pass.cts`requestResume, pass.cts`requestSuspend
    ensures w.Valid() && PassOk(pass) && (old(w.Checked()) ==> w.Checked())
    ensures w.Rooms() == old(w.Rooms()) && (!due ==> forall ct | ct in pass.cts :: unchanged(ct))
    ensures forall j, c | j in w.jobs && old(w.Handled(j, before, c)) :: HandledAfter(w, pass, due, j, before, c)
    ensures forall p, start, waited, hopeless | p in missing && old(w.Outcome(p, tried, start, waited, hopeless)) ::
      Met(w, pass, due, tried, p, start, waited, hopeless)
  {
    hide Workflow.Valid, Workflow.Checked, Workflow.Fate, Workflow.Back, Workflow.Rooms, PassOk, AfterPass, ProtectedJob.View;
    NoPassNoChange(pass, w.frame);
    FateIsKnown(w, tried);
    if due {
      ProcessKnown(w, pass);
    }
  }

  /** plugin_onupdate: the state stays valid; each job of the list that was known is ticked and then given its
      goal, a new one starts afresh and is given its goal, each missing one meets its fate and, if it is put
      back, is given its goal. Goals are given when half a day has passed. */
  method PluginOnUpdate(w: Workflow, pass: Pass) returns (due: bool, tried: bool, ghost lost: seq<ProtectedJob>)
    requires w.Valid() && w.BuildingsOk() && w.cnt < 0x1_0000_0000 && PassOk(pass)
    modifies w`known, w`pending, w`curTick, w`jobs, w`cnt, w`lastTickFrame, w`lastFrame, w`lastRlen,
      w.known.Values, (set j | j in w.jobs)`suspend, w.buildings.Values
    modifies pass.cts`jobs, pass.cts`isActive, pass.cts`itemAmount, pass.cts`itemCount, pass.cts`itemInuse,
      pass.cts`materialCache, pass.cts`requestResume, pass.cts`requestSuspend
    ensures w.Valid() && PassOk(pass) && w.cnt == (old(w.cnt) + if w.enabled then 1 else 0) % 0x1_0000_0000
    ensures !w.enabled || w.cnt % 5 != 0 ==> w.Idle() && !due
    ensures !due ==> forall ct | ct in pass.cts :: unchanged(ct)
    ensures w.enabled && w.cnt % 5 == 0 ==>
      && w.Checked() && w.lastRlen == |w.pending| && (due <==> w.frame - old(w.lastFrame) >= DAY_TICKS / 2)
      && tried == (due || |old(w.Missing())| != old(w.lastRlen))
      && NoDuplicates(lost) && (forall p :: p in lost <==> p in old(w.Missing()))
      && Added(old(w.jobs), old(w.Rooms()), lost, w.jobs, w.Rooms())
    ensures w.enabled && w.cnt % 5 == 0 ==> forall j | j in old(w.jobs) ::
      && j in w.jobs && (j.id in w.known <==> old(w.Kept(j, w.known)))
      && HandledAfter(w, pass, due, j, old(w.known), old(w.Ticking(j, w.known, Max(0, w.frame - w.lastTickFrame))))
    ensures w.enabled && w.cnt % 5 == 0 ==> forall p | p in old(w.Missing()) ::
      Met(w, pass, due, tried, p, old(Dormant(p)), old(w.Waits(p)), old(w.Hopeless(p)))
    ensures forall id | id in w.known :: id in old(w.known) || id in old(Ids(w.jobs))
    ensures forall id | id in w.known :: w.known[id] in old(w.known).Values || fresh(w.known[id])
    ensures forall j | j in w.jobs :: j in old(w.jobs) || fresh(j)
  {
    hide Workflow.Valid, Workflow.Checked, Workflow.Kept, Workflow.Handled, Workflow.Outcome, Workflow.Ticking, Workflow.Missing,
         Workflow.BuildingsOk, Workflow.Waits, Workflow.Hopeless, PassOk, Dormant, Max, HandledAfter, Met,
         Added, Workflow.Rooms, NoDuplicates, Ids;
    w.MissingAreKnown();
    due, tried, lost := w.OnUpdate();
    if !w.enabled || w.cnt % 5 != 0 {
      return;
    }
    forall pj | pj in w.known.Values ensures pj in old(w.known).Values || fresh(pj) {
      var id := KeyOf(w.known, pj);
    }
    assert forall j | j in w.jobs :: j in old(w.jobs) || fresh(j);
    ghost var rooms := w.Rooms();
    PassIfDue(w, pass, due, tried, old(w.known), old(w.Missing()));
    assert Added(old(w.jobs), old(w.Rooms()), lost, w.jobs, rooms);
  }

  // ---- an update as events of one job ----

  /** To a known job of the list an update is its suspend flag there, a tick, and the goal of the pass. */
  lemma ListedIsRun(w: Workflow, pass: Pass, due: bool, j: Job, before: map<int, ProtectedJob>, was: Control, suspended: bool, ticks: nat)
    requires j.id in w.known
    requires HandledAfter(w, pass, due, j, before, Ticked(was.(suspended := suspended), w.frame, ticks))
    ensures j.id in before ==> w.known[j.id] == before[j.id]
    ensures var c := Ticked(was.(suspended := suspended), w.frame, ticks);
      w.known[j.id].View()
      == AfterAll(was, [Outside(suspended), Tick(w.frame, ticks)] + Goals(pass, due, w.known[j.id], w.frame, c))
  {
    hide Goals, Ticked;
    var c := Ticked(was.(suspended := suspended), w.frame, ticks);
    AfterTwo(was, Outside(suspended), Tick(w.frame, ticks));
    AfterAllJoined(was, [Outside(suspended), Tick(w.frame, ticks)], Goals(pass, due, w.known[j.id], w.frame, c));
  }

  /** To a missing one that is put back it is a loss and the goal of the pass; one that waits just counts as
      suspended. */
  lemma MissingIsRun(w: Workflow, pass: Pass, due: bool, tried: bool, p: ProtectedJob, was: Control, waited: bool, hopeless: bool)
    requires p.id in w.known && Met(w, pass, due, tried, p, was.(suspended := true), waited, hopeless)
    ensures var c := w.Back(p, was.(suspended := true));
      p.View() == AfterAll(was, (if p.actual == null then [Outside(true)] else [Outside(true), Lost(w.frame)])
                                + Goals(pass, due, p, w.frame, c))
  {
    hide Goals, Recovered, Workflow.Fate;
    var c := w.Back(p, was.(suspended := true));
    AfterOne(was, Outside(true));
    AfterTwo(was, Outside(true), Lost(w.frame));
    AfterAllJoined(was, if p.actual == null then [Outside(true)] else [Outside(true), Lost(w.frame)], Goals(pass, due, p, w.frame, c));
  }

  /** Before its time comes no goal unsuspends a job. */
  lemma NoEarlyResume(c: Control, frame: int, goals: seq<Event>)
    requires c.suspended && frame < c.time
    requires |goals| <= 1 && forall e | e in goals :: e.Goal? && e.frame == frame
    ensures AfterAll(c, goals).suspended
    ensures goals != [Goal(false, frame)] ==> AfterAll(c, goals).time == c.time
  {
    if goals != [] {
      assert goals == [goals[0]] && goals[0] in goals;
      AfterOne(c, goals[0]);
    }
  }
}
