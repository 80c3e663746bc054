/** plugins/workflow.cpp: runs of the workflow plugin. In each turn the game and the player do what they like, and
    then plugin_onupdate is called. What they do is left open by nondeterministic assignments, so that what is
    proved of a run holds whatever they choose. */
module WorkflowRun {
  import opened JobControl
  import opened WorkflowJobs
  import opened WorkflowConstraints
  import opened WorkflowItems
  import opened WorkflowProcess
  import opened WorkflowUpdate

  // ---- one update, seen by one job ----

  /** The suspend flags of the jobs in the list, by id. */
  ghost function Flags(jobs: seq<Job>): map<int, bool>
    reads jobs`suspend
  {
    map id | id in Ids(jobs) :: exists j :: j in jobs && j.id == id && j.suspend
  }

  /** The control states of the known jobs. */
  ghost function States(known: map<int, ProtectedJob>): map<int, Control>
    reads known.Values, set id | id in known :: known[id].actual
  {
    map id | id in known :: known[id].View()
  }

  /** What an update did to an entry that was known before, in state was, and still is. An update that does no work
      leaves it as it finds it. Otherwise a job in the list is found with its flag, ticked, and given its goal; a
      missing one counts as suspended, is lost if it is put back, and is given its goal. */
  ghost function EventsOf(w: Workflow, pass: Pass, due: bool, pj: ProtectedJob, was: Control, flags: map<int, bool>, ticks: nat): seq<Event>
    reads w`enabled, w`cnt, w`frame, pj`actual, pass.cts`byCount, pass.cts`goalCount, pass.cts`gapSetting
  {
    if !w.enabled || w.cnt % 5 != 0 then
      [Outside(was.suspended)]
    else if pj.id in flags then
      var c := was.(suspended := flags[pj.id]);
      [Outside(c.suspended), Tick(w.frame, ticks)] + Goals(pass, due, pj, w.frame, Ticked(c, w.frame, ticks))
    else
      (if pj.actual == null then [Outside(true)] else [Outside(true), Lost(w.frame)])
      + Goals(pass, due, pj, w.frame, w.Back(pj, was.(suspended := true)))
  }

  lemma OutsideAsItIs(c: Control)
    ensures AfterAll(c, [Outside(c.suspended)]) == c
  {
    AfterOne(c, Outside(c.suspended));
  }

  /** A job that an update finds suspended before its time is left suspended: on a frame without work, in the list,
      waiting or put back, whatever its goal. It keeps its time unless it is put back or wanted suspended. */
  lemma LeftSuspended(w: Workflow, pass: Pass, due: bool, pj: ProtectedJob, was: Control, flags: map<int, bool>, ticks: nat)
    requires was.suspended && w.frame < was.time && DAY_TICKS <= was.delay
    requires pj.id in flags ==> flags[pj.id]
    ensures var es := EventsOf(w, pass, due, pj, was, flags, ticks);
      && AfterAll(was, es).suspended
      && (Lost(w.frame) !in es && Goal(false, w.frame) !in es ==> AfterAll(was, es).time == was.time)
  {
    hide Goals, AfterAll;
    var es := EventsOf(w, pass, due, pj, was, flags, ticks);
    if !w.enabled || w.cnt % 5 != 0 {
      OutsideAsItIs(was);
    } else {
      var listed := pj.id in flags;
      var c := if listed then Ticked(was, w.frame, ticks) else w.Back(pj, was);
      var first := if listed then [Outside(true), Tick(w.frame, ticks)]
        else if pj.actual == null then [Outside(true)] else [Outside(true), Lost(w.frame)];
      var goals := Goals(pass, due, pj, w.frame, c);
      assert was == was.(suspended := true) && es == first + goals;
      GoalsAreGoals(pass, due, pj, w.frame, c);
      AfterOne(was, Outside(true));
      AfterTwo(was, Outside(true), first[|first| - 1]);
      AfterAllJoined(was, first, goals);
      NoEarlyResume(c, w.frame, goals);
    }
  }

  /** What the update is going to find. */
  lemma AsFound(w: Workflow, ticks: nat)
    requires w.Valid()
    ensures forall id | id in w.known :: w.known[id].id == id
    ensures forall id | id in w.known && id !in Flags(w.jobs) :: w.known[id] in w.Missing()
    ensures forall id | id in Flags(w.jobs) :: exists j :: j in w.jobs && j.id == id && j.suspend == Flags(w.jobs)[id]
    ensures forall j | j in w.jobs && j.id in w.known && w.Kept(j, w.known) ::
      w.Ticking(j, w.known, ticks) == Ticked(w.known[j.id].View().(suspended := j.suspend), w.frame, ticks)
    ensures forall p | p in w.Missing() :: Dormant(p) == p.View().(suspended := true)
  {
    hide Ticked;
  }

  /** plugin_onupdate, in terms of the events it is for each job that was known before and still is. */
  method ObservedUpdate(w: Workflow, pass: Pass) returns (due: bool)
    requires w.Valid() && w.BuildingsOk() && w.cnt < 0x1_0000_0000 && PassOk(pass)
    modifies w`known, w`pending, w`curTick, w`jobs, w`cnt, w`lastTickFrame, w`lastFrame, w`lastRlen,
      w.known.Values, (set j | j in w.jobs)`suspend, w.buildings.Values
    modifies pass.cts`jobs, pass.cts`isActive, pass.cts`itemAmount, pass.cts`itemCount, pass.cts`itemInuse,
      pass.cts`materialCache, pass.cts`requestResume, pass.cts`requestSuspend
    ensures w.Valid() && PassOk(pass) && w.cnt == (old(w.cnt) + if w.enabled then 1 else 0) % 0x1_0000_0000
    ensures !w.enabled || w.cnt % 5 != 0 ==> w.Idle()
    ensures forall id | id in w.known && id in old(w.known) ::
      && w.known[id] == old(w.known[id])
      && w.known[id].View() == AfterAll(old(w.known[id].View()),
           EventsOf(w, pass, due, w.known[id], old(w.known[id].View()), old(Flags(w.jobs)), old(Max(0, w.frame - w.lastTickFrame))))
    ensures forall id | id in w.known :: (id in old(w.known) && w.known[id] == old(w.known)[id]) || fresh(w.known[id])
    ensures forall j | j in w.jobs :: j in old(w.jobs) || fresh(j)
  {
    hide Workflow.Valid, Workflow.Checked, Workflow.Kept, Workflow.Ticking, Workflow.Missing, Workflow.Back,
         Workflow.BuildingsOk, Workflow.Waits, Workflow.Hopeless, PassOk, Dormant, HandledAfter, Sorted, Flags, Workflow.Fate,
         Added, Workflow.Rooms, NoDuplicates, Ids, AfterAll, Goals, Ticked, ProtectedJob.View;
    ghost var ticks := Max(0, w.frame - w.lastTickFrame);
    AsFound(w, ticks);
    ghost var lost;
    var tried;
    due, tried, lost := PluginOnUpdate(w, pass);
    FateIsKnown(w, tried);
    KeysAgree(w);
    forall id | id in w.known ensures (id in old(w.known) && w.known[id] == old(w.known)[id]) || fresh(w.known[id]) {
      if w.known[id] in old(w.known).Values {
        var k := KeyOf(old(w.known), w.known[id]);
      }
    }
    forall id | id in w.known && id in old(w.known)
      ensures w.known[id] == old(w.known[id])
      ensures w.known[id].View()
        == AfterAll(old(w.known[id].View()), EventsOf(w, pass, due, w.known[id], old(w.known[id].View()), old(Flags(w.jobs)), ticks))
    {
      var pj := old(w.known[id]);
      var was := old(pj.View());
      if !w.enabled || w.cnt % 5 != 0 {
        OutsideAsItIs(was);
      } else if id in old(Flags(w.jobs)) {
        var j :| j in old(w.jobs) && j.id == id && old(j.suspend) == old(Flags(w.jobs))[id];
        ListedIsRun(w, pass, due, j, old(w.known), was, old(j.suspend), ticks);
      } else {
        MissingIsRun(w, pass, due, tried, pj, was, old(w.Waits(pj)), old(w.Hopeless(pj)));
      }
    }
  }

  // ---- what happens between updates ----

  /** Jobs are deleted and added; only an id that was given out and is not in the list never comes back. */
  method ChangeJobs(w: Workflow, pool: set<Job>)
    requires w.Valid() && forall j | j in w.jobs :: j in pool
    modifies w`jobs, w`nextId
    ensures w.Valid() && forall j | j in w.jobs :: j in pool
  {
    hide DelayOk, NoDuplicates;
    var jobs: seq<Job>, nextId: int := *, *;
    if w.nextId <= nextId && Sorted(jobs)
       && forall j | j in jobs :: j in pool && j.id < nextId && (j.id in Ids(w.jobs) || w.nextId <= j.id) {
      forall p | p in w.pending ensures p.id !in Ids(jobs) {
        assert p.id in w.known && p.id < w.nextId;
      }
      w.jobs, w.nextId := jobs, nextId;
    }
  }

  /** The game and the player: besides, any flag flips, buildings come, go and change, time passes, settings
      change. */
  method GameMoves(w: Workflow, pool: set<Job>, homes: set<Building>, cts: seq<ItemConstraint>)
    requires w.Valid() && w.BuildingsOk() && (forall j | j in w.jobs :: j in pool) && w.buildings.Values <= homes
    modifies w`jobs, w`nextId, w`frame, w`supported, w`buildings, pool`repeat, pool`suspend, homes
    modifies cts`goalCount, cts`gapSetting, cts`byCount
    ensures w.Valid() && w.BuildingsOk() && (forall j | j in w.jobs :: j in pool) && w.buildings.Values <= homes
  {
    hide Workflow.Valid;
    modify w`frame, w`supported, pool`repeat, pool`suspend, homes`jobs, cts`goalCount, cts`gapSetting, cts`byCount;
    ChangeJobs(w, pool);
    var buildings: map<int, Building> := *;
    if buildings.Values <= homes
       && forall id, other | id in buildings && other in buildings && id != other :: buildings[id] != buildings[other] {
      w.buildings := buildings;
    }
  }

  /** workflow enable and workflow disable. */
  method Switch(w: Workflow)
    requires w.Valid() && (w.enabled || w.known == map[])
    modifies w`enabled, w`known, w`pending, w`curTick, w.known.Values, (set j | j in w.jobs)`suspend
    ensures w.Valid() && (w.enabled || w.known == map[])
    ensures forall id | id in w.known :: fresh(w.known[id])
  {
    hide Workflow.Checked, Workflow.Kept, Workflow.Handled, Workflow.Ticking, Workflow.Missing, DelayOk, NoDuplicates;
    if w.enabled {
      w.enabled := false;
      w.StopProtect();
    } else {
      w.enabled := true;
      w.CheckLostJobs(0);
    }
  }

  /** What the update goes by: any of the constraints, in any order, any items and outputs. */
  method AnyPass(base: Pass) returns (pass: Pass)
    requires PassOk(base)
    ensures PassOk(pass) && pass.m == base.m && forall ct | ct in pass.cts :: ct in base.cts
  {
    var outputs: map<int, seq<Output>>, items: seq<Item>, autoMelt: bool := *, *, *;
    pass := base.(outputs := outputs, items := items, autoMelt := autoMelt);
    var cts: seq<ItemConstraint> := *;
    if NoDuplicates(cts) && forall ct | ct in cts :: ct in base.cts {
      pass := pass.(cts := cts);
    }
  }

  // ---- histories ----

  /** A moment after an update: the plugin's frame counter and the game's, the entries of the known jobs and their
      states, and for those that kept their entry since the moment before, what the update did to them. */
  datatype Moment = Moment(enabled: bool, cnt: nat, frame: int, entries: map<int, ProtectedJob>, states: map<int, Control>,
                           events: map<int, seq<Event>>)

  /** First the flag as the update finds it; then, every fifth frame, what the update does at its frame. */
  predicate IsTurn(works: bool, frame: int, es: seq<Event>) {
    && es != [] && es[0].Outside? && (works || |es| == 1)
    && forall e | e in es[1..] :: !e.Outside? && FrameOf(e) == frame
  }

  ghost predicate Follows(a: Moment, b: Moment) {
    && b.cnt == (a.cnt + if b.enabled then 1 else 0) % 0x1_0000_0000
    && (forall id :: id in b.events <==> id in a.entries && id in b.entries && a.entries[id] == b.entries[id])
    && forall id | id in b.events ::
         && id in a.states && id in b.states && IsTurn(b.enabled && b.cnt % 5 == 0, b.frame, b.events[id])
         && b.states[id] == AfterAll(a.states[id], b.events[id])
  }

  ghost predicate IsHistory(h: seq<Moment>) {
    |h| <= 1 || (IsHistory(h[..|h| - 1]) && Follows(h[|h| - 2], h[|h| - 1]))
  }

  /** From moment i on, where the job is suspended with a time to wait for, it keeps its entry, the time does not
      come, nobody unsuspends it, it is not lost, and no pass wants it suspended. */
  predicate Undisturbed(h: seq<Moment>, i: nat, id: int) {
    && i < |h| && id in h[i].states && h[i].states[id].suspended && 0 < h[i].states[id].time
    && forall k | i < k < |h| :: id in h[k].events && h[k].frame < h[i].states[id].time && Quiet(h[k].events[id])
  }

  lemma WaitsOnce(a: Moment, b: Moment, id: int)
    requires Follows(a, b) && id in b.events && Quiet(b.events[id])
    requires a.states[id].suspended && 0 < a.states[id].time && b.frame < a.states[id].time
    ensures id in b.states && b.states[id].suspended
    ensures b.states[id].time == a.states[id].time && b.states[id].delay == a.states[id].delay
  {
    hide Quiet, AfterAll;
    var es := b.events[id];
    assert forall e | e in es :: e == es[0] || e in es[1..];
    StaysSuspended(a.states[id], es);
  }

  /** An undisturbed job waits, through all updates, those that do no work included. */
  lemma {:induction false} WaitsOn(h: seq<Moment>, i: nat, id: int)
    requires IsHistory(h) && Undisturbed(h, i, id)
    ensures var last := h[|h| - 1].states;
      && id in last && last[id].suspended
      && last[id].time == h[i].states[id].time && last[id].delay == h[i].states[id].delay
  {
    hide Follows, Quiet;
    var n := |h| - 1;
    if i < n {
      WaitsOn(h[..n], i, id);
      WaitsOnce(h[n - 1], h[n], id);
    }
  }

  /** An update that puts a job back, and does not want it suspended, sets the time to wait for: the delay it had,
      lengthened by two thirds up to a month. */
  lemma PutBackWaits(c: Control, frame: int, goals: seq<Event>)
    requires DAY_TICKS <= c.delay && |goals| <= 1 && forall e | e in goals :: e == Goal(true, frame)
    ensures var d := AfterAll(c, [Outside(true), Lost(frame)] + goals);
      d.suspended && d.delay == Min(DAY_TICKS * MONTH_DAYS, 5 * c.delay / 3) && d.time == frame + d.delay
  {
    AfterTwo(c, Outside(true), Lost(frame));
    AfterAllJoined(c, [Outside(true), Lost(frame)], goals);
    if goals != [] {
      assert goals == [goals[0]] && goals[0] in goals;
      AfterOne(Recovered(c.(suspended := true), frame), goals[0]);
    }
  }

  lemma {:induction false} FollowsAt(h: seq<Moment>, i: nat)
    requires IsHistory(h) && 0 < i < |h|
    ensures Follows(h[i - 1], h[i])
    decreases |h|
  {
    if i < |h| - 1 {
      FollowsAt(h[..|h| - 1], i);
    }
  }

  /** So in a whole run: a job that was put back in turn i waits from then on. */
  lemma RecoveredWaitsOn(h: seq<Moment>, i: nat, id: int, goals: seq<Event>)
    requires IsHistory(h) && 0 < i < |h| && id in h[i].events && id in h[i - 1].states && DAY_TICKS <= h[i - 1].states[id].delay
    requires h[i].events[id] == [Outside(true), Lost(h[i].frame)] + goals
    requires |goals| <= 1 && forall e | e in goals :: e == Goal(true, h[i].frame)
    requires 0 <= h[i].frame
    requires forall k | i < k < |h| ::
      && id in h[k].events && Quiet(h[k].events[id])
      && h[k].frame < h[i].frame + Min(DAY_TICKS * MONTH_DAYS, 5 * h[i - 1].states[id].delay / 3)
    ensures var last := h[|h| - 1].states;
      && id in last && last[id].suspended
      && last[id].delay == Min(DAY_TICKS * MONTH_DAYS, 5 * h[i - 1].states[id].delay / 3)
      && last[id].time == h[i].frame + last[id].delay
  {
    FollowsAt(h, i);
    PutBackWaits(h[i - 1].states[id], h[i].frame, goals);
    WaitsOn(h, i, id);
  }

  /** The flag a turn begins with is the one the update finds. */
  lemma FlagIsFound(c: Control, found: Control, es: seq<Event>)
    requires es != [] && es[0].Outside? && found == c.(suspended := found.suspended)
    ensures AfterAll(found, es) == AfterAll(c, es)
  {
    assert es == [es[0]] + es[1..];
    AfterAllJoined(c, [es[0]], es[1..]);
    AfterAllJoined(found, [es[0]], es[1..]);
    AfterOne(c, es[0]);
    AfterOne(found, es[0]);
  }

  lemma EventsAreTurn(w: Workflow, pass: Pass, due: bool, pj: ProtectedJob, was: Control, flags: map<int, bool>, ticks: nat)
    ensures IsTurn(w.enabled && w.cnt % 5 == 0, w.frame, EventsOf(w, pass, due, pj, was, flags, ticks))
  {
    hide Goals, Ticked, Workflow.Back;
    var es := EventsOf(w, pass, due, pj, was, flags, ticks);
    if !w.enabled || w.cnt % 5 != 0 {
      assert es[1..] == [];
    } else if pj.id in flags {
      var c := Ticked(was.(suspended := flags[pj.id]), w.frame, ticks);
      GoalsAreGoals(pass, due, pj, w.frame, c);
      assert es[1..] == [Tick(w.frame, ticks)] + Goals(pass, due, pj, w.frame, c);
    } else {
      var c := w.Back(pj, was.(suspended := true));
      GoalsAreGoals(pass, due, pj, w.frame, c);
      assert es[1..] == (if pj.actual == null then [] else [Lost(w.frame)]) + Goals(pass, due, pj, w.frame, c);
    }
  }

  /** So it does not matter how the flag changed since the moment before. */
  lemma EventsFollow(w: Workflow, pass: Pass, due: bool, pj: ProtectedJob, was: Control, found: Control, flags: map<int, bool>, ticks: nat)
    requires was == found.(suspended := was.suspended)
    ensures var es := EventsOf(w, pass, due, pj, found, flags, ticks);
      IsTurn(w.enabled && w.cnt % 5 == 0, w.frame, es) && AfterAll(found, es) == AfterAll(was, es)
  {
    hide EventsOf, AfterAll;
    EventsAreTurn(w, pass, due, pj, found, flags, ticks);
    FlagIsFound(was, found, EventsOf(w, pass, due, pj, found, flags, ticks));
  }

  // ---- runs ----

  /** What happens before the update of a turn. */
  method Meanwhile(w: Workflow, pool: set<Job>, homes: set<Building>, base: Pass) returns (pass: Pass)
    requires w.Valid() && w.BuildingsOk() && PassOk(base) && (w.enabled || w.known == map[])
    requires (forall j | j in w.jobs :: j in pool) && w.buildings.Values <= homes
    modifies w, w.known.Values, pool, homes, base.cts
    ensures w.Valid() && w.BuildingsOk() && PassOk(base) && PassOk(pass) && (w.enabled || w.known == map[])
    ensures w.cnt == old(w.cnt) && pass.m == base.m && forall i | 0 <= i < |pass.cts| :: pass.cts[i] in base.cts
    ensures (forall j | j in w.jobs :: j in pool) && w.buildings.Values <= homes
    ensures forall pj | pj in w.known.Values :: pj in old(w.known).Values || fresh(pj)
    ensures forall id | id in w.known && id in old(w.known) && w.known[id] == old(w.known)[id] ::
      old(w.known[id].View()) == w.known[id].View().(suspended := old(w.known[id].View().suspended))
  {
    hide Workflow.Valid, Workflow.BuildingsOk, PassOk;
    GameMoves(w, pool, homes, base.cts);
    if * {
      Switch(w);
    }
    pass := AnyPass(base);
    forall pj | pj in w.known.Values ensures pj in old(w.known).Values || fresh(pj) {
      var id := KeyOf(w.known, pj);
    }
  }

  ghost function Now(w: Workflow, events: map<int, seq<Event>>): Moment
    reads w, w.known.Values, set id | id in w.known :: w.known[id].actual
  {
    Moment(w.enabled, w.cnt, w.frame, w.known, States(w.known), events)
  }

  lemma PassOkMeans(pass: Pass)
    requires PassOk(pass)
    ensures NoDuplicates(pass.cts) && forall ct | ct in pass.cts :: ct.weight >= 0 && CacheSound(pass.m, ct)
  {
    hide NoDuplicates, CacheSound;
  }

  /** A pass over some of the constraints leaves the others as they are. */
  lemma StillOk(base: Pass, pass: Pass)
    requires PassOk(pass) && pass.m == base.m && NoDuplicates(base.cts)
    requires forall ct | ct in base.cts :: ct.weight >= 0 && (ct in pass.cts || CacheSound(base.m, ct))
    ensures PassOk(base)
  {
    hide NoDuplicates, CacheSound;
  }

  lemma RecordedIsNext(w: Workflow, pass: Pass, due: bool, a: Moment, found: map<int, Control>, flags: map<int, bool>, ticks: nat,
                       events: map<int, seq<Event>>)
    requires w.cnt == (a.cnt + if w.enabled then 1 else 0) % 0x1_0000_0000
    requires forall id :: id in events <==> id in a.entries && id in w.known && a.entries[id] == w.known[id]
    requires forall id | id in events :: id in a.states && id in found && a.states[id] == found[id].(suspended := a.states[id].suspended)
    requires forall id | id in events :: events[id] == EventsOf(w, pass, due, w.known[id], found[id], flags, ticks)
    requires forall id | id in events :: w.known[id].View() == AfterAll(found[id], events[id])
    ensures Follows(a, Now(w, events))
  {
    hide EventsOf, IsTurn, AfterAll, ProtectedJob.View;
    forall id | id in events
      ensures IsTurn(w.enabled && w.cnt % 5 == 0, w.frame, events[id]) && w.known[id].View() == AfterAll(a.states[id], events[id])
    {
      EventsFollow(w, pass, due, w.known[id], a.states[id], found[id], flags, ticks);
    }
  }

  /** The update of a turn, after moment a. */
  method RecordedUpdate(w: Workflow, pass: Pass, ghost a: Moment) returns (ghost events: map<int, seq<Event>>)
    requires w.Valid() && w.BuildingsOk() && w.cnt < 0x1_0000_0000 && PassOk(pass)
    requires a.states.Keys == a.entries.Keys && a.cnt == w.cnt
    requires forall id | id in w.known && id in a.entries && w.known[id] == a.entries[id] ::
      a.states[id] == w.known[id].View().(suspended := a.states[id].suspended)
    modifies w`known, w`pending, w`curTick, w`jobs, w`cnt, w`lastTickFrame, w`lastFrame, w`lastRlen,
      w.known.Values, (set j | j in w.jobs)`suspend, w.buildings.Values
    modifies pass.cts`jobs, pass.cts`isActive, pass.cts`itemAmount, pass.cts`itemCount, pass.cts`itemInuse,
      pass.cts`materialCache, pass.cts`requestResume, pass.cts`requestSuspend
    ensures w.Valid() && w.cnt < 0x1_0000_0000 && PassOk(pass) && (w.enabled || w.known == old(w.known))
    ensures forall id | id in w.known :: w.known[id] in old(w.known).Values || fresh(w.known[id])
    ensures forall j | j in w.jobs :: j in old(w.jobs) || fresh(j)
    ensures Follows(a, Now(w, events))
  {
    hide Workflow.Valid, Workflow.BuildingsOk, EventsOf, Flags, Follows, AfterAll, NoDuplicates, CacheSound, PassOk, ProtectedJob.View;
    ghost var found, flags, ticks := States(w.known), Flags(w.jobs), Max(0, w.frame - w.lastTickFrame);
    var due := ObservedUpdate(w, pass);
    ghost var kept := set id | id in a.entries && id in w.known && a.entries[id] == w.known[id];
    events := map id | id in kept :: EventsOf(w, pass, due, w.known[id], found[id], flags, ticks);
    RecordedIsNext(w, pass, due, a, found, flags, ticks, events);
  }

  /** One turn. */
  method Turn(w: Workflow, pool: set<Job>, homes: set<Building>, base: Pass, ghost a: Moment) returns (ghost events: map<int, seq<Event>>)
    requires w.Valid() && w.BuildingsOk() && w.cnt < 0x1_0000_0000 && PassOk(base) && (w.enabled || w.known == map[])
    requires (forall j | j in w.jobs :: j in pool) && w.buildings.Values <= homes && a == Now(w, a.events)
    modifies w, w.known.Values, pool, homes, base.cts
    ensures w.Valid() && w.BuildingsOk() && w.cnt < 0x1_0000_0000 && PassOk(base) && (w.enabled || w.known == map[])
    ensures (forall j | j in w.jobs :: j in pool || fresh(j)) && w.buildings.Values <= homes
    ensures forall id | id in w.known :: w.known[id] in old(w.known).Values || fresh(w.known[id])
    ensures Follows(a, Now(w, events))
  {
    hide Workflow.Valid, Workflow.BuildingsOk, Follows, PassOk, NoDuplicates, CacheSound, ProtectedJob.View;
    var pass := Meanwhile(w, pool, homes, base);
    PassOkMeans(base);
    events := RecordedUpdate(w, pass, a);
    StillOk(base, pass);
  }

  /** Any number of turns. The state stays valid, what happened is a history, and a job that was suspended with a
      time to wait for and has been undisturbed since is still suspended in the game. */
  method Run(w: Workflow, jobs: set<Job>, homes: set<Building>, base: Pass, turns: nat) returns (ghost h: seq<Moment>)
    requires w.Valid() && w.BuildingsOk() && w.cnt < 0x1_0000_0000 && PassOk(base) && (w.enabled || w.known == map[])
    requires (forall j | j in w.jobs :: j in jobs) && w.buildings.Values <= homes
    modifies w, w.known.Values, jobs, homes, base.cts
    ensures w.Valid() && w.BuildingsOk() && PassOk(base) && (w.enabled || w.known == map[])
    ensures |h| == turns + 1 && IsHistory(h) && h[0] == old(Now(w, map[])) && h[turns] == Now(w, h[turns].events)
    ensures forall i: nat, id | Undisturbed(h, i, id) ::
      && id in w.known && (w.known[id].actual == null || w.known[id].actual.suspend)
      && w.known[id].resumeTime == h[i].states[id].time && w.known[id].resumeDelay == h[i].states[id].delay
  {
    hide Workflow.Valid, Workflow.BuildingsOk, PassOk, Follows;
    var pool := jobs;
    h := [Now(w, map[])];
    for n := 0 to turns
      invariant w.Valid() && w.BuildingsOk() && w.cnt < 0x1_0000_0000 && PassOk(base) && (w.enabled || w.known == map[])
      invariant (forall j | j in w.jobs :: j in pool) && w.buildings.Values <= homes
      invariant forall j | j in pool :: j in jobs || fresh(j)
      invariant forall id | id in w.known :: w.known[id] in old(w.known).Values || fresh(w.known[id])
      invariant |h| == n + 1 && IsHistory(h) && h[0] == old(Now(w, map[])) && h[n] == Now(w, h[n].events)
    {
      forall pj | pj in w.known.Values ensures pj in old(w.known).Values || fresh(pj) {
        var id := KeyOf(w.known, pj);
      }
      ghost var events := Turn(w, pool, homes, base, h[n]);
      assert (h + [Now(w, events)])[..n + 1] == h;
      h := h + [Now(w, events)];
      pool := pool + set j | j in w.jobs;
    }
    forall i: nat, id | Undisturbed(h, i, id)
      ensures id in States(w.known) && States(w.known)[id].suspended
      ensures States(w.known)[id].time == h[i].states[id].time && States(w.known)[id].delay == h[i].states[id].delay
    {
      WaitsOn(h, i, id);
    }
  }
}
