/** plugins/workflow.cpp: noticing lost jobs and putting them back. The job list here is the sequence of
    jobs on the links of the list in JobList; linking an old id has the same contract there. */
module WorkflowJobs {
  import opened JobControl

  class Building {
    const id: int
    var jobs: seq<Job>
  }

  predicate Sorted(jobs: seq<Job>) {
    forall i, j | 0 <= i < j < |jobs| :: jobs[i].id < jobs[j].id
  }

  function Ids(jobs: seq<Job>): set<int> {
    set j | j in jobs :: j.id
  }

  lemma IdsPrefix(jobs: seq<Job>, i: nat)
    requires i < |jobs| && Sorted(jobs)
    ensures Ids(jobs[..i + 1]) == Ids(jobs[..i]) + {jobs[i].id}
    ensures forall k | i <= k < |jobs| :: jobs[k].id !in Ids(jobs[..i])
    ensures forall k | 0 <= k < |jobs| && k != i :: jobs[k].id != jobs[i].id
  {
  }

  lemma IdsEmpty(jobs: seq<Job>)
    ensures Ids(jobs[..0]) == {}
  {
  }

  lemma EraseOne<T>(front: seq<T>, x: T, kept: seq<T>)
    requires NoDuplicates(front + ([x] + kept))
    ensures NoDuplicates(front + kept)
    ensures forall y :: y in front + ([x] + kept) <==> y == x || y in front + kept
    ensures x !in front + kept
  {
    var s, t := front + ([x] + kept), front + kept;
    forall i, j | 0 <= i < j < |t| ensures t[i] != t[j] {
      var a, b := if i < |front| then i else i + 1, if j < |front| then j else j + 1;
      assert s[a] == t[i] && s[b] == t[j];
    }
    forall i | 0 <= i < |t| ensures t[i] != x {
      assert s[if i < |front| then i else i + 1] == t[i] && s[|front|] == x;
    }
  }

  lemma Member<T>(s: set<T>) returns (k: T)
    requires s != {}
    ensures k in s
  {
    k :| k in s;
  }

  lemma KeyOf<K, V>(m: map<K, V>, v: V) returns (k: K)
    requires v in m.Values
    ensures k in m && m[k] == v
  {
    k :| k in m && m[k] == v;
  }

  /** The next key of a std::map. */
  method Least(s: set<int>) returns (m: int)
    requires s != {}
    ensures m in s && forall k | k in s :: m <= k
  {
    ghost var some := Member(s);
    m :| m in s;
    var rest := s - {m};
    while rest != {}
      invariant rest <= s && m in s
      invariant forall k | k in s && k !in rest :: m <= k
    {
      some := Member(rest);
      var k :| k in rest;
      rest := rest - {k};
      if k < m {
        m := k;
      }
    }
  }

  lemma {:induction false} SizeOfList<T>(s: seq<T>, t: set<T>)
    requires NoDuplicates(s) && forall x :: x in s <==> x in t
    ensures |s| == |t|
  {
    if s == [] {
      assert t == {};
    } else {
      assert s[0] in t && forall i | 0 < i < |s| :: s[i] in s[1..];
      assert forall x :: x in s <==> x == s[0] || x in s[1..];
      assert s[0] !in s[1..];
      SizeOfList(s[1..], t - {s[0]});
    }
  }

  /** The state of a known job as the check finds it, with the suspend flag of the job in the list. */
  ghost function Found(pj: ProtectedJob, job: Job): Control
    reads pj`wantResumed, pj`resumeTime, pj`resumeDelay, job`suspend
  {
    Control(job.suspend, pj.wantResumed, pj.resumeTime, pj.resumeDelay)
  }

  /** The state of a job that is not live: it counts as suspended. */
  ghost function Dormant(pj: ProtectedJob): Control
    reads pj`wantResumed, pj`resumeTime, pj`resumeDelay
  {
    Control(true, pj.wantResumed, pj.resumeTime, pj.resumeDelay)
  }

  /** What a building gains by an entry. */
  ghost function Gain(pj: ProtectedJob, id: int): seq<Job>
    reads pj`actual
  {
    if pj.actual != null && pj.buildingId == id then [pj.actual] else []
  }

  /** And by a list of entries, tried from the last to the first. */
  ghost function Gains(s: seq<ProtectedJob>, id: int): seq<Job>
    reads s`actual
  {
    if s == [] then [] else Gains(s[1..], id) + Gain(s[0], id)
  }

  ghost predicate PutBackBy(s: seq<ProtectedJob>, job: Job)
    reads s`actual
  {
    exists p :: p in s && p.actual == job
  }

  /** From one list of jobs and their buildings to another: exactly the jobs that are live in the entries of s
      were added to the list, and each at the end of its building. */
  ghost predicate Added(list: seq<Job>, rooms: map<int, seq<Job>>, s: seq<ProtectedJob>, list': seq<Job>, rooms': map<int, seq<Job>>)
    reads s`actual
  {
    && (forall j | j in list' :: j in list || PutBackBy(s, j))
    && (forall j | j in list :: j in list') && (forall p | p in s && p.actual != null :: p.actual in list')
    && rooms'.Keys == rooms.Keys
    && (forall id | id in rooms :: rooms'[id] == rooms[id] + Gains(s, id))
  }

  lemma {:induction false} NoGains(s: seq<ProtectedJob>, id: int)
    requires forall p | p in s :: p.actual == null
    ensures Gains(s, id) == []
  {
    if s != [] {
      NoGains(s[1..], id);
    }
  }

  lemma AddedNothing(list: seq<Job>, rooms: map<int, seq<Job>>, s: seq<ProtectedJob>)
    requires forall p | p in s :: p.actual == null
    ensures Added(list, rooms, s, list, rooms)
  {
    forall id {
      NoGains(s, id);
    }
    assert forall id | id in rooms :: rooms[id] == rooms[id] + [];
  }

  lemma AddedMore(list: seq<Job>, rooms: map<int, seq<Job>>, s: seq<ProtectedJob>, list': seq<Job>, rooms': map<int, seq<Job>>,
                  p: ProtectedJob, list'': seq<Job>, rooms'': map<int, seq<Job>>)
    requires Added(list, rooms, s, list', rooms') && Added(list', rooms', [p], list'', rooms'')
    ensures Added(list, rooms, [p] + s, list'', rooms'')
  {
    var t := [p] + s;
    assert t[1..] == s && [p][1..] == [];
    assert forall q :: q in t <==> q == p || q in s;
    forall j | j in list'' ensures j in list || PutBackBy(t, j) {
      if j !in list' {
        assert PutBackBy([p], j);
      }
    }
    forall id | id in rooms ensures rooms''[id] == rooms[id] + Gains(t, id) {
      assert Gains([p], id) == Gain(p, id);
      assert rooms[id] + Gains(s, id) + Gain(p, id) == rooms[id] + (Gains(s, id) + Gain(p, id));
    }
  }

  /** What one try adds. */
  lemma AddedOne(list: seq<Job>, rooms: map<int, seq<Job>>, p: ProtectedJob, list': seq<Job>, rooms': map<int, seq<Job>>)
    requires forall j :: j in list' <==> j in list || (p.actual != null && j == p.actual)
    requires rooms'.Keys == rooms.Keys && forall id | id in rooms :: rooms'[id] == rooms[id] + Gain(p, id)
    ensures Added(list, rooms, [p], list', rooms')
  {
    assert [p][1..] == [] && p in [p];
    forall id | id in rooms ensures Gains([p], id) == Gain(p, id) {
    }
  }

  class Workflow {
    // the game
    var jobs: seq<Job>
    var nextId: int
    var frame: int
    var buildings: map<int, Building>
    var supported: map<int, int>   // building id of each job id that isSupportedJob accepts
    const destroyBuilding: int
    const strangeMoods: set<int>   // the job types of class StrangeMood

    // the plugin
    var known: map<int, ProtectedJob>
    var pending: seq<ProtectedJob>
    var curTick: int
    var enabled: bool
    var cnt: nat                   // plugin_onupdate's frame counter, an unsigned int
    var lastTickFrame: int
    var lastFrame: int
    var lastRlen: nat

    ghost predicate GameOk()
      reads `jobs, `nextId
    {
      Sorted(jobs) && forall j | j in jobs :: j.id < nextId
    }

    /** The entries agree with their keys, and those waiting are exactly the entries that are not live; no
        waiting entry has its id in the list. */
    ghost predicate Shape()
      reads `jobs, `nextId, `known, `pending, `curTick, known.Values`tickIdx, known.Values`actual
    {
      && GameOk()
      && (forall id | id in known :: known[id].id == id && id < nextId && known[id].tickIdx <= curTick)
      && NoDuplicates(pending)
      && (forall p | p in pending :: p.id in known && known[p.id] == p && p.actual == null && p.id !in Ids(jobs))
      && (forall id | id in known && known[id].actual == null :: known[id] in pending)
    }

    /** What holds whatever the game does between ticks, as long as it never reuses an id. */
    ghost predicate Valid()
      reads `jobs, `nextId, `known, `pending, `curTick, known.Values
    {
      Shape() && forall id | id in known :: DelayOk(known[id])
    }

    /** The plugin as it is loaded, beside a game that may be anywhere. */
    constructor (jobs: seq<Job>, nextId: int, frame: int, buildings: map<int, Building>, supported: map<int, int>,
                 destroyBuilding: int, strangeMoods: set<int>)
      requires Sorted(jobs) && forall j | j in jobs :: j.id < nextId
      ensures Valid() && known == map[] && pending == [] && this.jobs == jobs && this.buildings == buildings
    {
      this.jobs, this.nextId, this.frame, this.buildings, this.supported := jobs, nextId, frame, buildings, supported;
      this.destroyBuilding, this.strangeMoods := destroyBuilding, strangeMoods;
      known, pending, curTick := map[], [], 0;
      enabled, cnt, lastTickFrame, lastFrame, lastRlen := false, 0, 0, 0, 0;
    }

    /** After a check: a known job is live iff it is in the list, and then actual_job is that job. */
    ghost predicate Checked()
      reads `jobs, `known, known.Values`actual
    {
      && (forall id | id in known :: known[id].actual != null <==> id in Ids(jobs))
      && (forall j | j in jobs && j.id in known :: known[j.id].actual == j)
    }

    /** The jobs the plugin keeps, or starts protecting, when it sees them in the list. */
    ghost predicate Kept(job: Job, before: map<int, ProtectedJob>)
      reads `supported, job`repeat
    {
      job.repeat && (job.id in before || job.id in supported)
    }

    lemma KeptDependsOnId(job: Job, a: map<int, ProtectedJob>, b: map<int, ProtectedJob>)
      requires job.id in a <==> job.id in b
      ensures Kept(job, a) <==> Kept(job, b)
    {
    }

    /** The state in which the check leaves a job of the list: ticked if it was known and still repeats, fresh if
        it is adopted, and with its flag as it was in any case but the first. */
    ghost function Ticking(job: Job, before: map<int, ProtectedJob>, ticks: nat): Control
      reads `frame, job`suspend, job`repeat
      reads if job.id in before then {before[job.id]} else {}
    {
      if job.id in before && job.repeat then Ticked(Found(before[job.id], job), frame, ticks)
      else Control(job.suspend, false, 0, DAY_TICKS)
    }

    /** A job of the list in state c: if it is known, under the entry it had if it was known before; if not, as
        far as its flag goes. */
    ghost predicate Handled(job: Job, before: map<int, ProtectedJob>, c: Control)
      reads `known, known.Values, job`suspend, set id | id in known :: known[id].actual
    {
      if job.id in known then
        && known[job.id].actual == job && known[job.id].View() == c
        && (job.id in before ==> known[job.id] == before[job.id])
      else
        job.suspend == c.suspended
    }

    /** One job of the list: ticked if known and repeating, forgotten if it no longer repeats, adopted if
        it repeats and is supported. */
    method SeeJob(job: Job, ticks: nat)
      requires job.id in known ==> known[job.id].id == job.id && DelayOk(known[job.id])
      modifies `known, (if job.id in known then {known[job.id]} else {}), job`suspend
      ensures job.id in known <==> old(job.repeat && (job.id in known || job.id in supported))
      ensures old(job.repeat && job.id in known) ==>
        known[job.id].View() == Ticked(old(Found(known[job.id], job)), frame, ticks)
      ensures old(job.repeat && job.id !in known) && job.id in known ==>
        known[job.id].View() == Control(old(job.suspend), false, 0, 1200)
      ensures old(!job.repeat || (job.id !in known && job.id !in supported)) ==> job.suspend == old(job.suspend)
      ensures job.id in known <==> old(Kept(job, known))
      ensures forall id | id != job.id :: id in known <==> id in old(known)
      ensures forall id | id in known && id != job.id :: known[id] == old(known)[id]
      ensures job.id in known ==>
        known[job.id].id == job.id && known[job.id].tickIdx == curTick && DelayOk(known[job.id])
      ensures Handled(job, old(known), old(Ticking(job, known, ticks)))
      ensures job.id in known && job.id !in old(known) ==> fresh(known[job.id])
    {
      if job.id in known {
        if !job.repeat {
          known := known - {job.id};
        } else {
          known[job.id].TickJob(job, ticks, curTick, frame);
        }
      } else if job.repeat && job.id in supported {
        var pj := new ProtectedJob(job, supported[job.id], curTick);
        known := known[pj.id := pj];
      }
    }

    /** What the check is going to make of the first n jobs of the list. */
    lemma Outlook(n: nat, ticks: nat) returns (keep: seq<bool>, expected: seq<Control>)
      requires n <= |jobs|
      ensures |keep| == |expected| == n
      ensures forall k | 0 <= k < n :: keep[k] == Kept(jobs[k], known) && expected[k] == Ticking(jobs[k], known, ticks)
    {
      if n == 0 {
        keep, expected := [], [];
      } else {
        keep, expected := Outlook(n - 1, ticks);
        keep := keep + [Kept(jobs[n - 1], known)];
        expected := expected + [Ticking(jobs[n - 1], known, ticks)];
      }
    }

    /** The first n jobs of the list after the first loop of check_lost_jobs: kept and left as expected. */
    ghost predicate SeenTo(n: nat, before: map<int, ProtectedJob>, keep: seq<bool>, expected: seq<Control>)
      requires n <= |keep| == |expected| == |jobs|
      reads this, known.Values, jobs, set id | id in known :: known[id].actual
    {
      && (forall k | 0 <= k < n :: jobs[k].id in known <==> keep[k])
      && (forall k | 0 <= k < n && keep[k] && jobs[k].id in known ::
            var pj := known[jobs[k].id];
            && pj.tickIdx == curTick && pj.actual == jobs[k] && pj.View() == expected[k]
            && (jobs[k].id in before ==> pj == before[jobs[k].id]))
      && (forall k | 0 <= k < n && !keep[k] :: jobs[k].suspend == expected[k].suspended)
    }

    /** The others, whose ids are not done, still have everything before them. */
    ghost predicate Unseen(n: nat, done: set<int>, before: map<int, ProtectedJob>, ticks: nat, keep: seq<bool>, expected: seq<Control>)
      requires n <= |keep| == |expected| == |jobs|
      reads this, before.Values, jobs
    {
      && (forall k | n <= k < |jobs| ::
            keep[k] == Kept(jobs[k], before) && expected[k] == Ticking(jobs[k], before, ticks))
      && (forall id | id !in done :: id in known <==> id in before)
      && (forall id | id in known && id !in done :: known[id] == before[id])
    }

    ghost predicate KnownOk()
      reads `known, known.Values
    {
      forall id | id in known :: known[id].id == id && DelayOk(known[id])
    }

    method SeeNext(i: nat, ghost done: set<int>, ghost before: map<int, ProtectedJob>, ticks: nat, ghost keep: seq<bool>,
                   ghost expected: seq<Control>)
      requires Sorted(jobs) && i < |keep| == |expected| == |jobs| && done == Ids(jobs[..i])
      requires KnownOk() && SeenTo(i, before, keep, expected) && Unseen(i, done, before, ticks, keep, expected)
      modifies `known, (if jobs[i].id in known then {known[jobs[i].id]} else {}), {jobs[i]}`suspend
      ensures KnownOk() && SeenTo(i + 1, before, keep, expected)
      ensures Unseen(i + 1, done + {jobs[i].id}, before, ticks, keep, expected)
      ensures forall id | id in known :: (id in old(known) && known[id] == old(known)[id]) || fresh(known[id])
    {
      hide Ids, Sorted, Ticked, Max, Kept, ProtectedJob.View, DelayOk;
      IdsPrefix(jobs, i);
      KeptDependsOnId(jobs[i], known, before);
      SeeJob(jobs[i], ticks);
    }

    lemma UnseenAtFirst(ticks: nat, keep: seq<bool>, expected: seq<Control>)
      requires |keep| == |expected| == |jobs|
      requires forall k | 0 <= k < |jobs| :: keep[k] == Kept(jobs[k], known) && expected[k] == Ticking(jobs[k], known, ticks)
      ensures SeenTo(0, known, keep, expected) && Unseen(0, {}, known, ticks, keep, expected)
    {
      hide Kept, Ticking;
    }

    lemma SeenAtLast(before: map<int, ProtectedJob>, keep: seq<bool>, expected: seq<Control>, k: nat)
      requires k < |keep| == |expected| == |jobs| && SeenTo(|jobs|, before, keep, expected)
      ensures jobs[k].id in known <==> keep[k]
      ensures jobs[k].id in known ==> known[jobs[k].id].tickIdx == curTick && known[jobs[k].id].actual == jobs[k]
      ensures Handled(jobs[k], before, expected[k])
    {
      hide ProtectedJob.View;
    }

    lemma RestAtLast(done: set<int>, before: map<int, ProtectedJob>, ticks: nat, keep: seq<bool>, expected: seq<Control>)
      requires |keep| == |expected| == |jobs| && Unseen(|jobs|, done, before, ticks, keep, expected)
      ensures forall id | id !in done :: id in known <==> id in before
      ensures forall id | id in known && id !in done :: known[id] == before[id]
    {
    }

    /** The first part of check_lost_jobs. */
    method SeeLiveJobs(ticks: nat)
      requires Sorted(jobs) && KnownOk()
      modifies `known, `curTick, known.Values, jobs`suspend
      ensures KnownOk() && curTick == old(curTick) + 1
      ensures forall j | j in jobs :: (j.id in known <==> old(Kept(j, known))) && Handled(j, old(known), old(Ticking(j, known, ticks)))
      ensures forall j | j in jobs && j.id in known :: known[j.id].tickIdx == curTick && known[j.id].actual == j
      ensures forall id | id !in Ids(jobs) :: id in known <==> id in old(known)
      ensures forall id | id in known && id !in Ids(jobs) :: known[id] == old(known)[id] && unchanged(known[id])
      ensures forall id | id in known :: known[id] in old(known).Values || fresh(known[id])
    {
      hide Ids, Sorted, Ticked, Ticking, Max, Kept, DelayOk, SeenTo, Unseen, Handled, ProtectedJob.View;
      curTick := curTick + 1;
      ghost var before := known;
      ghost var done: set<int> := {};
      ghost var keep, expected := Outlook(|jobs|, ticks);
      IdsEmpty(jobs);
      UnseenAtFirst(ticks, keep, expected);
      for i := 0 to |jobs|
        invariant done == Ids(jobs[..i]) && curTick == old(curTick) + 1
        invariant KnownOk() && SeenTo(i, before, keep, expected) && Unseen(i, done, before, ticks, keep, expected)
        invariant forall id | id in known :: (id in before && known[id] == before[id]) || fresh(known[id])
        invariant forall id | id in before && id !in done :: unchanged(before[id])
      {
        IdsPrefix(jobs, i);
        SeeNext(i, done, before, ticks, keep, expected);
        done := done + {jobs[i].id};
      }
      assert jobs[..|jobs|] == jobs;
      RestAtLast(done, before, ticks, keep, expected);
      forall k | 0 <= k < |jobs|
        ensures jobs[k].id in known <==> old(Kept(jobs[k], known))
        ensures jobs[k].id in known ==> known[jobs[k].id].tickIdx == curTick && known[jobs[k].id].actual == jobs[k]
        ensures Handled(jobs[k], before, old(Ticking(jobs[k], known, ticks)))
      {
        SeenAtLast(before, keep, expected, k);
      }
    }

    /** The second loop, in key order: a live job that was not seen this time is lost. */
    method MarkLost()
      requires forall id | id in known :: known[id].id == id
      requires forall p | p in pending :: p.actual == null
      requires NoDuplicates(pending)
      modifies `pending, known.Values`actual
      ensures forall id | id in known ::
        known[id].actual == (if known[id].tickIdx == curTick then old(known[id].actual) else null)
      ensures old(pending) <= pending && NoDuplicates(pending)
      ensures forall p :: p in pending <==>
        p in old(pending) || (p.id in known && known[p.id] == p && p.tickIdx != curTick && old(p.actual) != null)
    {
      var rest := known.Keys;
      while rest != {}
        invariant rest <= known.Keys
        invariant forall id | id in rest :: unchanged(known[id])
        invariant forall id | id in known && id !in rest ::
          known[id].actual == (if known[id].tickIdx == curTick then old(known[id].actual) else null)
        invariant old(pending) <= pending && NoDuplicates(pending)
        invariant forall p | p in pending :: p in old(pending) || p.id !in rest
        invariant forall p :: p in pending <==>
          p in old(pending) || (p.id in known && p.id !in rest && known[p.id] == p && p.tickIdx != curTick && old(p.actual) != null)
      {
        var id := Least(rest);
        rest := rest - {id};
        var pj := known[id];
        if pj.tickIdx != curTick && pj.actual != null {
          pj.actual := null;
          pending := pending + [pj];
        }
      }
    }

    /** Between the two loops: the protected jobs in the list carry this tick, the others an older one. */
    ghost predicate Swept()
      reads `jobs, `nextId, `known, `pending, `curTick, known.Values
    {
      && (forall id | id in known :: known[id].id == id && id < nextId && DelayOk(known[id]))
      && (forall j | j in jobs && j.id in known :: known[j.id].actual == j && known[j.id].tickIdx == curTick)
      && (forall id | id in known && id !in Ids(jobs) :: known[id].tickIdx < curTick)
      && (forall p | p in pending :: p.id in known && known[p.id] == p && p.actual == null && p.id !in Ids(jobs))
      && (forall id | id in known && known[id].actual == null :: known[id] in pending)
    }

    /** The known jobs that are not in the list. */
    ghost function Missing(): set<ProtectedJob>
      reads `known, `jobs
    {
      set id | id in known && id !in Ids(jobs) :: known[id]
    }

    method SweepJobs(ticks: nat)
      requires Valid()
      modifies `known, `curTick, known.Values, jobs`suspend
      ensures Swept()
      ensures forall j | j in jobs :: (j.id in known <==> old(Kept(j, known))) && Handled(j, old(known), old(Ticking(j, known, ticks)))
      ensures forall id | id !in Ids(jobs) :: id in known <==> id in old(known)
      ensures Missing() == old(Missing())
      ensures forall p | p in Missing() :: p in old(known).Values && Dormant(p) == old(Dormant(p))
      ensures forall pj | pj in known.Values :: pj in old(known).Values || fresh(pj)
    {
      hide Sorted, Kept, Handled, DelayOk;
      SeeLiveJobs(ticks);
      assert Missing() == old(Missing());
      forall pj | pj in known.Values ensures pj in old(known).Values || fresh(pj) {
        var id := KeyOf(known, pj);
      }
    }

    /** The second loop after the first. */
    method MarkMissing(ghost before: map<int, ProtectedJob>)
      requires GameOk() && Swept() && NoDuplicates(pending)
      modifies `pending, known.Values`actual
      ensures Valid() && Checked()
      ensures forall j, c | j in jobs && old(Handled(j, before, c)) :: Handled(j, before, c)
      ensures old(pending) <= pending
      ensures forall p :: p in pending <==> p in Missing()
    {
      hide Sorted;
      MarkLost();
    }

    /** check_lost_jobs: afterwards the live jobs are exactly the protected ones in the list, each ticked or
        adopted, and those waiting for recovery exactly the others, with their back-off as it was. */
    method CheckLostJobs(ticks: int)
      requires Valid()
      modifies `known, `pending, `curTick, known.Values, jobs`suspend
      ensures Valid() && Checked()
      ensures forall j | j in jobs ::
        && (j.id in known <==> old(Kept(j, known)))
        && Handled(j, old(known), old(Ticking(j, known, Max(0, ticks))))
      ensures forall id | id !in Ids(jobs) :: id in known <==> id in old(known)
      ensures old(pending) <= pending
      ensures forall p :: p in pending <==> p in old(Missing())
      ensures forall p | p in pending :: p in old(known).Values && Dormant(p) == old(Dormant(p))
      ensures Rooms() == old(Rooms())
      ensures forall id | id in known :: known[id] in old(known).Values || fresh(known[id])
    {
      hide Sorted, Kept, Ticked, Checked, Rooms, Swept, Handled, Missing, Dormant, DelayOk, Ticking;
      SweepJobs(Max(0, ticks));
      MarkMissing(old(known));
    }

    // ---- recovery ----

    /** linkJobIntoWorld(job, false), on the sequence of jobs. */
    method LinkOld(job: Job) returns (linked: bool)
      requires Sorted(jobs)
      modifies `jobs
      ensures Sorted(jobs)
      ensures linked <==> job.id !in Ids(old(jobs))
      ensures !linked ==> jobs == old(jobs)
      ensures linked ==> forall j :: j in jobs <==> j == job || j in old(jobs)
    {
      var k := 0;
      while k < |jobs| && jobs[k].id < job.id
        invariant k <= |jobs|
        invariant forall i | 0 <= i < k :: jobs[i].id < job.id
      {
        k := k + 1;
      }
      if k < |jobs| && jobs[k].id == job.id {
        assert jobs[k] in jobs;
        return false;
      }
      linked := true;
      jobs := jobs[..k] + [job] + jobs[k..];
    }

    predicate Blocked(list: seq<Job>) {
      list != [] && (list[0].jobType == destroyBuilding || list[0].jobType in strangeMoods)
    }

    /** The jobs of each building. */
    ghost function Rooms(): map<int, seq<Job>>
      reads `buildings, buildings.Values
    {
      map id | id in buildings :: buildings[id].jobs
    }

    ghost predicate HopelessIn(rooms: map<int, seq<Job>>, pj: ProtectedJob) {
      pj.buildingId !in rooms || |rooms[pj.buildingId]| >= 10
    }

    ghost predicate WaitsIn(rooms: map<int, seq<Job>>, pj: ProtectedJob) {
      !HopelessIn(rooms, pj) && Blocked(rooms[pj.buildingId])
    }

    /** The building is gone, or has all the jobs it can hold. */
    ghost predicate Hopeless(pj: ProtectedJob)
      reads `buildings, buildings.Values
    {
      HopelessIn(Rooms(), pj)
    }

    /** The building's first job is a destruction or a mood, and there is room behind it. */
    ghost predicate Waits(pj: ProtectedJob)
      reads `buildings, buildings.Values
    {
      WaitsIn(Rooms(), pj)
    }

    /** Back in the list under its own id. */
    ghost predicate BackInList(pj: ProtectedJob)
      reads `known, `jobs, pj`actual
    {
      && pj.actual != null && pj.actual in jobs && pj.actual.id == pj.id
      && pj.id in known && known[pj.id] == pj
    }

    /** No longer waiting: back in the list, or forgotten because its building could not take it. */
    ghost predicate Settled(pj: ProtectedJob)
      reads `known, `jobs, `buildings, buildings.Values, pj`actual
    {
      BackInList(pj) || (pj.id !in known && Hopeless(pj))
    }

    ghost predicate BuildingsOk()
      reads `buildings
    {
      forall id, other | id in buildings && other in buildings && id != other :: buildings[id] != buildings[other]
    }

    method ForgetJob(pj: ProtectedJob)
      modifies `known
      ensures known == old(known) - {pj.id}
    {
      known := known - {pj.id};
    }

    predicate Forgotten(before: map<int, ProtectedJob>, pj: ProtectedJob, list: seq<Job>)
      reads `known, `jobs, pj`actual
    {
      known == before - {pj.id} && jobs == list && pj.actual == null
    }

    /** What one try does to the job tried. */
    twostate predicate Tried(pj: ProtectedJob, done: bool)
      reads `known, `jobs, `frame, `buildings, buildings.Values, pj, pj.actual
    {
      && (if done then Settled(pj) else Waits(pj) && pj.actual == null)
      && (old(Hopeless(pj)) ==> pj.id !in known)
      && (old(Waits(pj)) ==> !done)
      && pj.View() == (if pj.actual == null then old(pj.View()) else Recovered(old(pj.View()), frame))
      && known == (if done && pj.actual == null then old(known) - {pj.id} else old(known))
    }

    /** The end of recover_job: a copy is linked under the old id, put into the building and recovered. The
        branch for an id that is already in the list is never taken. */
    method PutBack(pj: ProtectedJob, holder: Building)
      requires Sorted(jobs) && pj.id !in Ids(jobs) && pj.actual == null
      requires forall id | id in known :: known[id].id == id
      requires pj.id in known && known[pj.id] == pj && BuildingsOk() && DelayOk(pj)
      requires pj.buildingId in buildings && buildings[pj.buildingId] == holder
      requires !Hopeless(pj) && !Blocked(holder.jobs)
      modifies `jobs, pj, holder
      ensures Sorted(jobs)
      ensures pj.actual != null && fresh(pj.actual)
      ensures pj.actual.id == pj.id && pj.actual.repeat && pj.actual.jobType == pj.jobType
      ensures forall j :: j in jobs <==> j == pj.actual || j in old(jobs)
      ensures holder.jobs == old(holder.jobs) + [pj.actual]
      ensures pj.View() == Recovered(old(pj.View()), frame)
      ensures BackInList(pj) && pj.tickIdx == old(pj.tickIdx) && DelayOk(pj)
      ensures old(Checked()) ==> Checked()
      ensures Ids(jobs) <= old(Ids(jobs)) + {pj.id}
      ensures forall p: ProtectedJob | old(allocated(p)) ::
        && (old(Hopeless(p)) ==> Hopeless(p))
        && (old(Waits(p)) ==> Waits(p))
        && (p != pj && old(Settled(p)) ==> Settled(p))
    {
      hide Sorted;
      var recovered := new Job(pj.id, pj.jobType, false, false);
      var linked := LinkOld(recovered);
      if !linked {
        assert false;
      }
      holder.jobs := holder.jobs + [recovered];
      pj.Recover(recovered, frame);
    }

    /** recover_job on a job that is not live: forgotten, put off, or put back. */
    method RecoverJob(pj: ProtectedJob) returns (done: bool)
      requires Sorted(jobs) && pj.id !in Ids(jobs) && pj.actual == null
      requires forall id | id in known :: known[id].id == id
      requires pj.id in known && known[pj.id] == pj && BuildingsOk() && DelayOk(pj)
      modifies `known, `jobs, pj, if pj.buildingId in buildings then {buildings[pj.buildingId]} else {}
      ensures Sorted(jobs)
      ensures pj.buildingId !in buildings ==> done && Forgotten(old(known), pj, old(jobs)) && pj.View() == old(pj.View())
      ensures pj.buildingId in buildings ==>
        var b := buildings[pj.buildingId];
        if |old(b.jobs)| >= 10 then
          done && Forgotten(old(known), pj, old(jobs)) && b.jobs == old(b.jobs) && pj.View() == old(pj.View())
        else if old(b.jobs) != [] && (old(b.jobs)[0].jobType == destroyBuilding || old(b.jobs)[0].jobType in strangeMoods) then
          && !done && known == old(known) && jobs == old(jobs) && b.jobs == old(b.jobs)
          && pj.actual == null && pj.View() == old(pj.View())
        else
          && done && known == old(known) && pj.actual != null && fresh(pj.actual)
          && pj.actual.id == pj.id && pj.actual.repeat && pj.actual.jobType == pj.jobType
          && (forall j :: j in jobs <==> j == pj.actual || j in old(jobs))
          && b.jobs == old(b.jobs) + [pj.actual]
          && pj.View() == Recovered(old(pj.View()), frame)
      ensures Tried(pj, done) && pj.tickIdx == old(pj.tickIdx) && DelayOk(pj)
      ensures forall id | id in buildings :: buildings[id].jobs == old(buildings[id].jobs) + Gain(pj, id)
      ensures old(Checked()) ==> Checked()
      ensures Ids(jobs) <= old(Ids(jobs)) + {pj.id}
      ensures forall p: ProtectedJob | old(allocated(p)) ::
        && (old(Hopeless(p)) ==> Hopeless(p))
        && (old(Waits(p)) ==> Waits(p))
        && (p != pj && old(Settled(p)) ==> Settled(p))
    {
      hide Sorted, Ids, Recovered;
      if pj.buildingId !in buildings {
        ForgetJob(pj);
        return true;
      }
      var holder := buildings[pj.buildingId];
      if |holder.jobs| >= 10 {
        ForgetJob(pj);
        return true;
      }
      if holder.jobs != [] {
        var ftype := holder.jobs[0].jobType;
        if ftype == destroyBuilding {
          return false;
        }
        if ftype in strangeMoods {
          return false;
        }
      }
      PutBack(pj, holder);
      done := true;
    }

    /** recover_job, with what its callers rely on. */
    method RecoverWaiting(pj: ProtectedJob) returns (done: bool)
      requires Valid() && BuildingsOk() && pj in pending
      modifies `known, `jobs, pj, buildings.Values
      ensures Sorted(jobs) && Ids(jobs) <= old(Ids(jobs)) + {pj.id}
      ensures !done ==> jobs == old(jobs)
      ensures forall j | j in jobs :: j.id < nextId && (j in old(jobs) || fresh(j))
      ensures forall j | j in old(jobs) :: j in jobs
      ensures Added(old(jobs), old(Rooms()), [pj], jobs, Rooms())
      ensures Tried(pj, done) && pj.tickIdx == old(pj.tickIdx) && DelayOk(pj)
      ensures pj.actual == null || fresh(pj.actual)
      ensures old(Checked()) ==> Checked()
      ensures forall p: ProtectedJob | old(allocated(p)) ::
        && (old(Hopeless(p)) ==> Hopeless(p))
        && (old(Waits(p)) ==> Waits(p))
        && (p != pj && old(Settled(p)) ==> Settled(p))
    {
      hide Sorted, Checked, Waits, Settled, Hopeless, Recovered, DelayOk, ProtectedJob.View, Added;
      ghost var list, rooms := jobs, Rooms();
      done := RecoverJob(pj);
      AddedOne(list, rooms, pj, jobs, Rooms());
    }

    /** One round of recover_jobs: entry i is tried, and erased unless it is put off. What held of the
        other entries still holds of them. */
    method TryEntry(i: nat, pj: ProtectedJob, ghost front: seq<ProtectedJob>, ghost kept: seq<ProtectedJob>) returns (done: bool)
      requires Valid() && BuildingsOk()
      requires |front| == i && pending == front + ([pj] + kept)
      modifies `known, `jobs, `pending, pj, buildings.Values
      ensures Valid() && (old(Checked()) ==> Checked())
      ensures pending == front + (if done then kept else [pj] + kept)
      ensures forall j | j in old(jobs) :: j in jobs
      ensures forall j | j in jobs :: j in old(jobs) || fresh(j)
      ensures Tried(pj, done) && (pj.actual == null || fresh(pj.actual))
      ensures Added(old(jobs), old(Rooms()), [pj], jobs, Rooms())
      ensures forall p: ProtectedJob | old(allocated(p)) ::
        && (old(Hopeless(p)) ==> Hopeless(p))
        && (old(Waits(p)) ==> Waits(p))
        && (p != pj && old(Settled(p)) ==> Settled(p))
    {
      hide Checked, Sorted, Waits, Settled, Hopeless, Ids, NoDuplicates, DelayOk, Recovered, ProtectedJob.View, Added, Rooms;
      assert pending[..i] + pending[i + 1..] == front + kept;
      EraseOne(front, pj, kept);
      done := RecoverWaiting(pj);
      if done {
        pending := pending[..i] + pending[i + 1..];
      }
    }

    lemma PendingIsNotLive()
      requires Valid()
      ensures forall p | p in pending :: p.actual == null && p.id in known && known[p.id] == p
      ensures NoDuplicates(pending)
    {
    }

    /** What becomes of a job that is missing from the list, given whether its building made it wait or could not
        take it. If the missing are tried, one whose building's first job is a destruction or a mood waits, one
        whose building is gone or full is forgotten, and every other one is back in the list under its own id.
        If not, it waits. */
    ghost predicate Fate(p: ProtectedJob, tried: bool, waited: bool, hopeless: bool)
      reads `known, `jobs, `pending, `buildings, buildings.Values, p`actual
    {
      if tried then
        && (if p in pending then Waits(p) && p.actual == null else Settled(p))
        && (waited ==> p in pending) && (hopeless ==> p.id !in known)
      else
        p in pending && p.actual == null
    }

    /** Its state, given the one it had: the back-off is lengthened just when it is put back. */
    ghost function Back(p: ProtectedJob, start: Control): Control
      reads p`actual, `frame
    {
      if p.actual == null then start else Recovered(start, frame)
    }

    ghost predicate Outcome(p: ProtectedJob, tried: bool, start: Control, waited: bool, hopeless: bool)
      reads `known, `jobs, `frame, `pending, `buildings, buildings.Values, p, p.actual
    {
      Fate(p, tried, waited, hopeless) && p.View() == Back(p, start)
    }

    /** What recover_jobs has done when the first n entries are still to be tried: start holds the states the
        entries had, waiting and hopeless those that could not be put back from the start. */
    ghost predicate Passed(was: seq<ProtectedJob>, n: nat, kept: seq<ProtectedJob>, start: seq<Control>,
                           waiting: set<ProtectedJob>, hopeless: set<ProtectedJob>)
      requires n <= |was| == |start|
      reads this, was, buildings.Values, set p | p in was :: p.actual
    {
      && pending == was[..n] + kept
      && (forall p | p in kept :: p in was && Waits(p) && p.actual == null)
      && (forall k | n <= k < |was| :: was[k] in kept || Settled(was[k]))
      && (forall p | p in waiting :: Waits(p) && (p in was[..n] || p in kept))
      && (forall p | p in hopeless :: Hopeless(p) && (p in was[..n] || p.id !in known))
      && (forall k | 0 <= k < |was| ::
            was[k].View() == if was[k].actual == null then start[k] else Recovered(start[k], frame))
    }

    method TryNext(n: nat, ghost was: seq<ProtectedJob>, ghost kept: seq<ProtectedJob>, ghost start: seq<Control>,
                   ghost waiting: set<ProtectedJob>, ghost hopeless: set<ProtectedJob>, ghost list: seq<Job>,
                   ghost rooms: map<int, seq<Job>>) returns (ghost left: seq<ProtectedJob>)
      requires Valid() && BuildingsOk() && n < |was| == |start| && NoDuplicates(was)
      requires Passed(was, n + 1, kept, start, waiting, hopeless) && Added(list, rooms, was[n + 1..], jobs, Rooms())
      modifies `known, `jobs, `pending, {was[n]}, buildings.Values
      ensures Valid() && (old(Checked()) ==> Checked())
      ensures Passed(was, n, left, start, waiting, hopeless) && forall p | p in pending :: p in old(pending)
      ensures Added(list, rooms, was[n..], jobs, Rooms())
      ensures forall j | j in old(jobs) :: j in jobs
      ensures forall j | j in jobs :: j in old(jobs) || fresh(j)
      ensures was[n].actual == null || fresh(was[n].actual)
      ensures known == old(known) || known == old(known) - {was[n].id}
    {
      hide Valid, Checked, Settled, Waits, Hopeless, ProtectedJob.View, Recovered, Added, Rooms;
      ghost var list', rooms' := jobs, Rooms();
      var pj := pending[n];
      assert was[..n + 1] == was[..n] + [pj] && pj == was[n];
      assert pending == was[..n] + ([pj] + kept);
      PendingIsNotLive();
      assert pj !in was[n + 1..];
      var done := TryEntry(n, pj, was[..n], kept);
      AddedMore(list, rooms, was[n + 1..], list', rooms', pj, jobs, Rooms());
      assert [pj] + was[n + 1..] == was[n..];
      left := if done then kept else [pj] + kept;
    }

    lemma PassedAtFirst(start: seq<Control>, waiting: set<ProtectedJob>, hopeless: set<ProtectedJob>)
      requires Valid() && |start| == |pending| && forall k | 0 <= k < |pending| :: start[k] == Dormant(pending[k])
      requires waiting == set p | p in pending && Waits(p)
      requires hopeless == set p | p in pending && Hopeless(p)
      ensures Passed(pending, |pending|, [], start, waiting, hopeless)
    {
      hide Waits, Hopeless;
      assert pending[..|pending|] == pending;
    }

    lemma PassedAtLast(was: seq<ProtectedJob>, kept: seq<ProtectedJob>, start: seq<Control>, waiting: set<ProtectedJob>,
                       hopeless: set<ProtectedJob>, k: nat)
      requires |start| == |was| && Passed(was, 0, kept, start, waiting, hopeless) && k < |was|
      ensures pending == kept && forall p | p in kept :: p in was
      ensures if was[k] in pending then Waits(was[k]) && was[k].actual == null else Settled(was[k])
      ensures was[k] in waiting ==> was[k] in pending
      ensures was[k] in hopeless ==> was[k].id !in known
      ensures was[k].View() == if was[k].actual == null then start[k] else Recovered(start[k], frame)
    {
      hide Waits, Hopeless, Settled, ProtectedJob.View, Recovered;
      assert was[..0] + kept == kept;
    }

    lemma Views(s: seq<ProtectedJob>) returns (start: seq<Control>)
      ensures |start| == |s| && forall k | 0 <= k < |s| :: start[k] == Dormant(s[k])
    {
      if s == [] {
        start := [];
      } else {
        start := Views(s[..|s| - 1]);
        start := start + [Dormant(s[|s| - 1])];
      }
    }

    /** recover_jobs. */
    method RecoverJobs()
      requires Valid() && BuildingsOk()
      modifies `known, `jobs, `pending, pending, buildings.Values
      ensures Valid() && (old(Checked()) ==> Checked())
      ensures forall p | p in pending :: p in old(pending)
      ensures forall p | p in old(pending) :: Outcome(p, true, old(Dormant(p)), old(Waits(p)), old(Hopeless(p)))
      ensures forall p | p in old(pending) :: p.actual == null || fresh(p.actual)
      ensures forall j | j in old(jobs) :: j in jobs
      ensures forall j | j in jobs :: j in old(jobs) || fresh(j)
      ensures forall id | id in known :: id in old(known) && known[id] == old(known)[id]
      ensures forall id | id in old(known) && old(known)[id] !in old(pending) :: id in known
      ensures Added(old(jobs), old(Rooms()), old(pending), jobs, Rooms())
    {
      hide Added, Rooms, Valid, Checked, Passed, BuildingsOk, NoDuplicates, Waits, Hopeless, Settled, ProtectedJob.View, Recovered;
      PendingIsNotLive();
      var i: nat := |pending|;
      ghost var was, kept := pending, [];
      ghost var start := Views(pending);
      ghost var waiting := set p | p in pending && Waits(p);
      ghost var hopeless := set p | p in pending && Hopeless(p);
      ghost var list, rooms := jobs, Rooms();
      PassedAtFirst(start, waiting, hopeless);
      AddedNothing(list, rooms, was[|was|..]);
      while i > 0
        invariant i <= |was| && Valid() && (old(Checked()) ==> Checked())
        invariant Passed(was, i, kept, start, waiting, hopeless) && Added(list, rooms, was[i..], jobs, Rooms())
        invariant forall p | p in pending :: p in was
        invariant forall p | p in was :: p.actual == null || fresh(p.actual)
        invariant forall j | j in old(jobs) :: j in jobs
        invariant forall j | j in jobs :: j in old(jobs) || fresh(j)
        invariant forall id | id in known :: id in old(known) && known[id] == old(known)[id]
        invariant forall id | id in old(known) && old(known)[id] !in was :: id in known
      {
        i := i - 1;
        kept := TryNext(i, was, kept, start, waiting, hopeless, list, rooms);
      }
      assert was[0..] == was;
      forall k | 0 <= k < |was|
        ensures Outcome(was[k], true, old(Dormant(was[k])), old(Waits(was[k])), old(Hopeless(was[k])))
      {
        PassedAtLast(was, kept, start, waiting, hopeless, k);
      }
    }

    // ---- ticks ----

    /** Nothing happened, to the plugin or to the game. */
    twostate predicate Idle()
      reads `known, `pending, `jobs, `curTick, `lastRlen, `lastFrame, `lastTickFrame, known.Values,
        `buildings, jobs, buildings.Values
    {
      && known == old(known) && pending == old(pending) && jobs == old(jobs) && curTick == old(curTick)
      && lastRlen == old(lastRlen) && lastFrame == old(lastFrame) && lastTickFrame == old(lastTickFrame)
      && (forall pj | pj in old(known).Values :: unchanged(pj))
      && (forall j | j in old(jobs) :: unchanged(j))
      && buildings == old(buildings) && (forall b | b in old(buildings).Values :: unchanged(b))
    }

    lemma ListedIsLive()
      requires Checked()
      ensures forall j | j in jobs && j.id in known :: known[j.id].actual == j
    {
    }

    lemma WaitsAsItWas(p: ProtectedJob)
      requires Valid() && p in pending
      ensures Outcome(p, false, Dormant(p), Waits(p), Hopeless(p))
    {
      hide Waits, Hopeless;
    }

    method RecoverIfDue(checkTime: bool, ghost before: map<int, ProtectedJob>) returns (tried: bool)
      requires Valid() && Checked() && BuildingsOk()
      modifies `known, `jobs, `pending, `lastRlen, `lastFrame, pending, buildings.Values
      ensures Valid() && Checked() && lastRlen == |pending|
      ensures lastFrame == if checkTime then frame else old(lastFrame)
      ensures forall p | p in pending :: p in old(pending)
      ensures forall p | p in old(pending) :: p.actual == null || fresh(p.actual)
      ensures tried == (checkTime || |old(pending)| != old(lastRlen))
      ensures forall p | p in old(pending) :: Outcome(p, tried, old(Dormant(p)), old(Waits(p)), old(Hopeless(p)))
      ensures forall j | j in old(jobs) :: j in jobs
      ensures forall j | j in jobs :: j in old(jobs) || fresh(j)
      ensures forall id | id in known :: id in old(known) && known[id] == old(known)[id]
      ensures forall j | j in old(jobs) :: j.id in known <==> j.id in old(known)
      ensures Added(old(jobs), old(Rooms()), old(pending), jobs, Rooms())
      ensures forall j, c | j in old(jobs) && old(Handled(j, before, c)) :: Handled(j, before, c)
    {
      hide Valid, Checked, Waits, Settled, Hopeless, BuildingsOk, Added, Rooms, Outcome, Dormant, ProtectedJob.View;
      PendingIsNotLive();
      AddedNothing(jobs, Rooms(), pending);
      ListedIsLive();
      tried := |pending| != lastRlen || checkTime;
      if tried {
        RecoverJobs();
        lastRlen := |pending|;
        if checkTime {
          lastFrame := frame;
        }
      } else {
        forall p | p in pending ensures Outcome(p, false, Dormant(p), Waits(p), Hopeless(p)) {
          WaitsAsItWas(p);
        }
      }
    }

    lemma MissingAreKnown()
      ensures forall p | p in Missing() :: p in known.Values
    {
    }

    /** An update that does its work: the check, and the recovery when it is due. */
    method Recheck(checkTime: bool) returns (tried: bool, ghost lost: seq<ProtectedJob>)
      requires Valid() && BuildingsOk()
      modifies `known, `pending, `curTick, `jobs, `lastTickFrame, `lastFrame, `lastRlen,
        known.Values, jobs`suspend, buildings.Values
      ensures Valid() && Checked() && lastRlen == |pending| && lastTickFrame == frame
      ensures lastFrame == if checkTime then frame else old(lastFrame)
      ensures forall j | j in old(jobs) ::
        && j in jobs && (j.id in known <==> old(Kept(j, known)))
        && Handled(j, old(known), old(Ticking(j, known, Max(0, frame - lastTickFrame))))
      ensures NoDuplicates(lost) && forall p :: p in lost <==> p in old(Missing())
      ensures Added(old(jobs), old(Rooms()), lost, jobs, Rooms())
      ensures forall p | p in pending :: p in old(Missing())
      ensures tried == (checkTime || |old(Missing())| != old(lastRlen))
      ensures forall p | p in old(Missing()) :: Outcome(p, tried, old(Dormant(p)), old(Waits(p)), old(Hopeless(p)))
      ensures forall id | id in known :: id in old(known) || id in old(Ids(jobs))
      ensures forall id | id in known :: known[id] in old(known).Values || fresh(known[id])
      ensures forall j | j in jobs :: j in old(jobs) || fresh(j)
    {
      hide Valid, Checked, Sorted, Ids, Kept, WaitsIn, Settled, HopelessIn, Rooms, ProtectedJob.View, Recovered, Ticked, Missing,
           BuildingsOk, NoDuplicates, Ticking, Outcome, Dormant, DelayOk, Handled, Max, Added;
      ghost var missing := Missing();
      MissingAreKnown();
      CheckLostJobs(frame - lastTickFrame);
      lost := pending;
      PendingIsNotLive();
      SizeOfList(lost, missing);
      lastTickFrame := frame;
      tried := RecoverIfDue(checkTime, old(known));
      forall p | p in missing ensures Outcome(p, tried, old(Dormant(p)), old(Waits(p)), old(Hopeless(p))) {
        assert p in lost;
      }
    }

    /** plugin_onupdate up to the constraints: every fifth frame the jobs are checked; those missing are tried
        when their number is not what was left waiting last time, or half a day has passed, and only then,
        after half a day, are the constraints due. */
    method OnUpdate() returns (constraintsDue: bool, tried: bool, ghost lost: seq<ProtectedJob>)
      requires Valid() && BuildingsOk() && cnt < 0x1_0000_0000
      modifies `known, `pending, `curTick, `jobs, `cnt, `lastTickFrame, `lastFrame, `lastRlen,
        known.Values, jobs`suspend, buildings.Values
      ensures Valid() && cnt == (old(cnt) + if enabled then 1 else 0) % 0x1_0000_0000
      ensures !enabled || cnt % 5 != 0 ==> !constraintsDue && Idle()
      ensures enabled && cnt % 5 == 0 ==>
        && Checked() && lastRlen == |pending| && lastTickFrame == frame
        && (constraintsDue <==> frame - old(lastFrame) >= DAY_TICKS / 2)
        && lastFrame == if constraintsDue then frame else old(lastFrame)
      ensures enabled && cnt % 5 == 0 ==> forall j | j in old(jobs) ::
        && j in jobs && (j.id in known <==> old(Kept(j, known)))
        && Handled(j, old(known), old(Ticking(j, known, Max(0, frame - lastTickFrame))))
      ensures enabled && cnt % 5 == 0 ==>
        && NoDuplicates(lost) && (forall p :: p in lost <==> p in old(Missing()))
        && Added(old(jobs), old(Rooms()), lost, jobs, Rooms())
        && tried == (constraintsDue || |old(Missing())| != old(lastRlen))
        && (forall p | p in pending :: p in old(Missing()))
        && (forall p | p in old(Missing()) :: Outcome(p, tried, old(Dormant(p)), old(Waits(p)), old(Hopeless(p))))
      ensures forall id | id in known :: id in old(known) || id in old(Ids(jobs))
      ensures forall id | id in known :: known[id] in old(known).Values || fresh(known[id])
      ensures forall j | j in jobs :: j in old(jobs) || fresh(j)
    {
      hide Valid, Checked, Kept, Ids, Waits, Settled, Hopeless, ProtectedJob.View, Recovered, Ticking, Missing, BuildingsOk,
           Outcome, Dormant, Handled, Max, Added, Rooms;
      constraintsDue, tried, lost := false, false, [];
      if !enabled {
        return;
      }
      cnt := (cnt + 1) % 0x1_0000_0000;
      if cnt % 5 != 0 {
        return;
      }
      constraintsDue := frame - lastFrame >= DAY_TICKS / 2;
      assert Missing() == old(Missing());
      tried, lost := Recheck(constraintsDue);
    }

    /** Whatever the game does between updates keeps the plugin's state consistent: it may delete and add
        jobs, flip any flag and change any building, as long as an id below job_next_id that is not in the
        list never appears in it again. */
    twostate lemma GameKeepsValid()
      requires old(Valid())
      requires known == old(known) && pending == old(pending) && curTick == old(curTick)
      requires forall id | id in known :: unchanged(known[id])
      requires GameOk() && old(nextId) <= nextId
      requires forall j | j in jobs :: j.id in old(Ids(jobs)) || j.id >= old(nextId)
      ensures Valid()
    {
      forall p | p in pending ensures p.id !in Ids(jobs) {
        assert p.id in known && p.id < old(nextId);
      }
    }

    /** stop_protect. */
    method StopProtect()
      requires GameOk()
      modifies `known, `pending
      ensures Valid() && known == map[] && pending == []
    {
      known, pending := map[], [];
    }
  }
}
