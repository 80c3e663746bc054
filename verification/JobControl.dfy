/** plugins/workflow.cpp: how one protected job is suspended, resumed and backed off.
    The values come first, then the class whose methods update them in place. */
module JobControl {

  const DAY_TICKS := 1200
  const MONTH_DAYS := 28

  predicate NoDuplicates<T(==)>(s: seq<T>) {
    forall i, j | 0 <= i < j < |s| :: s[i] != s[j]
  }

  function Max(a: int, b: int): int { if a >= b then a else b }
  function Min(a: int, b: int): int { if a <= b then a else b }

  /** What decides when a job runs: the suspend flag of the job in the game and the three fields. */
  datatype Control = Control(suspended: bool, want: bool, time: int, delay: int) {
    predicate IsResumed() { want || !suspended }
  }

  function Ticked(c: Control, frame: int, ticks: nat): Control {
    if !c.suspended then c.(time := 0, delay := Max(DAY_TICKS, c.delay - ticks))
    else if !c.want then c
    else if c.time == 0 then c.(want := false)
    else if frame >= c.time then c.(suspended := false)
    else c
  }

  function Recovered(c: Control, frame: int): Control {
    var delay := Min(DAY_TICKS * MONTH_DAYS, 5 * c.delay / 3);
    Control(true, c.want, frame + delay, delay)
  }

  function Set(c: Control, resume: bool, frame: int): Control {
    if resume then c.(suspended := c.suspended && frame < c.time, want := true)
    else Control(true, false, 0, if c.suspended then c.delay else DAY_TICKS)
  }

  class Job {
    const id: int
    const jobType: int
    var repeat: bool
    var suspend: bool

    constructor (id: int, jobType: int, repeat: bool, suspend: bool)
      ensures this.id == id && this.jobType == jobType && this.repeat == repeat && this.suspend == suspend
    {
      this.id, this.jobType, this.repeat, this.suspend := id, jobType, repeat, suspend;
    }
  }

  /** A material is a pair of type and index; masks are material category bit sets. */
  type Material = (int, int)

  class ItemConstraint {
    const itemType: int
    const itemSubtype: int
    const material: Material
    const mask: bv32
    const weight: int
    var goalCount: int
    var gapSetting: int
    var byCount: bool
    var jobs: seq<ProtectedJob>
    var itemAmount: int
    var itemCount: int
    var itemInuse: int
    var requestSuspend: bool
    var requestResume: bool
    var isActive: bool
    var materialCache: map<Material, bool>

    function Size(): int
      reads `byCount, `itemCount, `itemAmount
    {
      if byCount then itemCount else itemAmount
    }

    method ComputeRequest()
      modifies `requestResume, `requestSuspend
      ensures requestResume <==> (if byCount then itemCount else itemAmount) <= goalCount - GoalGap(goalCount, gapSetting)
      ensures requestSuspend <==> (if byCount then itemCount else itemAmount) >= goalCount
      ensures !(requestResume && requestSuspend)
    {
      var size := Size();
      requestResume := size <= goalCount - GoalGap(goalCount, gapSetting);
      requestSuspend := size >= goalCount;
    }
  }

  /** C++ integer division by two, which truncates toward zero. */
  function Half(n: int): int {
    if n >= 0 then n / 2 else -(-n / 2)
  }

  /** The greatest number that is at most half the goal (or one) and at most what was asked for, or five. */
  function GoalGap(goalCount: int, gapSetting: int): (gap: int)
    ensures 1 <= gap
    ensures gap == 1 || 2 * gap <= goalCount
    ensures gap <= if gapSetting <= 0 then 5 else gapSetting
    ensures gap == (if gapSetting <= 0 then 5 else gapSetting) || 2 * (gap + 1) > goalCount
  {
    Min(Max(1, Half(goalCount)), if gapSetting <= 0 then 5 else gapSetting)
  }

  class ProtectedJob {
    const id: int
    const buildingId: int
    const jobType: int         // of job_copy
    var tickIdx: int
    var actual: Job?
    var wantResumed: bool
    var resumeTime: int
    var resumeDelay: int
    var constraints: seq<ItemConstraint>

    constructor (job: Job, buildingId: int, curTick: int)
      ensures id == job.id && this.buildingId == buildingId && jobType == job.jobType
      ensures tickIdx == curTick && actual == job
      ensures View() == Control(job.suspend, false, 0, DAY_TICKS)
    {
      id, this.buildingId, jobType := job.id, buildingId, job.jobType;
      tickIdx, actual := curTick, job;
      wantResumed, resumeTime, resumeDelay := false, 0, DAY_TICKS;
      constraints := [];
    }

    /** A job that is not live counts as suspended. */
    ghost function View(): Control
      reads `actual, `wantResumed, `resumeTime, `resumeDelay, actual
    {
      Control(actual == null || actual.suspend, wantResumed, resumeTime, resumeDelay)
    }

    predicate IsActuallyResumed()
      reads `actual, actual
    {
      actual != null && !actual.suspend
    }

    predicate IsResumed()
      reads `wantResumed, `actual, actual
    {
      wantResumed || IsActuallyResumed()
    }

    method TickJob(job: Job, ticks: nat, curTick: int, frame: int)
      modifies `tickIdx, `actual, `wantResumed, `resumeTime, `resumeDelay, job`suspend
      ensures tickIdx == curTick && actual == job
      ensures View() == Ticked(old(Control(job.suspend, wantResumed, resumeTime, resumeDelay)), frame, ticks)
    {
      tickIdx := curTick;
      actual := job;
      if IsActuallyResumed() {
        resumeTime := 0;
        resumeDelay := Max(DAY_TICKS, resumeDelay - ticks);
      } else if wantResumed {
        if resumeTime == 0 {
          wantResumed := false;
        } else if frame >= resumeTime {
          job.suspend := false;
        }
      }
    }

    method Recover(job: Job, frame: int)
      modifies `actual, `resumeTime, `resumeDelay, job`repeat, job`suspend
      ensures actual == job && job.repeat
      ensures View() == Recovered(old(View()), frame)
    {
      actual := job;
      job.repeat := true;
      job.suspend := true;
      resumeDelay := Min(DAY_TICKS * MONTH_DAYS, 5 * resumeDelay / 3);
      resumeTime := frame + resumeDelay;
    }

    method SetResumed(resume: bool, frame: int)
      requires actual != null
      modifies `wantResumed, `resumeTime, `resumeDelay, actual`suspend
      ensures View() == Set(old(View()), resume, frame)
    {
      if resume {
        if frame >= resumeTime {
          actual.suspend := false;
        }
      } else {
        resumeTime := 0;
        if IsActuallyResumed() {
          resumeDelay := DAY_TICKS;
        }
        actual.suspend := true;
      }
      wantResumed := resume;
    }
  }

  /** The back-off delay is between a day and a month. */
  ghost predicate DelayOk(pj: ProtectedJob)
    reads pj`resumeDelay
  {
    DAY_TICKS <= pj.resumeDelay <= DAY_TICKS * MONTH_DAYS
  }

  // ---- runs of one job ----

  /** Outside is the player or the game setting the suspend flag. */
  datatype Event =
    | Tick(frame: int, ticks: nat)
    | Goal(resume: bool, frame: int)
    | Lost(frame: int)
    | Outside(suspended: bool)

  function After(c: Control, e: Event): Control {
    match e
    case Tick(frame, ticks) => Ticked(c, frame, ticks)
    case Goal(resume, frame) => Set(c, resume, frame)
    case Lost(frame) => Recovered(c, frame)
    case Outside(suspended) => c.(suspended := suspended)
  }

  function AfterAll(c: Control, es: seq<Event>): Control {
    if es == [] then c else After(AfterAll(c, es[..|es| - 1]), es[|es| - 1])
  }

  lemma {:induction false} AfterAllJoined(c: Control, es: seq<Event>, fs: seq<Event>)
    ensures AfterAll(c, es + fs) == AfterAll(AfterAll(c, es), fs)
  {
    if fs == [] {
      assert es + fs == es;
    } else {
      var n := |fs| - 1;
      AfterAllJoined(c, es, fs[..n]);
      assert (es + fs)[..|es + fs| - 1] == es + fs[..n];
    }
  }

  lemma AfterOne(c: Control, e: Event)
    ensures AfterAll(c, [e]) == After(c, e)
  {
    assert [e][..0] == [];
  }

  lemma AfterTwo(c: Control, e: Event, f: Event)
    ensures AfterAll(c, [e, f]) == After(After(c, e), f)
  {
    assert [e, f][..1] == [e];
    AfterOne(c, e);
  }

  // ---- ticks ----

  function TotalTicks(es: seq<Event>): int {
    if es == [] then 0
    else TotalTicks(es[..|es| - 1]) + if es[|es| - 1].Tick? then es[|es| - 1].ticks else 0
  }

  /** While a job runs its delay wears off, tick by tick, down to a day. */
  lemma {:induction false} RunningWearsOff(c: Control, es: seq<Event>)
    requires !c.suspended && es != [] && forall e | e in es :: e.Tick?
    ensures AfterAll(c, es) == Control(false, c.want, 0, Max(DAY_TICKS, c.delay - TotalTicks(es)))
  {
    var n := |es| - 1;
    assert es[n] in es;
    if n == 0 {
      assert es[..0] == [];
    } else {
      assert forall e | e in es[..n] :: e in es;
      RunningWearsOff(c, es[..n]);
    }
  }

  /** A job that is suspended and not wanted stays as it is, whatever time passes. */
  lemma {:induction false} UnwantedStays(c: Control, es: seq<Event>)
    requires c.suspended && !c.want && forall e | e in es :: e.Tick?
    ensures AfterAll(c, es) == c
  {
    if es != [] {
      var n := |es| - 1;
      assert es[n] in es && forall e | e in es[..n] :: e in es;
      UnwantedStays(c, es[..n]);
    }
  }

  /** A running job that somebody else suspends is no longer wanted at the next tick, and stays suspended: the
      plugin does not fight the player. */
  lemma PlayerSuspends(c: Control, f: int, t: nat, g: int, u: nat, es: seq<Event>)
    requires !c.suspended && forall e | e in es :: e.Tick?
    ensures AfterAll(c, [Tick(f, t), Outside(true), Tick(g, u)] + es)
      == Control(true, false, 0, Max(DAY_TICKS, c.delay - t))
  {
    var first := [Tick(f, t), Outside(true), Tick(g, u)];
    assert first[..2] == [Tick(f, t), Outside(true)];
    AfterTwo(c, Tick(f, t), Outside(true));
    AfterAllJoined(c, first, es);
    UnwantedStays(AfterAll(c, first), es);
  }

  // ---- goals ----

  /** A goal to run that comes too early is carried out by the first tick that is not. */
  lemma EarlyGoalIsKept(c: Control, frame: int, early: int, t: nat, later: int, u: nat)
    requires c.suspended && c.time != 0 && frame < c.time && early < c.time <= later
    ensures AfterAll(c, [Goal(true, frame), Tick(early, t)]).suspended
    ensures !AfterAll(c, [Goal(true, frame), Tick(later, u)]).suspended
  {
    AfterTwo(c, Goal(true, frame), Tick(early, t));
    AfterTwo(c, Goal(true, frame), Tick(later, u));
  }

  /** A goal to stop holds through any time, and takes the waiting time with it: the next goal to run is carried
      out at once. Stopping a job that runs also takes it back to the shortest delay, so that its next loss costs
      2000 ticks. */
  lemma StopGoal(c: Control, frame: int, es: seq<Event>, later: nat)
    requires forall e | e in es :: e.Tick?
    ensures var d := AfterAll(c, [Goal(false, frame)] + es);
      && d.suspended && !d.want && !After(d, Goal(true, later)).suspended
      && Recovered(d, later).delay == if c.suspended then Recovered(c, later).delay else 2000
  {
    AfterOne(c, Goal(false, frame));
    AfterAllJoined(c, [Goal(false, frame)], es);
    UnwantedStays(After(c, Goal(false, frame)), es);
  }

  /** The delay never leaves a day to a month, whatever happens to the job. */
  lemma {:induction false} DelayStaysInRange(c: Control, es: seq<Event>)
    requires DAY_TICKS <= c.delay <= DAY_TICKS * MONTH_DAYS
    ensures DAY_TICKS <= AfterAll(c, es).delay <= DAY_TICKS * MONTH_DAYS
  {
    if es != [] {
      DelayStaysInRange(c, es[..|es| - 1]);
    }
  }

  function FrameOf(e: Event): int {
    match e
    case Tick(f, _) => f
    case Goal(_, f) => f
    case Lost(f) => f
    case Outside(_) => 0
  }

  /** No loss, no suspend goal, and nobody but the plugin unsuspends the job. */
  predicate Quiet(es: seq<Event>) {
    forall e | e in es :: !e.Lost? && e != Outside(false) && !(e.Goal? && !e.resume)
  }

  /** A job suspended with a time to wait for stays so until that time comes: the plugin itself can only undo that
      through a suspend goal; otherwise it takes the player, or losing the job. */
  lemma {:induction false} StaysSuspended(c: Control, es: seq<Event>)
    requires Quiet(es) && c.suspended && 0 < c.time && forall e | e in es :: FrameOf(e) < c.time
    ensures AfterAll(c, es).suspended && AfterAll(c, es).time == c.time && AfterAll(c, es).delay == c.delay
  {
    if es != [] {
      assert forall e | e in es[..|es| - 1] :: e in es;
      assert es[|es| - 1] in es;
      StaysSuspended(c, es[..|es| - 1]);
    }
  }

  /** In particular a recovered job stays suspended until its resume time. */
  lemma NotBeforeResumeTime(c: Control, lostAt: int, es: seq<Event>)
    requires Quiet(es)
    requires var r := Recovered(c, lostAt); 0 < r.time && forall e | e in es :: FrameOf(e) < r.time
    ensures var r := Recovered(c, lostAt);
      AfterAll(r, es).suspended && AfterAll(r, es).time == r.time && AfterAll(r, es).delay == r.delay
  {
    StaysSuspended(Recovered(c, lostAt), es);
  }

  /** And when the plugin then wants it to run, it runs exactly from that time on. */
  lemma ResumesWhenTimeComes(c: Control, lostAt: int, es: seq<Event>, frame: int)
    requires Quiet(es)
    requires var r := Recovered(c, lostAt); 0 < r.time && forall e | e in es :: FrameOf(e) < r.time
    ensures var r := Recovered(c, lostAt);
      Set(AfterAll(r, es), true, frame).suspended <==> frame < r.time
    ensures var r := Recovered(c, lostAt);
      AfterAll(r, es).want ==> forall ticks: nat :: Ticked(AfterAll(r, es), frame, ticks).suspended <==> frame < r.time
  {
    NotBeforeResumeTime(c, lostAt, es);
  }

  function Losses(frames: seq<int>): seq<Event> {
    if frames == [] then [] else Losses(frames[..|frames| - 1]) + [Lost(frames[|frames| - 1])]
  }

  lemma LossesStep(c: Control, frames: seq<int>)
    requires frames != []
    ensures var n := |frames| - 1;
      AfterAll(c, Losses(frames)) == Recovered(AfterAll(c, Losses(frames[..n])), frames[n])
  {
    hide Recovered;
    var es := Losses(frames[..|frames| - 1]);
    assert Losses(frames)[..|es|] == es;
  }

  /** Losing a job again and again, without it ever running, lengthens the delay each time by 800 ticks or
      more until it is a month. */
  lemma {:induction false} BackOffGrows(c: Control, frames: seq<int>)
    requires DAY_TICKS <= c.delay <= DAY_TICKS * MONTH_DAYS
    ensures AfterAll(c, Losses(frames)).delay >= Min(DAY_TICKS * MONTH_DAYS, c.delay + |frames| * 800)
  {
    hide AfterAll, Losses;
    if frames == [] {
      NoLosses(c);
    } else {
      var n := |frames| - 1;
      BackOffGrows(c, frames[..n]);
      DelayStaysInRange(c, Losses(frames[..n]));
      LossesStep(c, frames);
    }
  }

  lemma NoLosses(c: Control)
    ensures AfterAll(c, Losses([])) == c
  {
  }

  /** The delays in ticks of a new job that is lost again and again. */
  function BackOff(losses: nat): int {
    match losses
    case 0 => 1200 case 1 => 2000 case 2 => 3333 case 3 => 5555
    case 4 => 9258 case 5 => 15430 case 6 => 25716 case _ => 33600
  }

  lemma {:induction false} BackOffTable(c: Control, frames: seq<int>)
    requires c.delay == 1200
    ensures AfterAll(c, Losses(frames)).delay == BackOff(|frames|)
  {
    hide AfterAll, Losses;
    if frames == [] {
      NoLosses(c);
    } else {
      BackOffTable(c, frames[..|frames| - 1]);
      LossesStep(c, frames);
    }
  }
}
