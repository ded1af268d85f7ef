/** The life of the video rows: editing requests claim a row and start a job, jobs write back,
    users delete, workers sweep, and a crash may lose any job. Every database statement is one
    atomic step; everything interleaves. Times are in milliseconds. */
module Lifecycle {
  import opened Options

  const JOB_DEADLINE: int := 600000
  const RECOVERY: int := 5000
  const STUCK_AFTER: int := 900000
  const STALE_UPLOAD: int := 86400000

  datatype Status = Uploading | Processing | Ready | Deleted

  /** media stands for the columns that transcoding and normalizing write. */
  datatype Row = Row(status: Status, startedAt: Option<int>, webcam: bool, createdAt: int, media: int, purged: bool)

  datatype Kind = Trim | RemoveSegments | Composite

  /** A job that has not yet committed or given up: waiting for its goroutine to start,
      running under its deadline, or about to write its fallback. */
  datatype Phase = Pending(due: int) | Running(due: int) | Recovering(due: int)

  datatype Job = Job(video: int, kind: Kind, claimedAt: int, phase: Phase)

  datatype State = State(now: int, rows: map<int, Row>, jobs: map<int, Job>, lastSweep: int)

  /** How late a job's goroutine may start after the claim, how far apart sweeps may be, and
      whether jobs end by the times they are due: their contexts say so, but a job may hang. */
  datatype Limits = Limits(startDelay: nat, sweepEvery: nat, jobsEndInTime: bool)

  datatype Step =
    | Upload(v: int, webcam: bool)
    | Finalize(v: int, withWebcam: bool, job: int)
    | Claim(v: int, kind: Kind, job: int)
    | Start(job: int)
    | Fail(job: int)
    | Fallback(job: int)
    | Commit(job: int)
    | Lose(lost: set<int>)
    | Delete(v: int)
    | WriteMedia(v: int, media: int)
    | Purge(v: int)
    | AbandonUploads
    | Sweep
    | Tick(time: int)

  function Initial(): State {
    State(0, map[], map[], 0)
  }

  /** The guards: the WHERE clauses, the contexts, and the limits on time. */
  predicate Enabled(lim: Limits, s: State, e: Step) {
    match e
    case Upload(v, _) => v !in s.rows
    case Finalize(v, _, j) => v in s.rows && s.rows[v].status == Uploading && j !in s.jobs
    case Claim(v, kind, j) => v in s.rows && s.rows[v].status == Ready && kind != Composite && j !in s.jobs
    case Start(j) => j in s.jobs && s.jobs[j].phase.Pending?
    case Fail(j) => j in s.jobs && s.jobs[j].phase.Running?
    case Fallback(j) => j in s.jobs && s.jobs[j].phase.Recovering?
    case Commit(j) => j in s.jobs && s.jobs[j].phase.Running?
    case Lose(_) => true
    case Delete(v) => v in s.rows && s.rows[v].status != Deleted
    case WriteMedia(v, _) => v in s.rows
    case Purge(v) => v in s.rows
    case AbandonUploads => true
    case Sweep => true
    case Tick(time) =>
      && s.now < time <= s.lastSweep + lim.sweepEvery
      && (lim.jobsEndInTime ==> forall j :: j in s.jobs ==> time <= s.jobs[j].phase.due)
  }

  function Stuck(r: Row, now: int): bool {
    r.status == Processing && (r.startedAt.None? || r.startedAt.value < now - STUCK_AFTER)
  }

  function SweepRow(r: Row, now: int): Row {
    if Stuck(r, now) then r.(status := Ready, webcam := false, startedAt := None) else r
  }

  function AbandonRow(r: Row, now: int): Row {
    if r.status == Uploading && r.createdAt < now - STALE_UPLOAD then r.(status := Deleted) else r
  }

  /** The UPDATE of a finished job: it has no guard on the status. */
  function Committed(r: Row, kind: Kind): Row {
    r.(status := Ready, startedAt := None, webcam := if kind == Composite then false else r.webcam)
  }

  function FellBack(r: Row, kind: Kind): Row {
    if r.status == Processing then
      r.(status := Ready, startedAt := None, webcam := if kind == Composite then false else r.webcam)
    else r
  }

  function Next(lim: Limits, s: State, e: Step): State
    requires Enabled(lim, s, e)
  {
    match e
    case Upload(v, webcam) =>
      s.(rows := s.rows[v := Row(Uploading, None, webcam, s.now, 0, false)])
    case Finalize(v, withWebcam, j) =>
      if withWebcam then
        s.(rows := s.rows[v := s.rows[v].(status := Processing, startedAt := Some(s.now))],
           jobs := s.jobs[j := Job(v, Composite, s.now, Pending(s.now + lim.startDelay))])
      else
        s.(rows := s.rows[v := s.rows[v].(status := Ready, startedAt := None)])
    case Claim(v, kind, j) =>
      s.(rows := s.rows[v := s.rows[v].(status := Processing, startedAt := Some(s.now))],
         jobs := s.jobs[j := Job(v, kind, s.now, Pending(s.now + lim.startDelay))])
    case Start(j) => s.(jobs := s.jobs[j := s.jobs[j].(phase := Running(s.now + JOB_DEADLINE))])
    case Fail(j) => s.(jobs := s.jobs[j := s.jobs[j].(phase := Recovering(s.now + RECOVERY))])
    case Fallback(j) =>
      var job := s.jobs[j];
      s.(jobs := s.jobs - {j},
         rows := if job.video in s.rows then s.rows[job.video := FellBack(s.rows[job.video], job.kind)] else s.rows)
    case Commit(j) =>
      var job := s.jobs[j];
      s.(jobs := s.jobs - {j},
         rows := if job.video in s.rows then s.rows[job.video := Committed(s.rows[job.video], job.kind)] else s.rows)
    case Lose(lost) => s.(jobs := s.jobs - lost)
    case Delete(v) => s.(rows := s.rows[v := s.rows[v].(status := Deleted)])
    case WriteMedia(v, media) => s.(rows := s.rows[v := s.rows[v].(media := media)])
    case Purge(v) => s.(rows := s.rows[v := s.rows[v].(purged := true)])
    case AbandonUploads => s.(rows := map v | v in s.rows :: AbandonRow(s.rows[v], s.now))
    case Sweep => s.(rows := map v | v in s.rows :: SweepRow(s.rows[v], s.now), lastSweep := s.now)
    case Tick(time) => s.(now := time)
  }

  /** The state after a run, if every step of it was enabled. */
  function Run(lim: Limits, s: State, steps: seq<Step>): Option<State>
    decreases |steps|
  {
    if steps == [] then Some(s)
    else if Enabled(lim, s, steps[0]) then Run(lim, Next(lim, s, steps[0]), steps[1..])
    else None
  }

  ghost predicate Reachable(lim: Limits, s: State) {
    exists steps :: Run(lim, Initial(), steps) == Some(s)
  }

  lemma {:induction false} RunConcat(lim: Limits, s: State, a: seq<Step>, b: seq<Step>)
    ensures Run(lim, s, a + b) == match Run(lim, s, a) case None => None case Some(mid) => Run(lim, mid, b)
    decreases |a|
  {
    if a == [] {
      assert a + b == b;
    } else {
      assert (a + b)[1..] == a[1..] + b;
      if Enabled(lim, s, a[0]) {
        RunConcat(lim, Next(lim, s, a[0]), a[1..], b);
      }
    }
  }

  // ----- a processing row is never stranded

  /** Sweeps keep up, and no processing row was overdue at the latest one. */
  ghost predicate Fresh(lim: Limits, s: State) {
    && s.lastSweep <= s.now <= s.lastSweep + lim.sweepEvery
    && forall v :: v in s.rows && s.rows[v].status == Processing ==>
         s.rows[v].startedAt.Some? && s.lastSweep - STUCK_AFTER <= s.rows[v].startedAt.value <= s.now
  }

  lemma FreshStep(lim: Limits, s: State, e: Step)
    requires Fresh(lim, s) && Enabled(lim, s, e)
    ensures Fresh(lim, Next(lim, s, e))
  {
  }

  lemma {:induction false} FreshRun(lim: Limits, s: State, steps: seq<Step>)
    requires Fresh(lim, s) && Run(lim, s, steps).Some?
    ensures Fresh(lim, Run(lim, s, steps).value)
    decreases |steps|
  {
    if steps != [] {
      FreshStep(lim, s, steps[0]);
      FreshRun(lim, Next(lim, s, steps[0]), steps[1..]);
    }
  }

  /** In every reachable state, whatever crashed and however long jobs overrun, a processing row
      carries the time it was claimed, at most fifteen minutes and one sweep interval ago. */
  lemma NeverStranded(lim: Limits, s: State, v: int)
    requires Reachable(lim, s) && v in s.rows && s.rows[v].status == Processing
    ensures s.rows[v].startedAt.Some?
    ensures 0 <= s.now - s.rows[v].startedAt.value <= 900000 + lim.sweepEvery
  {
    var steps :| Run(lim, Initial(), steps) == Some(s);
    FreshRun(lim, Initial(), steps);
  }

  // ----- at most one editing job per video

  function Latest(lim: Limits, job: Job): int {
    match job.phase
    case Pending(_) => job.claimedAt + lim.startDelay
    case Running(_) => job.claimedAt + lim.startDelay + JOB_DEADLINE
    case Recovering(_) => job.claimedAt + lim.startDelay + JOB_DEADLINE + RECOVERY
  }

  ghost predicate OnTime(lim: Limits, s: State) {
    forall j :: j in s.jobs ==> s.jobs[j].claimedAt <= s.now <= s.jobs[j].phase.due <= Latest(lim, s.jobs[j])
  }

  /** A live job's row is still in processing since that job claimed it, or is deleted. */
  ghost predicate Owned(s: State) {
    forall j :: j in s.jobs ==>
      && s.jobs[j].video in s.rows
      && var r := s.rows[s.jobs[j].video];
         r.status == Deleted || (r.status == Processing && r.startedAt == Some(s.jobs[j].claimedAt))
  }

  ghost predicate AtMostOne(s: State) {
    forall j, k :: j in s.jobs && k in s.jobs && s.jobs[j].video == s.jobs[k].video ==> j == k
  }

  predicate SlackEnough(lim: Limits) {
    lim.jobsEndInTime && lim.startDelay + JOB_DEADLINE + RECOVERY <= STUCK_AFTER
  }

  lemma OnTimeStep(lim: Limits, s: State, e: Step)
    requires lim.jobsEndInTime && OnTime(lim, s) && Enabled(lim, s, e)
    ensures OnTime(lim, Next(lim, s, e))
  {
  }

  /** With enough slack no live job's row is ever stale. */
  lemma LiveNotStuck(lim: Limits, s: State, j: int)
    requires SlackEnough(lim) && OnTime(lim, s) && Owned(s) && j in s.jobs
    ensures !Stuck(s.rows[s.jobs[j].video], s.now)
  {
    assert s.now <= Latest(lim, s.jobs[j]) <= s.jobs[j].claimedAt + STUCK_AFTER;
  }

  lemma SweepOwned(lim: Limits, s: State)
    requires SlackEnough(lim) && OnTime(lim, s) && Owned(s)
    ensures Owned(Next(lim, s, Sweep))
  {
    hide Stuck, OnTime, SlackEnough;
    forall j | j in s.jobs {
      LiveNotStuck(lim, s, j);
    }
  }

  /** A claim finds its row ready, so no live job is on it. */
  lemma ClaimOwned(lim: Limits, s: State, e: Step)
    requires Owned(s) && AtMostOne(s) && Enabled(lim, s, e) && (e.Claim? || e.Finalize?)
    ensures Owned(Next(lim, s, e)) && AtMostOne(Next(lim, s, e))
  {
  }

  lemma OwnedStep(lim: Limits, s: State, e: Step)
    requires SlackEnough(lim) && OnTime(lim, s) && Owned(s) && AtMostOne(s) && Enabled(lim, s, e)
    ensures Owned(Next(lim, s, e)) && AtMostOne(Next(lim, s, e))
  {
    hide SlackEnough, OnTime;
    if e.Sweep? {
      SweepOwned(lim, s);
    } else if e.Claim? || e.Finalize? {
      ClaimOwned(lim, s, e);
    }
  }

  lemma {:induction false} OwnedRun(lim: Limits, s: State, steps: seq<Step>)
    requires SlackEnough(lim) && OnTime(lim, s) && Owned(s) && AtMostOne(s) && Run(lim, s, steps).Some?
    ensures var t := Run(lim, s, steps).value; OnTime(lim, t) && Owned(t) && AtMostOne(t)
    decreases |steps|
  {
    if steps != [] {
      OnTimeStep(lim, s, steps[0]);
      OwnedStep(lim, s, steps[0]);
      OwnedRun(lim, Next(lim, s, steps[0]), steps[1..]);
    }
  }

  lemma MutualExclusion(lim: Limits, s: State)
    requires SlackEnough(lim) && Reachable(lim, s)
    ensures AtMostOne(s) && Owned(s)
  {
    var steps :| Run(lim, Initial(), steps) == Some(s);
    OwnedRun(lim, Initial(), steps);
  }

  // ----- the slack is exactly what is needed

  /** Letting time pass, with a sweep before every millisecond. */
  function Wait(now: int, end: int): seq<Step>
    decreases end - now
  {
    if now >= end then [] else [Sweep, Tick(now + 1)] + Wait(now + 1, end)
  }

  lemma SweepQuietly(lim: Limits, s: State)
    requires forall v :: v in s.rows ==> !Stuck(s.rows[v], s.now)
    ensures Next(lim, s, Sweep) == s.(lastSweep := s.now)
  {
    var rows := map v | v in s.rows :: SweepRow(s.rows[v], s.now);
    assert forall v :: v in s.rows ==> SweepRow(s.rows[v], s.now) == s.rows[v];
    assert rows == s.rows;
  }

  lemma StuckLater(s: State, end: int)
    requires s.now < end && forall v :: v in s.rows ==> !Stuck(s.rows[v], end - 1)
    ensures forall v :: v in s.rows ==> !Stuck(s.rows[v], s.now)
  {
    forall v | v in s.rows ensures !Stuck(s.rows[v], s.now) { assert !Stuck(s.rows[v], end - 1); }
  }

  lemma NoSteps(lim: Limits, s: State)
    ensures Run(lim, s, []) == Some(s)
  {
  }

  lemma {:induction false} WaitQuietly(lim: Limits, s: State, end: int)
    requires lim.sweepEvery >= 1 && s.now < end
    requires forall v :: v in s.rows ==> !Stuck(s.rows[v], end - 1)
    requires lim.jobsEndInTime ==> forall j :: j in s.jobs ==> end <= s.jobs[j].phase.due
    ensures Run(lim, s, Wait(s.now, end)) == Some(State(end, s.rows, s.jobs, end - 1))
    decreases end - s.now
  {
    hide Run, Stuck;
    StuckLater(s, end);
    SweepQuietly(lim, s);
    var swept := s.(lastSweep := s.now);
    var ticked := State(s.now + 1, s.rows, s.jobs, s.now);
    assert ticked.now == s.now + 1;
    assert Next(lim, swept, Tick(s.now + 1)) == ticked;
    RunTwo(lim, s, Sweep, Tick(s.now + 1), Wait(s.now + 1, end));
    NoSteps(lim, ticked);
    if s.now + 1 < end {
      WaitQuietly(lim, ticked, end);
    }
  }

  lemma RunOne(lim: Limits, s: State, e: Step)
    requires Enabled(lim, s, e)
    ensures Run(lim, s, [e]) == Some(Next(lim, s, e))
  {
    assert [e][1..] == [];
  }

  lemma RunTwo(lim: Limits, s: State, a: Step, b: Step, rest: seq<Step>)
    requires Enabled(lim, s, a) && Enabled(lim, Next(lim, s, a), b)
    ensures Run(lim, s, [a, b] + rest) == Run(lim, Next(lim, Next(lim, s, a), b), rest)
  {
    assert ([a, b] + rest)[1..] == [b] + rest && ([b] + rest)[1..] == rest;
  }

  /** The one claimed row and its job. */
  function Claimed(now: int, lastSweep: int, phase: Phase): State {
    State(now, map[0 := Row(Processing, Some(0), false, 0, 0, false)], map[0 := Job(0, Trim, 0, phase)], lastSweep)
  }

  lemma Extend(lim: Limits, s: State, steps: seq<Step>, t: State)
    requires Reachable(lim, s) && Run(lim, s, steps) == Some(t)
    ensures Reachable(lim, t)
  {
    var before :| Run(lim, Initial(), before) == Some(s);
    RunConcat(lim, Initial(), before, steps);
  }

  lemma ExtendOne(lim: Limits, s: State, e: Step)
    requires Reachable(lim, s) && Enabled(lim, s, e)
    ensures Reachable(lim, Next(lim, s, e))
  {
    RunOne(lim, s, e);
    Extend(lim, s, [e], Next(lim, s, e));
  }

  lemma ReachClaimed(lim: Limits)
    ensures Reachable(lim, Claimed(0, 0, Pending(lim.startDelay)))
  {
    assert Run(lim, Initial(), []) == Some(Initial());
    ExtendOne(lim, Initial(), Upload(0, false));
    var up := Next(lim, Initial(), Upload(0, false));
    ExtendOne(lim, up, Finalize(0, false, 0));
    var ready := Next(lim, up, Finalize(0, false, 0));
    ExtendOne(lim, ready, Claim(0, Trim, 0));
    assert Next(lim, ready, Claim(0, Trim, 0)) == Claimed(0, 0, Pending(lim.startDelay));
  }

  lemma WaitClaimed(lim: Limits, now: int, lastSweep: int, phase: Phase, end: int) returns (sweep: int)
    requires lim.sweepEvery >= 1 && Reachable(lim, Claimed(now, lastSweep, phase))
    requires now <= end <= STUCK_AFTER + 1 && (lim.jobsEndInTime ==> end <= phase.due)
    ensures Reachable(lim, Claimed(end, sweep, phase)) && (now < end ==> sweep == end - 1)
  {
    var s := Claimed(now, lastSweep, phase);
    if now == end {
      sweep := lastSweep;
    } else {
      sweep := end - 1;
      WaitQuietly(lim, s, end);
      Extend(lim, s, Wait(now, end), Claimed(end, sweep, phase));
    }
  }

  /** With too little slack, or a job that overruns, some job is still alive when its row goes stale. */
  lemma ReachStaleWithJob(lim: Limits) returns (phase: Phase, sweep: int)
    requires lim.sweepEvery >= 1 && !SlackEnough(lim)
    ensures Reachable(lim, Claimed(STUCK_AFTER + 1, sweep, phase))
  {
    ReachClaimed(lim);
    phase := Pending(lim.startDelay);
    if !lim.jobsEndInTime || lim.startDelay > STUCK_AFTER {
      sweep := WaitClaimed(lim, 0, 0, phase, STUCK_AFTER + 1);
    } else {
      sweep := WaitClaimed(lim, 0, 0, phase, lim.startDelay);
      var s := Claimed(lim.startDelay, sweep, phase);
      ExtendOne(lim, s, Start(0));
      phase := Running(lim.startDelay + JOB_DEADLINE);
      assert Next(lim, s, Start(0)) == Claimed(lim.startDelay, sweep, phase);
      if phase.due > STUCK_AFTER {
        sweep := WaitClaimed(lim, lim.startDelay, sweep, phase, STUCK_AFTER + 1);
      } else {
        var at := phase.due;
        sweep := WaitClaimed(lim, lim.startDelay, sweep, phase, at);
        var s' := Claimed(at, sweep, phase);
        ExtendOne(lim, s', Fail(0));
        phase := Recovering(at + RECOVERY);
        assert Next(lim, s', Fail(0)) == Claimed(at, sweep, phase);
        sweep := WaitClaimed(lim, at, sweep, phase, STUCK_AFTER + 1);
      }
    }
  }

  /** Two jobs on one video become possible as soon as the slack is a millisecond short or a job
      may overrun. */
  lemma TwoJobsWithoutSlack(lim: Limits) returns (s: State)
    requires lim.sweepEvery >= 1 && !SlackEnough(lim)
    ensures Reachable(lim, s) && !AtMostOne(s)
  {
    var phase, sweep := ReachStaleWithJob(lim);
    var stale := Claimed(STUCK_AFTER + 1, sweep, phase);
    ExtendOne(lim, stale, Sweep);
    var reset := Next(lim, stale, Sweep);
    assert reset.rows[0].status == Ready;
    ExtendOne(lim, reset, Claim(0, Trim, 1));
    s := Next(lim, reset, Claim(0, Trim, 1));
    assert 0 in s.jobs && 1 in s.jobs && s.jobs[0].video == s.jobs[1].video;
  }

  /** At most one uncommitted editing job per video in every reachable state, exactly when jobs
      end in time and start at most 295 seconds after their claim: with ten minutes of deadline and
      five seconds of recovery that is the quarter of an hour after which a row is stale. */
  lemma MutualExclusionExactly(lim: Limits)
    requires lim.sweepEvery >= 1
    ensures lim.jobsEndInTime && lim.startDelay <= 295000 <==> forall s :: Reachable(lim, s) ==> AtMostOne(s)
  {
    if SlackEnough(lim) {
      forall s | Reachable(lim, s) ensures AtMostOne(s) { MutualExclusion(lim, s); }
    } else {
      var s := TwoJobsWithoutSlack(lim);
    }
  }

  // ----- deletion

  predicate CanCommit(s: State, v: int) {
    exists j :: j in s.jobs && s.jobs[j].video == v && !s.jobs[j].phase.Recovering?
  }

  ghost predicate Gone(s: State, v: int) {
    v in s.rows && s.rows[v].status == Deleted && !CanCommit(s, v)
  }

  lemma GoneStep(lim: Limits, s: State, e: Step, v: int)
    requires Gone(s, v) && Enabled(lim, s, e)
    ensures Gone(Next(lim, s, e), v)
  {
    var t := Next(lim, s, e);
    forall j | j in t.jobs && t.jobs[j].video == v
      ensures t.jobs[j].phase.Recovering?
    {
    }
  }

  lemma {:induction false} GoneRun(lim: Limits, s: State, steps: seq<Step>, v: int)
    requires Gone(s, v) && Run(lim, s, steps).Some?
    ensures Gone(Run(lim, s, steps).value, v)
    decreases |steps|
  {
    if steps != [] {
      GoneStep(lim, s, steps[0], v);
      GoneRun(lim, Next(lim, s, steps[0]), steps[1..], v);
    }
  }

  /** v is still deleted after every run from s. */
  ghost predicate StaysDeleted(lim: Limits, s: State, v: int) {
    forall steps :: Run(lim, s, steps).Some? ==>
      v in Run(lim, s, steps).value.rows && Run(lim, s, steps).value.rows[v].status == Deleted
  }

  /** Deletion is final in every continuation exactly when no job that could still commit is
      live on the video at that moment: the commit has no guard on the status. */
  lemma DeletionFinalExactly(lim: Limits, s: State, v: int)
    requires v in s.rows && s.rows[v].status == Deleted
    ensures StaysDeleted(lim, s, v) <==> !CanCommit(s, v)
  {
    if !CanCommit(s, v) {
      forall steps | Run(lim, s, steps).Some?
        ensures v in Run(lim, s, steps).value.rows && Run(lim, s, steps).value.rows[v].status == Deleted
      {
        GoneRun(lim, s, steps, v);
      }
    } else {
      var j :| j in s.jobs && s.jobs[j].video == v && !s.jobs[j].phase.Recovering?;
      if s.jobs[j].phase.Pending? {
        RunTwo(lim, s, Start(j), Commit(j), []);
        assert [Start(j), Commit(j)] + [] == [Start(j), Commit(j)];
        assert Run(lim, s, [Start(j), Commit(j)]).value.rows[v].status == Ready;
      } else {
        RunOne(lim, s, Commit(j));
        assert Run(lim, s, [Commit(j)]).value.rows[v].status == Ready;
      }
    }
  }

  /** A video deleted while it is being trimmed, from a fresh start, and back again after the
      trim has committed. */
  lemma DeletionUndone(lim: Limits) returns (deleted: State, after: State)
    ensures Reachable(lim, deleted) && deleted.rows.Keys == {0} && deleted.rows[0].status == Deleted
    ensures Run(lim, deleted, [Commit(0)]) == Some(after)
    ensures Reachable(lim, after) && after.rows.Keys == {0} && after.rows[0].status == Ready
    ensures !StaysDeleted(lim, deleted, 0)
  {
    ReachClaimed(lim);
    var claimed := Claimed(0, 0, Pending(lim.startDelay));
    ExtendOne(lim, claimed, Start(0));
    var running := Next(lim, claimed, Start(0));
    ExtendOne(lim, running, Delete(0));
    deleted := Next(lim, running, Delete(0));
    ExtendOne(lim, deleted, Commit(0));
    after := Next(lim, deleted, Commit(0));
    RunOne(lim, deleted, Commit(0));
  }

  // ----- what each step may and must do to a row

  /** Rows that are not in processing carry no start time, unless deleted; and every job is on a
      row that has left uploading. */
  ghost predicate Settled(s: State) {
    && (forall v :: v in s.rows && (s.rows[v].status == Ready || s.rows[v].status == Uploading) ==>
          s.rows[v].startedAt.None?)
    && (forall j :: j in s.jobs ==> s.jobs[j].video in s.rows && s.rows[s.jobs[j].video].status != Uploading)
  }

  lemma SettledStep(lim: Limits, s: State, e: Step)
    requires Settled(s) && Enabled(lim, s, e)
    ensures Settled(Next(lim, s, e))
  {
  }

  lemma {:induction false} SettledRun(lim: Limits, s: State, steps: seq<Step>)
    requires Settled(s) && Run(lim, s, steps).Some?
    ensures Settled(Run(lim, s, steps).value)
    decreases |steps|
  {
    if steps != [] {
      SettledStep(lim, s, steps[0]);
      SettledRun(lim, Next(lim, s, steps[0]), steps[1..]);
    }
  }

  lemma ReachableSettled(lim: Limits, s: State)
    requires Reachable(lim, s)
    ensures Settled(s)
  {
    hide Settled;
    assert Settled(Initial()) by { InitialSettled(); }
    var steps :| Run(lim, Initial(), steps) == Some(s);
    SettledRun(lim, Initial(), steps);
  }

  lemma InitialSettled()
    ensures Settled(Initial())
  {
  }

  /** The job a step ends, if it ends one by writing. */
  ghost predicate Ends(s: State, e: Step, v: int) {
    (e.Fallback? || e.Commit?) && e.job in s.jobs && s.jobs[e.job].video == v
  }

  /** Every change of a row's status has one of these reasons, in every reachable state. */
  lemma StatusChangesOnlyFor(lim: Limits, s: State, e: Step, v: int)
    requires Reachable(lim, s) && Enabled(lim, s, e) && v in s.rows
    ensures v in Next(lim, s, e).rows
    ensures var before, after := s.rows[v].status, Next(lim, s, e).rows[v].status;
      before != after ==>
        match (before, after)
        case (Uploading, Ready) => e.Finalize? && e.v == v && !e.withWebcam
        case (Uploading, Processing) => e.Finalize? && e.v == v && e.withWebcam
        case (Uploading, Deleted) =>
          (e.Delete? && e.v == v) || (e.AbandonUploads? && s.now - s.rows[v].createdAt > 24 * 3600000)
        case (Ready, Processing) => e.Claim? && e.v == v
        case (Ready, Deleted) => e.Delete? && e.v == v
        case (Processing, Ready) =>
          Ends(s, e, v) ||
          (e.Sweep? && (s.rows[v].startedAt.None? || s.now - s.rows[v].startedAt.value > 15 * 60000))
        case (Processing, Deleted) => e.Delete? && e.v == v
        case (Deleted, Ready) => e.Commit? && Ends(s, e, v)
        case _ => false
  {
    ReachableSettled(lim, s);
  }

  /** Whatever claims a row records when, and leaves a job behind that will answer for it. */
  lemma ClaimsAnswered(lim: Limits, s: State, e: Step, v: int)
    requires Reachable(lim, s) && Enabled(lim, s, e) && v in s.rows && s.rows[v].status != Processing
    requires Next(lim, s, e).rows[v].status == Processing
    ensures var t := Next(lim, s, e);
      && t.rows[v].startedAt == Some(s.now)
      && exists j :: j in t.jobs && j !in s.jobs && t.jobs[j].video == v && t.jobs[j].phase == Pending(s.now + lim.startDelay)
  {
    ReachableSettled(lim, s);
    var t := Next(lim, s, e);
    if e.Claim? || e.Finalize? {
      assert e.job in t.jobs && t.jobs[e.job].video == v;
    }
  }

  /** A job that ends by writing leaves its row ready for the next request, with no start time; or
      deleted, when it gave up on a deleted one. The job is gone afterwards. */
  lemma EndedJobReleasesRow(lim: Limits, s: State, e: Step, v: int)
    requires Reachable(lim, s) && Enabled(lim, s, e) && Ends(s, e, v)
    ensures var t := Next(lim, s, e);
      && v in s.rows && v in t.rows && e.job !in t.jobs
      && (e.Fallback? && s.rows[v].status == Deleted ==> t.rows[v] == s.rows[v])
      && (e.Commit? || s.rows[v].status != Deleted ==> t.rows[v].status == Ready && t.rows[v].startedAt.None?)
      && (s.rows[v].status == Processing && s.jobs[e.job].kind == Composite ==> !t.rows[v].webcam)
      && (s.jobs[e.job].kind != Composite ==> t.rows[v].webcam == s.rows[v].webcam)
  {
    ReachableSettled(lim, s);
  }

  /** The sweeps finish their work: no stale row and no stale upload is left, and every other row is
      untouched. */
  lemma SweepsFinish(lim: Limits, s: State, v: int)
    requires v in s.rows
    ensures var t := Next(lim, s, Sweep);
      && t.jobs == s.jobs && v in t.rows
      && (t.rows[v].status == Processing ==> t.rows[v].startedAt.Some? && s.now - t.rows[v].startedAt.value <= 15 * 60000)
      && (if t.rows[v].status == s.rows[v].status then t.rows[v] == s.rows[v]
          else t.rows[v] == s.rows[v].(status := Ready, startedAt := None, webcam := false))
    ensures var t := Next(lim, s, AbandonUploads);
      && t.jobs == s.jobs && v in t.rows
      && (t.rows[v].status == Uploading ==> s.now - t.rows[v].createdAt <= 24 * 3600000)
      && (if t.rows[v].status == s.rows[v].status then t.rows[v] == s.rows[v]
          else t.rows[v] == s.rows[v].(status := Deleted))
  {
  }

  /** The row a step is about, if it is about one. */
  function About(s: State, e: Step): Option<int> {
    match e
    case Upload(v, _) => Some(v)
    case Finalize(v, _, _) => Some(v)
    case Claim(v, _, _) => Some(v)
    case Delete(v) => Some(v)
    case WriteMedia(v, _) => Some(v)
    case Purge(v) => Some(v)
    case Fallback(j) => if j in s.jobs then Some(s.jobs[j].video) else None
    case Commit(j) => if j in s.jobs then Some(s.jobs[j].video) else None
    case _ => None
  }

  /** Nothing else changes: other rows, the time of upload, and the columns of the encoders, except
      by the step that writes them. */
  lemma NothingElseChanges(lim: Limits, s: State, e: Step, v: int)
    requires Enabled(lim, s, e) && v in s.rows
    ensures var t := Next(lim, s, e);
      && v in t.rows && t.rows[v].createdAt == s.rows[v].createdAt
      && (About(s, e) != Some(v) && !e.Sweep? && !e.AbandonUploads? ==> t.rows[v] == s.rows[v])
      && (t.rows[v].media != s.rows[v].media ==> e.WriteMedia? && t.rows[v].media == e.media)
      && (t.rows[v].purged != s.rows[v].purged ==> e.Purge?)
      && (t.rows[v].webcam != s.rows[v].webcam ==> e.Sweep? || Ends(s, e, v))
      && (e.WriteMedia? && e.v == v ==> t.rows[v] == s.rows[v].(media := e.media))
      && (e.Delete? && e.v == v ==> t.rows[v] == s.rows[v].(status := Deleted))
  {
  }

  /** An upload begins as one, at the time it is made. */
  lemma UploadBegins(lim: Limits, s: State, v: int, webcam: bool)
    requires v !in s.rows
    ensures var t := Next(lim, s, Upload(v, webcam));
      && t.jobs == s.jobs && t.rows.Keys == s.rows.Keys + {v}
      && t.rows[v].status == Uploading && t.rows[v].startedAt.None? && t.rows[v].createdAt == s.now
      && t.rows[v].webcam == webcam && !t.rows[v].purged
  {
  }

  /** Some job number is free. */
  lemma FreshJob(s: State) returns (j: int)
    ensures j !in s.jobs
  {
    j := Above(s.jobs.Keys);
  }

  lemma {:induction false} Above(ids: set<int>) returns (j: int)
    ensures forall i :: i in ids ==> i < j
    decreases |ids|
  {
    if i :| i in ids {
      var k := Above(ids - {i});
      j := if i < k then k else i + 1;
      forall x | x in ids ensures x < j {
        assert x == i || x in ids - {i};
      }
    } else {
      j := 0;
    }
  }

  /** A ready video can be trimmed or cut at any time, whatever else is going on, and be ready again. */
  lemma ReadyCanBeEdited(lim: Limits, s: State, v: int, kind: Kind) returns (j: int, steps: seq<Step>)
    requires v in s.rows && s.rows[v].status == Ready && kind != Composite
    ensures j !in s.jobs && |steps| == 3 && steps[0] == Claim(v, kind, j)
    ensures var t := Run(lim, s, steps);
      && t.Some? && t.value.jobs == s.jobs && v in t.value.rows
      && t.value.rows[v].status == Ready && t.value.now == s.now
  {
    j := FreshJob(s);
    var claimed := Next(lim, s, Claim(v, kind, j));
    var started := Next(lim, claimed, Start(j));
    steps := [Claim(v, kind, j), Start(j)] + [Commit(j)];
    RunTwo(lim, s, Claim(v, kind, j), Start(j), [Commit(j)]);
    RunOne(lim, started, Commit(j));
    assert started.jobs - {j} == s.jobs;
  }

  /** An upload can be finalized, with or without a webcam to be laid over it. */
  lemma UploadCanBeFinalized(lim: Limits, s: State, v: int, withWebcam: bool) returns (j: int)
    requires v in s.rows && s.rows[v].status == Uploading
    ensures Run(lim, s, [Finalize(v, withWebcam, j)]).Some?
    ensures var t := Run(lim, s, [Finalize(v, withWebcam, j)]).value;
      if withWebcam then v in t.rows && t.rows[v].status == Processing && j in t.jobs && t.jobs[j].kind == Composite
      else v in t.rows && t.rows[v].status == Ready && t.jobs == s.jobs
  {
    j := FreshJob(s);
    RunOne(lim, s, Finalize(v, withWebcam, j));
  }

  /** Every video that is not deleted can be. */
  lemma AnyVideoCanBeDeleted(lim: Limits, s: State, v: int)
    requires v in s.rows && s.rows[v].status != Deleted
    ensures Run(lim, s, [Delete(v)]).Some?
    ensures var t := Run(lim, s, [Delete(v)]).value; v in t.rows && t.rows[v].status == Deleted && t.jobs == s.jobs
  {
    RunOne(lim, s, Delete(v));
  }

  /** Jobs of every kind can be claimed, run and committed. */
  lemma EveryKindCompletes(lim: Limits, kind: Kind) returns (running: State, done: State)
    ensures Reachable(lim, running) && running.jobs.Keys == {0} && running.jobs[0].kind == kind
    ensures running.jobs[0].phase.Running? && 0 in running.rows && running.rows[0].status == Processing
    ensures Run(lim, running, [Commit(0)]) == Some(done) && 0 in done.rows && done.rows[0].status == Ready && done.jobs == map[]
  {
    hide Run;
    InitialReachable(lim);
    var webcam := kind == Composite;
    ExtendOne(lim, Initial(), Upload(0, webcam));
    var claimed := Next(lim, Initial(), Upload(0, webcam));
    ExtendOne(lim, claimed, Finalize(0, webcam, 0));
    claimed := Next(lim, claimed, Finalize(0, webcam, 0));
    if !webcam {
      ExtendOne(lim, claimed, Claim(0, kind, 0));
      claimed := Next(lim, claimed, Claim(0, kind, 0));
    }
    ExtendOne(lim, claimed, Start(0));
    running := Next(lim, claimed, Start(0));
    RunOne(lim, running, Commit(0));
    done := Next(lim, running, Commit(0));
  }

  lemma InitialReachable(lim: Limits)
    ensures Reachable(lim, Initial())
  {
    assert Run(lim, Initial(), []) == Some(Initial());
  }

  /** A job that starts has ten minutes, one that fails has five seconds to say so, and neither step
      touches a row. */
  lemma PhasesTimed(lim: Limits, s: State, j: int)
    requires j in s.jobs
    ensures s.jobs[j].phase.Pending? ==>
      && Enabled(lim, s, Start(j))
      && Next(lim, s, Start(j)) == s.(jobs := s.jobs[j := s.jobs[j].(phase := Running(s.now + 10 * 60000))])
    ensures s.jobs[j].phase.Running? ==>
      && Enabled(lim, s, Fail(j)) && Enabled(lim, s, Commit(j))
      && Next(lim, s, Fail(j)) == s.(jobs := s.jobs[j := s.jobs[j].(phase := Recovering(s.now + 5000))])
    ensures s.jobs[j].phase.Recovering? ==> Enabled(lim, s, Fallback(j)) && !Enabled(lim, s, Commit(j))
  {
  }
}
