/** How often one video is fed to the encoder: transcode and normalize runs that overlap,
    fail, succeed or vanish, around the attempt counter of its row. */
module RetryBudget {
  import opened Bounds
  import opened Options

  const MAX_ATTEMPTS: nat := 5

  datatype Kind = Transcode | Normalize

  /** Written: the success update has been applied, the counter not yet cleared. */
  datatype Stage = Encoding | Written

  datatype EncodeRun = EncodeRun(kind: Kind, stage: Stage)

  /** The row's columns, the runs in flight, and two things no column holds: how many failures
      were recorded in all, and whether a success update was ever applied. */
  datatype State = State(webm: bool, normalized: bool, attempts: nat,
                         runs: map<int, EncodeRun>, failures: nat, landed: bool)

  datatype Step =
    | Begin(id: int, kind: Kind)
    | RecordFailure(id: int, permanent: bool)
    | Vanish(id: int)
    | MarkNormalized(id: int)
    | WriteSuccess(id: int)
    | ClearFailures(id: int)

  function Initial(webm: bool): State {
    State(webm, false, 0, map[], 0, false)
  }

  /** The checks a run makes before it encodes. Only mp4 and quicktime rows are normalized. */
  predicate Eligible(s: State, kind: Kind) {
    && s.attempts < MAX_ATTEMPTS
    && match kind case Transcode => s.webm case Normalize => !s.webm && !s.normalized
  }

  /** At most k runs are in flight at once. */
  predicate Enabled(k: nat, s: State, e: Step) {
    match e
    case Begin(id, kind) => id !in s.runs && |s.runs| < k && Eligible(s, kind)
    case RecordFailure(id, _) => id in s.runs
    case Vanish(id) => id in s.runs
    case MarkNormalized(id) => id in s.runs && s.runs[id] == EncodeRun(Normalize, Encoding)
    case WriteSuccess(id) => id in s.runs && s.runs[id].stage == Encoding
    case ClearFailures(id) => id in s.runs && s.runs[id].stage == Written
  }

  function Next(k: nat, s: State, e: Step): State
    requires Enabled(k, s, e)
  {
    match e
    case Begin(id, kind) => s.(runs := s.runs[id := EncodeRun(kind, Encoding)])
    case RecordFailure(id, permanent) =>
      s.(attempts := if permanent then MAX_ATTEMPTS else s.attempts + 1,
         runs := s.runs - {id}, failures := s.failures + 1)
    case Vanish(id) => s.(runs := s.runs - {id})
    case MarkNormalized(id) => s.(normalized := true, runs := s.runs - {id})
    case WriteSuccess(id) =>
      s.(webm := if s.runs[id].kind == Transcode then false else s.webm, normalized := true,
         runs := s.runs[id := s.runs[id].(stage := Written)], landed := true)
    case ClearFailures(id) => s.(attempts := 0, runs := s.runs - {id})
  }

  function Run(k: nat, s: State, steps: seq<Step>): Option<State>
    decreases |steps|
  {
    if steps == [] then Some(s)
    else if Enabled(k, s, steps[0]) then Run(k, Next(k, s, steps[0]), steps[1..])
    else None
  }

  ghost predicate Reachable(k: nat, webm: bool, s: State) {
    exists steps :: Run(k, Initial(webm), steps) == Some(s)
  }

  // ----- the bound

  ghost predicate Bounded(k: nat, s: State) {
    && |s.runs| <= k
    && s.failures + |s.runs| <= MAX_ATTEMPTS - 1 + k
    && (forall id :: id in s.runs && s.runs[id].kind == Normalize ==> !s.webm)
    && (forall id :: id in s.runs && s.runs[id].stage == Written ==> s.landed)
    && (s.landed ==> !s.webm && s.normalized)
    && (!s.landed ==> s.attempts >= Min(s.failures, MAX_ATTEMPTS))
  }

  lemma RunEnds(runs: map<int, EncodeRun>, id: int)
    requires id in runs
    ensures |runs - {id}| == |runs| - 1
  {
    assert (runs - {id}).Keys == runs.Keys - {id};
    assert |runs.Keys| == |runs| && |(runs - {id}).Keys| == |runs - {id}|;
  }

  lemma RunSet(runs: map<int, EncodeRun>, id: int, r: EncodeRun)
    ensures |runs[id := r]| == |runs| + if id in runs then 0 else 1
  {
    assert runs[id := r].Keys == runs.Keys + {id};
    assert |runs.Keys| == |runs| && |runs[id := r].Keys| == |runs[id := r]|;
    if id in runs {
      assert runs.Keys + {id} == runs.Keys;
    }
  }

  /** What a run that goes away leaves behind. */
  lemma EndStep(k: nat, s: State, id: int, t: State)
    requires Bounded(k, s) && id in s.runs && t.runs == s.runs - {id}
    requires t.failures <= s.failures + 1
    requires t.webm == s.webm && (s.normalized ==> t.normalized) && t.landed == s.landed
    requires !s.landed ==> t.attempts >= Min(t.failures, MAX_ATTEMPTS)
    ensures Bounded(k, t)
  {
    RunEnds(s.runs, id);
  }

  /** A new run finds fewer than five failures, so it still fits. */
  lemma BeginBounded(k: nat, s: State, id: int, kind: Kind)
    requires Bounded(k, s) && Enabled(k, s, Begin(id, kind))
    ensures Bounded(k, Next(k, s, Begin(id, kind)))
  {
    RunSet(s.runs, id, EncodeRun(kind, Encoding));
    assert !s.landed && s.failures < MAX_ATTEMPTS;
  }

  lemma SuccessBounded(k: nat, s: State, id: int)
    requires Bounded(k, s) && Enabled(k, s, WriteSuccess(id))
    ensures Bounded(k, Next(k, s, WriteSuccess(id)))
  {
    RunSet(s.runs, id, s.runs[id].(stage := Written));
  }

  /** A recorded failure: with a permanent one the whole budget is gone. */
  lemma FailureBounded(k: nat, s: State, id: int, permanent: bool)
    requires Bounded(k, s) && Enabled(k, s, RecordFailure(id, permanent))
    ensures Bounded(k, Next(k, s, RecordFailure(id, permanent)))
  {
    EndStep(k, s, id, Next(k, s, RecordFailure(id, permanent)));
  }

  lemma ClearBounded(k: nat, s: State, id: int)
    requires Bounded(k, s) && Enabled(k, s, ClearFailures(id))
    ensures Bounded(k, Next(k, s, ClearFailures(id)))
  {
    assert s.landed;
    EndStep(k, s, id, Next(k, s, ClearFailures(id)));
  }

  lemma OtherEndBounded(k: nat, s: State, e: Step)
    requires Bounded(k, s) && Enabled(k, s, e) && (e.Vanish? || e.MarkNormalized?)
    ensures Bounded(k, Next(k, s, e))
  {
    EndStep(k, s, e.id, Next(k, s, e));
  }

  lemma BoundedStep(k: nat, s: State, e: Step)
    requires Bounded(k, s) && Enabled(k, s, e)
    ensures Bounded(k, Next(k, s, e))
  {
    hide Bounded, Enabled, Next;
    match e
    case Begin(id, kind) => BeginBounded(k, s, id, kind);
    case WriteSuccess(id) => SuccessBounded(k, s, id);
    case RecordFailure(id, permanent) => FailureBounded(k, s, id, permanent);
    case ClearFailures(id) => ClearBounded(k, s, id);
    case Vanish(_) => OtherEndBounded(k, s, e);
    case MarkNormalized(_) => OtherEndBounded(k, s, e);
  }

  lemma {:induction false} BoundedRun(k: nat, s: State, steps: seq<Step>)
    requires Bounded(k, s) && Run(k, s, steps).Some?
    ensures Bounded(k, Run(k, s, steps).value)
    ensures s.landed ==> Run(k, s, steps).value.landed
    decreases |steps|
  {
    if steps != [] {
      BoundedStep(k, s, steps[0]);
      BoundedRun(k, Next(k, s, steps[0]), steps[1..]);
    }
  }

  /** With at most k runs in flight, at most 4 + k of them ever record a failure. */
  lemma FailuresBounded(k: nat, webm: bool, s: State)
    requires Reachable(k, webm, s)
    ensures s.failures <= 4 + k
  {
    var steps :| Run(k, Initial(webm), steps) == Some(s);
    BoundedRun(k, Initial(webm), steps);
  }

  /** Once a success update has been applied no run starts again, although the counter goes
      back to zero afterwards. */
  lemma NoRunAfterSuccess(k: nat, webm: bool, s: State, steps: seq<Step>, id: int, kind: Kind)
    requires Reachable(k, webm, s) && s.landed && Run(k, s, steps).Some?
    ensures !Enabled(k, Run(k, s, steps).value, Begin(id, kind))
  {
    var before :| Run(k, Initial(webm), before) == Some(s);
    BoundedRun(k, Initial(webm), before);
    BoundedRun(k, s, steps);
  }

  // ----- the bound is attained

  lemma {:induction false} RunLast(k: nat, s: State, steps: seq<Step>, e: Step)
    requires Run(k, s, steps).Some? && Enabled(k, Run(k, s, steps).value, e)
    ensures Run(k, s, steps + [e]) == Some(Next(k, Run(k, s, steps).value, e))
    decreases |steps|
  {
    if steps == [] {
      assert steps + [e] == [e] && [e][1..] == [];
    } else {
      assert (steps + [e])[1..] == steps[1..] + [e];
      RunLast(k, Next(k, s, steps[0]), steps[1..], e);
    }
  }

  lemma ExtendOne(k: nat, webm: bool, s: State, e: Step)
    requires Reachable(k, webm, s) && Enabled(k, s, e)
    ensures Reachable(k, webm, Next(k, s, e))
  {
    var steps :| Run(k, Initial(webm), steps) == Some(s);
    RunLast(k, Initial(webm), steps, e);
  }

  /** Ids 0 up to n, all of one kind. */
  function Busy(kind: Kind, n: nat): map<int, EncodeRun> {
    if n == 0 then map[] else Busy(kind, n - 1)[n - 1 := EncodeRun(kind, Encoding)]
  }

  lemma {:induction false} BusySize(kind: Kind, n: nat)
    ensures |Busy(kind, n)| == n && forall id :: id in Busy(kind, n) ==> 0 <= id < n
  {
    if n > 0 {
      BusySize(kind, n - 1);
      RunSet(Busy(kind, n - 1), n - 1, EncodeRun(kind, Encoding));
    }
  }

  function Trying(kind: Kind, attempts: nat, inFlight: nat): State {
    State(kind == Transcode, false, attempts, Busy(kind, inFlight), attempts, false)
  }

  lemma BusyMore(kind: Kind, k: nat, attempts: nat, n: nat)
    requires Reachable(k, kind == Transcode, Trying(kind, attempts, n)) && n < k && attempts < MAX_ATTEMPTS
    ensures Reachable(k, kind == Transcode, Trying(kind, attempts, n + 1))
  {
    hide Reachable;
    BusySize(kind, n);
    ExtendOne(k, kind == Transcode, Trying(kind, attempts, n), Begin(n, kind));
  }

  lemma BusyFails(kind: Kind, k: nat, attempts: nat, n: nat)
    requires Reachable(k, kind == Transcode, Trying(kind, attempts, n)) && n >= 1
    ensures Reachable(k, kind == Transcode, Trying(kind, attempts + 1, n - 1))
  {
    hide Reachable;
    BusySize(kind, n - 1);
    assert Busy(kind, n) - {n - 1} == Busy(kind, n - 1);
    ExtendOne(k, kind == Transcode, Trying(kind, attempts, n), RecordFailure(n - 1, false));
  }

  lemma {:induction false} FailOneByOne(kind: Kind, k: nat, attempts: nat)
    requires k >= 1 && attempts < MAX_ATTEMPTS
    ensures Reachable(k, kind == Transcode, Trying(kind, attempts, 0))
  {
    if attempts == 0 {
      assert Run(k, Initial(kind == Transcode), []) == Some(Initial(kind == Transcode));
      assert Busy(kind, 0) == map[];
    } else {
      FailOneByOne(kind, k, attempts - 1);
      BusyMore(kind, k, attempts - 1, 0);
      BusyFails(kind, k, attempts - 1, 1);
    }
  }

  lemma {:induction false} StartAll(kind: Kind, k: nat, n: nat)
    requires 1 <= k && n <= k
    ensures Reachable(k, kind == Transcode, Trying(kind, MAX_ATTEMPTS - 1, n))
  {
    hide Reachable, Trying;
    if n == 0 {
      FailOneByOne(kind, k, MAX_ATTEMPTS - 1);
    } else {
      StartAll(kind, k, n - 1);
      BusyMore(kind, k, MAX_ATTEMPTS - 1, n - 1);
    }
  }

  lemma {:induction false} FailAll(kind: Kind, k: nat, failed: nat)
    requires 1 <= k && failed <= k
    ensures Reachable(k, kind == Transcode, Trying(kind, MAX_ATTEMPTS - 1 + failed, k - failed))
  {
    hide Reachable, Trying;
    if failed == 0 {
      StartAll(kind, k, k);
    } else {
      FailAll(kind, k, failed - 1);
      BusyFails(kind, k, MAX_ATTEMPTS - 1 + failed - 1, k - failed + 1);
    }
  }

  /** 4 + k is the exact limit: some run of the system records that many failures. */
  lemma BudgetExactly(kind: Kind, k: nat, n: nat)
    requires k >= 1
    ensures n <= 4 + k <==>
            exists s :: Reachable(k, kind == Transcode, s) && s.failures >= n
  {
    if n <= MAX_ATTEMPTS - 1 + k {
      FailAll(kind, k, k);
      assert Trying(kind, MAX_ATTEMPTS - 1 + k, 0).failures >= n;
    } else {
      forall s | Reachable(k, kind == Transcode, s) ensures s.failures < n { FailuresBounded(k, kind == Transcode, s); }
    }
  }

  // ----- when runs begin

  /** A new video is taken up by the one kind of run it needs. */
  lemma NewVideoStarts(k: nat, webm: bool, id: int, kind: Kind)
    ensures Enabled(k, Initial(webm), Begin(id, kind)) <==> k >= 1 && kind == (if webm then Transcode else Normalize)
  {
    assert |Initial(webm).runs| == 0;
  }

  /** After up to four ordinary failures, one at a time, it is taken up again. */
  lemma RetriedAfterFailure(kind: Kind, k: nat, failed: nat) returns (s: State)
    requires k >= 1 && failed <= 4
    ensures Reachable(k, kind == Transcode, s) && s.failures == failed && s.runs == map[]
    ensures Enabled(k, s, Begin(0, kind))
  {
    FailOneByOne(kind, k, failed);
    s := Trying(kind, failed, 0);
    assert |s.runs| == 0;
  }

  /** The budget is used up, or the row needs no run any more. */
  ghost predicate Over(s: State) {
    s.landed || s.attempts >= 5 || (!s.webm && s.normalized)
  }

  lemma OverStep(k: nat, s: State, e: Step)
    requires Bounded(k, s) && Over(s) && Enabled(k, s, e)
    ensures Over(Next(k, s, e))
  {
  }

  lemma {:induction false} OverRun(k: nat, s: State, steps: seq<Step>)
    requires Bounded(k, s) && Over(s) && Run(k, s, steps).Some?
    ensures Over(Run(k, s, steps).value) && Bounded(k, Run(k, s, steps).value)
    decreases |steps|
  {
    if steps != [] {
      BoundedStep(k, s, steps[0]);
      OverStep(k, s, steps[0]);
      OverRun(k, Next(k, s, steps[0]), steps[1..]);
    }
  }

  /** A failure that ffmpeg's message marks as permanent is the end: no run ever begins on the video
      again, whatever the runs still in flight do. */
  lemma PermanentFailureIsFinal(k: nat, webm: bool, s: State, id: int, steps: seq<Step>, id': int, kind: Kind)
    requires Reachable(k, webm, s) && Enabled(k, s, RecordFailure(id, true))
    requires Run(k, Next(k, s, RecordFailure(id, true)), steps).Some?
    ensures !Enabled(k, Run(k, Next(k, s, RecordFailure(id, true)), steps).value, Begin(id', kind))
  {
    var before :| Run(k, Initial(webm), before) == Some(s);
    BoundedRun(k, Initial(webm), before);
    BoundedStep(k, s, RecordFailure(id, true));
    OverRun(k, Next(k, s, RecordFailure(id, true)), steps);
  }

  /** Neither does one begin after a run has found the video compatible as it is. */
  lemma CompatibleIsFinal(k: nat, webm: bool, s: State, id: int, steps: seq<Step>, id': int, kind: Kind)
    requires Reachable(k, webm, s) && Enabled(k, s, MarkNormalized(id))
    requires Run(k, Next(k, s, MarkNormalized(id)), steps).Some?
    ensures !Enabled(k, Run(k, Next(k, s, MarkNormalized(id)), steps).value, Begin(id', kind))
  {
    var before :| Run(k, Initial(webm), before) == Some(s);
    BoundedRun(k, Initial(webm), before);
    BoundedStep(k, s, MarkNormalized(id));
    OverRun(k, Next(k, s, MarkNormalized(id)), steps);
  }

  /** What each step may change: the counter only by a recorded failure, one at a time unless it is
      permanent, or by the clearing after a success; the flags only by success and by marking. */
  lemma ChangesOnlyFor(k: nat, s: State, e: Step)
    requires Enabled(k, s, e)
    ensures var t := Next(k, s, e);
      && (e.RecordFailure? ==> t.attempts == (if e.permanent then 5 else s.attempts + 1) && t.failures == s.failures + 1)
      && (!e.RecordFailure? ==> t.failures == s.failures)
      && (e.ClearFailures? ==> t.attempts == 0)
      && (t.attempts != s.attempts ==> e.RecordFailure? || e.ClearFailures?)
      && (t.webm != s.webm ==> e.WriteSuccess? && s.runs[e.id].kind == Transcode && !t.webm)
      && (t.normalized != s.normalized ==> (e.WriteSuccess? || e.MarkNormalized?) && t.normalized)
      && (forall id :: id in s.runs && id !in t.runs ==>
            e == Vanish(id) || e == MarkNormalized(id) || e == ClearFailures(id) || (e.RecordFailure? && e.id == id))
      && (forall id :: id in t.runs && id !in s.runs ==> e.Begin? && e.id == id && t.runs[id] == EncodeRun(e.kind, Encoding))
  {
  }
}
