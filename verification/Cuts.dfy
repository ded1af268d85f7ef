/** The list of cuts a remove-segments request carries: its validation, its rounding to the
    milliseconds that are printed into the filter, and the duration stored afterwards. */
module Cuts {
  import opened Options
  import FilterExpr

  datatype Cut = Cut(start: real, end: real)

  const MAX_SEGMENTS: nat := 200

  /** What the handler reads of the video row. */
  datatype VideoRow = VideoRow(duration: int, ready: bool)

  datatype Verdict =
    | Accepted
    | NoSegments | TooManySegments
    | NegativeStart | EndNotAfterStart
    | Unsorted | Overlap
    | NotFound | NotReady
    | ExceedsDuration | TooShort

  function Removed(cuts: seq<Cut>): real {
    if cuts == [] then 0.0
    else Removed(cuts[..|cuts| - 1]) + (cuts[|cuts| - 1].end - cuts[|cuts| - 1].start)
  }

  predicate WellShaped(c: Cut) {
    0.0 <= c.start < c.end
  }

  /** Pairwise disjoint and in order, for every pair and not only for neighbours. */
  ghost predicate Disjoint(cuts: seq<Cut>) {
    forall i, j :: 0 <= i < j < |cuts| ==> cuts[i].end <= cuts[j].start
  }

  ghost predicate Acceptable(cuts: seq<Cut>, duration: int) {
    && 1 <= |cuts| <= 200
    && (forall c :: c in cuts ==> WellShaped(c) && c.end <= duration as real)
    && Disjoint(cuts)
    && duration as real - Removed(cuts) >= 1.0
  }

  /** i is the first cut that is not well shaped. */
  ghost predicate FirstMisshapen(cuts: seq<Cut>, i: int) {
    0 <= i < |cuts| && !WellShaped(cuts[i]) && forall k :: 0 <= k < i ==> WellShaped(cuts[k])
  }

  /** i is the first cut that does not follow its predecessor. */
  ghost predicate FirstMisplaced(cuts: seq<Cut>, i: int) {
    && 1 <= i < |cuts| && cuts[i].start < cuts[i - 1].end
    && forall k :: 1 <= k < i ==> cuts[k - 1].end <= cuts[k].start
  }

  /** Neighbours in order means every pair in order. */
  lemma {:induction false} AdjacentImpliesDisjoint(cuts: seq<Cut>)
    requires AllWellShaped(cuts)
    requires forall k :: 1 <= k < |cuts| ==> cuts[k - 1].end <= cuts[k].start
    ensures Disjoint(cuts)
    decreases |cuts|
  {
    if cuts != [] {
      var n := |cuts| - 1;
      AdjacentImpliesDisjoint(cuts[..n]);
      forall i | 0 <= i < n
        ensures cuts[i].end <= cuts[n].start
      {
        assert cuts[n - 1].end <= cuts[n].start;
        if i < n - 1 {
          assert cuts[..n][i].end <= cuts[..n][n - 1].start;
          assert WellShaped(cuts[n - 1]);
        }
      }
    }
  }

  ghost predicate Counted(cuts: seq<Cut>) {
    1 <= |cuts| <= 200
  }

  ghost predicate AllWellShaped(cuts: seq<Cut>) {
    forall c :: c in cuts ==> WellShaped(c)
  }

  /** What each answer says about the request and the row it found. */
  ghost predicate Deserves(cuts: seq<Cut>, row: Option<VideoRow>, v: Verdict) {
    match v
    case NoSegments => cuts == []
    case TooManySegments => |cuts| > 200
    case NegativeStart => Counted(cuts) && exists i :: FirstMisshapen(cuts, i) && cuts[i].start < 0.0
    case EndNotAfterStart => Counted(cuts) && exists i :: FirstMisshapen(cuts, i) && cuts[i].start >= 0.0
    case Unsorted =>
      && Counted(cuts) && AllWellShaped(cuts)
      && exists i :: FirstMisplaced(cuts, i) && cuts[i].start < cuts[i - 1].start
    case Overlap =>
      && Counted(cuts) && AllWellShaped(cuts)
      && exists i :: FirstMisplaced(cuts, i) && cuts[i].start >= cuts[i - 1].start
    case NotFound => Placed(cuts) && row.None?
    case NotReady => Placed(cuts) && row.Some? && !row.value.ready
    case ExceedsDuration =>
      && Placed(cuts) && row.Some? && row.value.ready
      && exists c :: c in cuts && c.end > row.value.duration as real
    case TooShort =>
      && Placed(cuts) && row.Some? && row.value.ready
      && (forall c :: c in cuts ==> c.end <= row.value.duration as real)
      && row.value.duration as real - Removed(cuts) < 1.0
    case Accepted => row.Some? && row.value.ready && Acceptable(cuts, row.value.duration)
  }

  ghost predicate Placed(cuts: seq<Cut>) {
    Counted(cuts) && AllWellShaped(cuts) && Disjoint(cuts)
  }

  lemma FirstFaultsUnique(cuts: seq<Cut>, i: int, k: int)
    ensures FirstMisshapen(cuts, i) && FirstMisshapen(cuts, k) ==> i == k
    ensures FirstMisplaced(cuts, i) && FirstMisplaced(cuts, k) ==> i == k
  {
    if FirstMisshapen(cuts, i) && FirstMisshapen(cuts, k) && i != k {
      assert false;
    }
  }

  lemma FaultsShow(cuts: seq<Cut>, i: int)
    ensures FirstMisshapen(cuts, i) ==> !AllWellShaped(cuts)
    ensures FirstMisplaced(cuts, i) ==> !Disjoint(cuts)
  {
    if FirstMisshapen(cuts, i) {
      assert cuts[i] in cuts;
    }
    if FirstMisplaced(cuts, i) {
      assert 0 <= i - 1 < i < |cuts|;
    }
  }

  lemma AcceptablePlaced(cuts: seq<Cut>, duration: int)
    requires Acceptable(cuts, duration)
    ensures Placed(cuts) && (forall c :: c in cuts ==> c.end <= duration as real) && duration as real - Removed(cuts) >= 1.0
  {
  }

  /** The answers exclude one another, so Deserves says exactly when each is given. */
  lemma DeservesOne(cuts: seq<Cut>, row: Option<VideoRow>, v: Verdict, w: Verdict)
    requires Deserves(cuts, row, v) && Deserves(cuts, row, w)
    ensures v == w
  {
    hide FirstMisshapen, FirstMisplaced, AllWellShaped, Disjoint, Removed, Acceptable;
    forall i, k {
      FirstFaultsUnique(cuts, i, k);
    }
    forall i {
      FaultsShow(cuts, i);
    }
    if row.Some? && Acceptable(cuts, row.value.duration) {
      AcceptablePlaced(cuts, row.value.duration);
    }
  }

  /** The validation in RemoveSegments, up to the claim on the row. A row is absent when the
      query finds none. */
  method Validate(cuts: seq<Cut>, row: Option<VideoRow>) returns (v: Verdict)
    ensures Deserves(cuts, row, v)
  {
    if |cuts| == 0 {
      return NoSegments;
    }
    if |cuts| > MAX_SEGMENTS {
      return TooManySegments;
    }
    v := CheckShapes(cuts);
    if v != Accepted {
      return;
    }
    if row.None? {
      return NotFound;
    }
    if !row.value.ready {
      return NotReady;
    }
    for i := 0 to |cuts|
      invariant forall k :: 0 <= k < i ==> cuts[k].end <= row.value.duration as real
    {
      if cuts[i].end > row.value.duration as real {
        assert cuts[i] in cuts;
        return ExceedsDuration;
      }
    }
    var removed := RemovedTime(cuts);
    if row.value.duration as real - removed < 1.0 {
      return TooShort;
    }
    return Accepted;
  }

  /** The two loops that look at the cuts alone; Accepted stands for going on. */
  method CheckShapes(cuts: seq<Cut>) returns (v: Verdict)
    requires Counted(cuts)
    ensures if v == Accepted then Placed(cuts) else Deserves(cuts, None, v)
    ensures v in {Accepted, NegativeStart, EndNotAfterStart, Unsorted, Overlap}
  {
    for i := 0 to |cuts|
      invariant forall k :: 0 <= k < i ==> WellShaped(cuts[k])
    {
      if cuts[i].start < 0.0 {
        assert FirstMisshapen(cuts, i);
        return NegativeStart;
      }
      if cuts[i].end <= cuts[i].start {
        assert FirstMisshapen(cuts, i);
        return EndNotAfterStart;
      }
    }
    for i := 1 to |cuts|
      invariant forall k :: 1 <= k < i ==> cuts[k - 1].end <= cuts[k].start
    {
      if cuts[i].start < cuts[i - 1].start {
        assert WellShaped(cuts[i - 1]);
        assert FirstMisplaced(cuts, i);
        return Unsorted;
      }
      if cuts[i].start < cuts[i - 1].end {
        assert FirstMisplaced(cuts, i);
        return Overlap;
      }
    }
    AdjacentImpliesDisjoint(cuts);
    return Accepted;
  }

  /** The summing loop, which the handler and the job both run. */
  method RemovedTime(cuts: seq<Cut>) returns (removed: real)
    ensures removed == Removed(cuts)
  {
    removed := 0.0;
    for i := 0 to |cuts|
      invariant removed == Removed(cuts[..i])
    {
      removed := removed + (cuts[i].end - cuts[i].start);
      assert cuts[..i + 1][..i] == cuts[..i];
    }
    assert cuts[..|cuts|] == cuts;
  }

  // ----- rounding to milliseconds, as %.3f does

  /** Nearest millisecond, a tie going to the even one. */
  function RoundMilli(x: real): (ms: nat)
    requires x >= 0.0
  {
    var f := (x * 1000.0).Floor;
    var r := x * 1000.0 - f as real;
    if r < 0.5 || (r == 0.5 && f % 2 == 0) then f else f + 1
  }

  lemma RoundMilliNear(x: real)
    requires x >= 0.0
    ensures -0.0005 <= FilterExpr.Seconds(RoundMilli(x)) - x <= 0.0005
  {
    var f := (x * 1000.0).Floor;
    assert f as real <= x * 1000.0 < f as real + 1.0;
    var ms := RoundMilli(x);
    assert -0.5 <= ms as real - x * 1000.0 <= 0.5;
  }

  lemma RoundMilliMonotone(x: real, y: real)
    requires 0.0 <= x <= y
    ensures RoundMilli(x) <= RoundMilli(y)
  {
    assert x * 1000.0 <= y * 1000.0;
    assert (x * 1000.0).Floor <= (y * 1000.0).Floor;
  }

  /** Rounding leaves whole seconds alone. */
  lemma RoundMilliWhole(n: nat)
    ensures RoundMilli(n as real) == 1000 * n
  {
    assert n as real * 1000.0 == (1000 * n) as real;
  }

  /** A cut as it is printed, in milliseconds. Rounding may make it empty. */
  datatype MsCut = MsCut(start: nat, end: nat)

  predicate NonNegative(cuts: seq<Cut>) {
    forall i :: 0 <= i < |cuts| ==> cuts[i].start >= 0.0 && cuts[i].end >= 0.0
  }

  function Printed(cuts: seq<Cut>): (ms: seq<MsCut>)
    requires NonNegative(cuts)
    ensures |ms| == |cuts|
  {
    seq(|cuts|, i requires 0 <= i < |cuts| => MsCut(RoundMilli(cuts[i].start), RoundMilli(cuts[i].end)))
  }

  /** Ordered cuts that may touch and may be empty. */
  ghost predicate Ordered(ms: seq<MsCut>) {
    && (forall i :: 0 <= i < |ms| ==> ms[i].start <= ms[i].end)
    && (forall i, j :: 0 <= i < j < |ms| ==> ms[i].end <= ms[j].start)
  }

  ghost predicate Within(ms: seq<MsCut>, duration: nat) {
    forall i :: 0 <= i < |ms| ==> ms[i].end <= 1000 * duration
  }

  /** Seconds removed by the printed cuts. */
  function RemovedMs(ms: seq<MsCut>): int {
    if ms == [] then 0 else (ms[0].end - ms[0].start) + RemovedMs(ms[1..])
  }

  /** Every accepted list is printed as an ordered list that ends within the video. */
  lemma AcceptedIsOrdered(cuts: seq<Cut>, duration: int)
    requires Acceptable(cuts, duration)
    ensures NonNegative(cuts) && duration >= 1
    ensures Ordered(Printed(cuts)) && Within(Printed(cuts), duration)
  {
    assert WellShaped(cuts[0]) && cuts[0].end <= duration as real;
    var ms := Printed(cuts);
    forall i | 0 <= i < |ms|
      ensures ms[i].start <= ms[i].end <= 1000 * duration
    {
      assert WellShaped(cuts[i]);
      RoundMilliMonotone(cuts[i].start, cuts[i].end);
      RoundMilliMonotone(cuts[i].end, duration as real);
      RoundMilliWhole(duration);
    }
    forall i, j | 0 <= i < j < |ms|
      ensures ms[i].end <= ms[j].start
    {
      assert WellShaped(cuts[i]);
      RoundMilliMonotone(cuts[i].end, cuts[j].start);
    }
  }

  lemma {:induction false} RemovedMsLast(ms: seq<MsCut>)
    requires ms != []
    ensures RemovedMs(ms) == RemovedMs(ms[..|ms| - 1]) + (ms[|ms| - 1].end - ms[|ms| - 1].start)
    decreases |ms|
  {
    if |ms| > 1 {
      RemovedMsLast(ms[1..]);
      assert ms[1..][..|ms| - 2] == ms[..|ms| - 1][1..];
    }
  }

  /** Rounding the two ends of n cuts moves their total length by at most n milliseconds. */
  lemma {:induction false} RoundingDrift(cuts: seq<Cut>)
    requires NonNegative(cuts)
    ensures -(|cuts| as real) / 1000.0 <= FilterExpr.Seconds(RemovedMs(Printed(cuts))) - Removed(cuts)
         <= (|cuts| as real) / 1000.0
    decreases |cuts|
  {
    if cuts != [] {
      var n := |cuts| - 1;
      RoundingDrift(cuts[..n]);
      RoundMilliNear(cuts[n].start);
      RoundMilliNear(cuts[n].end);
      RemovedMsLast(Printed(cuts));
      assert Printed(cuts)[..n] == Printed(cuts[..n]);
    }
  }

  // ----- the duration written back to the row

  /** Conversion of a float to int in Go: towards zero. */
  function Truncate(x: real): int {
    if x >= 0.0 then x.Floor else -((-x).Floor)
  }

  method NewDuration(original: int, cuts: seq<Cut>) returns (d: int)
    ensures d == Truncate(original as real - Removed(cuts))
  {
    var removed := RemovedTime(cuts);
    d := Truncate(original as real - removed);
  }

  /** What the printed filter keeps, against the whole seconds stored for the edited video. */
  lemma StoredDurationDrift(cuts: seq<Cut>, duration: int)
    requires Acceptable(cuts, duration)
    ensures NonNegative(cuts)
    ensures var kept := duration as real - FilterExpr.Seconds(RemovedMs(Printed(cuts)));
            var stored := Truncate(duration as real - Removed(cuts));
            && stored >= 1
            && -(|cuts| as real) / 1000.0 <= kept - stored as real < 1.0 + (|cuts| as real) / 1000.0
  {
    hide Removed, RemovedMs, Printed;
    AcceptedIsOrdered(cuts, duration);
    RoundingDrift(cuts);
    assert duration as real - Removed(cuts) >= 1.0;
  }
}
