/** The video half of the remove-segments filter: which frames select keeps and what time
    setpts gives them. */
module VideoFilter {
  import opened Bounds
  import opened Options
  import opened FilterExpr
  import opened Cuts
  import opened BalancedSum

  // ----- the printed expressions

  function Between(c: MsCut): string {
    "between(t," + Literal(c.start) + "," + Literal(c.end) + ")"
  }

  function Elapsed(c: MsCut): string {
    "gte(T," + Literal(c.end) + ")*(" + Literal(c.end) + "-" + Literal(c.start) + ")"
  }

  function Betweens(ms: seq<MsCut>): seq<string> {
    seq(|ms|, i requires 0 <= i < |ms| => Between(ms[i]))
  }

  function Elapseds(ms: seq<MsCut>): seq<string> {
    seq(|ms|, i requires 0 <= i < |ms| => Elapsed(ms[i]))
  }

  function SelectText(ms: seq<MsCut>): string {
    "not(" + Balanced(Betweens(ms)) + ")"
  }

  function ShiftText(ms: seq<MsCut>): string {
    "PTS-" + Balanced(Elapseds(ms)) + "/TB"
  }

  // ----- the chain around them

  function Setting(name: string, value: string): string {
    name + "=" + value
  }

  function Quoted(text: string): string {
    "'" + text + "'"
  }

  const WIDTH := "min(1920,iw)"
  const HEIGHT := "min(1080,ih)"
  const KEEP := "force_original_aspect_"
  const RATIO := KEEP + "ratio=decrease"
  const EVEN := "force_divisible_by=2"

  function Size(): string {
    Quoted(WIDTH) + ":" + (Quoted(HEIGHT) + ":" + (RATIO + ":" + EVEN))
  }

  /** The filters after the cuts. */
  function Ending(): string {
    Setting("fps", "60") + "," + Setting("scale", Size())
  }

  /** The filters from the first to the last, around a select and a shift expression. */
  function Filters(select: string, shift: string): string {
    Setting("setpts", "PTS-STARTPTS") + "," +
    (Setting("select", Quoted(select)) + "," +
     (Setting("setpts", Quoted(shift)) + "," + Ending()))
  }

  function VideoText(ms: seq<MsCut>): string {
    "[0:v]" + Filters(SelectText(ms), ShiftText(ms)) + "[v]"
  }

  method BuildSegmentFilter(cuts: seq<Cut>) returns (text: string)
    requires NonNegative(cuts)
    ensures text == Balanced(Betweens(Printed(cuts)))
  {
    hide Literal, Balanced;
    var parts := new string[|cuts|];
    for i := 0 to |cuts|
      invariant forall k :: 0 <= k < i ==> parts[k] == Betweens(Printed(cuts))[k]
    {
      parts[i] := "between(t," + Literal(RoundMilli(cuts[i].start)) + "," + Literal(RoundMilli(cuts[i].end)) + ")";
    }
    assert parts[..] == Betweens(Printed(cuts));
    text := Balanced(parts[..]);
  }

  /** The loop over the cuts for setpts. */
  method RemovedTerms(cuts: seq<Cut>) returns (text: string)
    requires NonNegative(cuts)
    ensures text == Balanced(Elapseds(Printed(cuts)))
  {
    hide Literal, Balanced;
    var removed := new string[|cuts|];
    for i := 0 to |cuts|
      invariant forall k :: 0 <= k < i ==> removed[k] == Elapseds(Printed(cuts))[k]
    {
      var start, end := Literal(RoundMilli(cuts[i].start)), Literal(RoundMilli(cuts[i].end));
      removed[i] := "gte(T," + end + ")*(" + end + "-" + start + ")";
    }
    assert removed[..] == Elapseds(Printed(cuts));
    text := Balanced(removed[..]);
  }

  method BuildVideoFilter(cuts: seq<Cut>) returns (text: string)
    requires NonNegative(cuts)
    ensures text == VideoText(Printed(cuts))
  {
    hide Literal, Balanced, Filters;
    var between := BuildSegmentFilter(cuts);
    var removed := RemovedTerms(cuts);
    text := "[0:v]" + Filters("not(" + between + ")", "PTS-" + removed + "/TB") + "[v]";
  }

  // ----- the expressions they parse to

  function BetweenExpr(c: MsCut): Expr {
    Call("between", [Ident("t"), Num(Seconds(c.start)), Num(Seconds(c.end))])
  }

  function ElapsedExpr(c: MsCut): Expr {
    Mul(Call("gte", [Ident("T"), Num(Seconds(c.end))]),
        Sub(Num(Seconds(c.end)), Num(Seconds(c.start))))
  }

  function BetweenExprs(ms: seq<MsCut>): seq<Expr> {
    seq(|ms|, i requires 0 <= i < |ms| => BetweenExpr(ms[i]))
  }

  function ElapsedExprs(ms: seq<MsCut>): seq<Expr> {
    seq(|ms|, i requires 0 <= i < |ms| => ElapsedExpr(ms[i]))
  }

  function SelectExpr(ms: seq<MsCut>): Expr {
    Call("not", [Tree(BetweenExprs(ms))])
  }

  function ShiftExpr(ms: seq<MsCut>): Expr {
    Sub(Ident("PTS"), Div(Tree(ElapsedExprs(ms)), Ident("TB")))
  }

  lemma OperandIsSum(s: string, e: Expr)
    requires IsFactor(s, e)
    ensures IsSum(s, e)
  {
    FactorIsTerm(s, e);
    TermIsSum(s, e);
  }

  lemma BetweenReads(c: MsCut)
    ensures IsTerm(Between(c), BetweenExpr(c))
  {
    hide IsTerm, IsSum, IsFactor, Literal;
    var ss := ["t", Literal(c.start), Literal(c.end)];
    IdentIsFactor("t");
    LiteralIsFactor(c.start);
    LiteralIsFactor(c.end);
    OperandIsSum("t", Ident("t"));
    OperandIsSum(ss[1], Num(Seconds(c.start)));
    OperandIsSum(ss[2], Num(Seconds(c.end)));
    CallIsFactor("between", ss, BetweenExpr(c).args);
    assert ss[1..][0] == ss[1] && ss[1..][1..] == [ss[2]];
    assert JoinArgs(ss[1..]) == ss[1] + "," + ss[2];
    assert JoinArgs(ss) == "t" + "," + (ss[1] + "," + ss[2]);
    assert Between(c) == "between" + "(" + JoinArgs(ss) + ")";
    FactorIsTerm(Between(c), BetweenExpr(c));
  }

  lemma ElapsedReads(c: MsCut)
    ensures IsTerm(Elapsed(c), ElapsedExpr(c))
  {
    hide IsTerm, IsSum, IsFactor, Literal;
    var s, e := Literal(c.start), Literal(c.end);
    var es, ee := Num(Seconds(c.start)), Num(Seconds(c.end));
    LiteralIsFactor(c.start);
    LiteralIsFactor(c.end);
    IdentIsFactor("T");
    OperandIsSum("T", Ident("T"));
    OperandIsSum(e, ee);
    CallIsFactor("gte", ["T", e], [Ident("T"), ee]);
    assert ["T", e][1..] == [e];
    assert JoinArgs(["T", e]) == "T" + "," + e;
    var call := "gte" + "(" + JoinArgs(["T", e]) + ")";
    FactorIsTerm(call, ElapsedExpr(c).left);
    FactorIsTerm(s, es);
    SubIsSum(e, ee, s, es);
    ParenIsFactor(e + "-" + s, Sub(ee, es));
    MulIsTerm(call, ElapsedExpr(c).left, "(" + (e + "-" + s) + ")", Sub(ee, es));
    assert call == "gte(T," + e + ")";
    assert Elapsed(c) == call + "*" + ("(" + (e + "-" + s) + ")");
  }

  /** Spliced into not(...) and between PTS- and /TB, the sums keep the precedence they are
      meant to have, for every number of cuts including none and one. */
  lemma SplicedAsIntended(ms: seq<MsCut>)
    ensures Parse(SelectText(ms)) == Some(SelectExpr(ms))
    ensures Parse(ShiftText(ms)) == Some(ShiftExpr(ms))
  {
    forall i | 0 <= i < |ms|
      ensures IsTerm(Betweens(ms)[i], BetweenExprs(ms)[i])
      ensures IsTerm(Elapseds(ms)[i], ElapsedExprs(ms)[i])
    {
      BetweenReads(ms[i]);
      ElapsedReads(ms[i]);
    }
    var b, r := Balanced(Betweens(ms)), Balanced(Elapseds(ms));
    BalancedReads(Betweens(ms), BetweenExprs(ms));
    TermIsSum(b, Tree(BetweenExprs(ms)));
    CallIsFactor("not", [b], [Tree(BetweenExprs(ms))]);
    assert SelectText(ms) == "not" + "(" + JoinArgs([b]) + ")";
    OperandIsSum(SelectText(ms), SelectExpr(ms));
    SumParses(SelectText(ms), SelectExpr(ms));

    BalancedReads(Elapseds(ms), ElapsedExprs(ms));
    IdentIsFactor("PTS");
    IdentIsFactor("TB");
    DivIsTerm(r, Tree(ElapsedExprs(ms)), "TB", Ident("TB"));
    OperandIsSum("PTS", Ident("PTS"));
    SubIsSum("PTS", Ident("PTS"), r + "/" + "TB", ShiftExpr(ms).right);
    assert ShiftText(ms) == "PTS" + "-" + (r + "/" + "TB");
    SumParses(ShiftText(ms), ShiftExpr(ms));
  }

  // ----- what they mean

  ghost predicate InCut(ms: seq<MsCut>, t: real) {
    exists i :: 0 <= i < |ms| && Seconds(ms[i].start) <= t <= Seconds(ms[i].end)
  }

  /** Total length of the cuts that have ended by time t. */
  function RemovedBefore(ms: seq<MsCut>, t: real): real {
    if ms == [] then 0.0
    else (if t >= Seconds(ms[0].end) then Seconds(ms[0].end) - Seconds(ms[0].start) else 0.0) + RemovedBefore(ms[1..], t)
  }

  /** Where the video side puts the frame of time t. */
  function VideoTime(ms: seq<MsCut>, t: real): real {
    t - RemovedBefore(ms, t)
  }

  lemma {:induction false} BetweenSum(ms: seq<MsCut>, env: Env)
    requires "t" in env
    ensures FlatSum(BetweenExprs(ms), env) >= 0.0
    ensures FlatSum(BetweenExprs(ms), env) == 0.0 <==> !InCut(ms, env["t"])
    decreases |ms|
  {
    if ms != [] {
      BetweenSum(ms[1..], env);
      var t := env["t"];
      assert BetweenExprs(ms)[1..] == BetweenExprs(ms[1..]);
      var here := Seconds(ms[0].start) <= t <= Seconds(ms[0].end);
      assert Eval(BetweenExprs(ms)[0], env) == Truth(here);
      assert InCut(ms, t) <==> here || InCut(ms[1..], t) by {
        if InCut(ms[1..], t) {
          var i :| 0 <= i < |ms[1..]| && Seconds(ms[1..][i].start) <= t <= Seconds(ms[1..][i].end);
          assert ms[i + 1] == ms[1..][i];
        }
        if InCut(ms, t) && !here {
          var i :| 0 <= i < |ms| && Seconds(ms[i].start) <= t <= Seconds(ms[i].end);
          assert ms[1..][i - 1] == ms[i];
        }
      }
    }
  }

  lemma {:induction false} ElapsedSum(ms: seq<MsCut>, env: Env)
    requires "T" in env
    ensures FlatSum(ElapsedExprs(ms), env) == RemovedBefore(ms, env["T"])
    decreases |ms|
  {
    if ms != [] {
      ElapsedSum(ms[1..], env);
      assert ElapsedExprs(ms)[1..] == ElapsedExprs(ms[1..]);
      var len := Seconds(ms[0].end) - Seconds(ms[0].start);
      var reached := env["T"] >= Seconds(ms[0].end);
      var e := ElapsedExpr(ms[0]);
      assert Eval(e.left, env) == Truth(reached);
      assert Eval(e.right, env) == len;
      assert Truth(reached) * len == if reached then len else 0.0;
    }
  }

  /** select passes a frame exactly when its time lies outside every closed cut. */
  lemma SelectKeepsOutside(ms: seq<MsCut>, env: Env)
    requires "t" in env
    ensures Parse(SelectText(ms)) == Some(SelectExpr(ms))
    ensures Eval(SelectExpr(ms), env) != 0.0 <==> !InCut(ms, env["t"])
  {
    SplicedAsIntended(ms);
    TreeValue(BetweenExprs(ms), env);
    BetweenSum(ms, env);
  }

  /** setpts moves a frame back by the length of the cuts that have ended, in timestamp units. */
  lemma ShiftClosesGaps(ms: seq<MsCut>, env: Env)
    requires {"T", "PTS", "TB"} <= env.Keys && env["TB"] > 0.0
    ensures Parse(ShiftText(ms)) == Some(ShiftExpr(ms))
    ensures Eval(ShiftExpr(ms), env) == env["PTS"] - RemovedBefore(ms, env["T"]) / env["TB"]
  {
    SplicedAsIntended(ms);
    var sum := Tree(ElapsedExprs(ms));
    assert Eval(sum, env) == RemovedBefore(ms, env["T"]) by {
      TreeValue(ElapsedExprs(ms), env);
      ElapsedSum(ms, env);
    }
    EvalShifted(sum, env);
  }

  lemma EvalShifted(sum: Expr, env: Env)
    requires {"PTS", "TB"} <= env.Keys && env["TB"] > 0.0
    ensures Eval(Sub(Ident("PTS"), Div(sum, Ident("TB"))), env) == env["PTS"] - Eval(sum, env) / env["TB"]
  {
    assert Eval(Ident("TB"), env) == env["TB"];
  }

  lemma Quotients(t: real, r: real, tb: real)
    requires tb > 0.0
    ensures t / tb - r / tb == (t - r) / tb
  {
  }

  // ----- depth of the whole expressions

  /** For every list the handler accepts, both expressions stay far below the 100 levels
      libavutil allows. */
  lemma NestingBounded(ms: seq<MsCut>)
    requires 1 <= |ms| <= 200
    ensures Depth(Tree(BetweenExprs(ms))) == CeilLog2(|ms|) + 1
    ensures Depth(Tree(ElapsedExprs(ms))) == CeilLog2(|ms|) + 2
    ensures CeilLog2(|ms|) <= 8
    ensures Depth(SelectExpr(ms)) <= 10 && Depth(ShiftExpr(ms)) <= 12
  {
    forall i | 0 <= i < |ms|
      ensures Depth(BetweenExprs(ms)[i]) == 1 && Depth(ElapsedExprs(ms)[i]) == 2
    {
      OperandDepths(ms[i]);
    }
    TreeDepth(BetweenExprs(ms), 1);
    TreeDepth(ElapsedExprs(ms), 2);
    CeilLog2Monotone(|ms|, 200);
    CeilLog2OfLimit();
    SplicedDepths(Tree(BetweenExprs(ms)), Tree(ElapsedExprs(ms)));
  }

  lemma CeilLog2OfLimit()
    ensures CeilLog2(200) == 8
  {
    assert CeilLog2(13) == 4;
    assert CeilLog2(50) == 6;
  }

  lemma SplicedDepths(b: Expr, r: Expr)
    ensures Depth(Call("not", [b])) == 1 + Depth(b)
    ensures Depth(Sub(Ident("PTS"), Div(r, Ident("TB")))) == 2 + Depth(r)
  {
    assert [b][1..] == [];
    assert DepthOfAll([b]) == Max(Depth(b), 0);
    assert Depth(Ident("TB")) == 0 && Depth(Div(r, Ident("TB"))) == 1 + Depth(r);
  }

  lemma {:induction false} LeavesAreFlat(es: seq<Expr>)
    requires forall e :: e in es ==> Depth(e) == 0
    ensures DepthOfAll(es) == 0
    decreases |es|
  {
    if es != [] {
      LeavesAreFlat(es[1..]);
    }
  }

  lemma OperandDepths(c: MsCut)
    ensures Depth(BetweenExpr(c)) == 1 && Depth(ElapsedExpr(c)) == 2
  {
    LeavesAreFlat(BetweenExpr(c).args);
    var e := ElapsedExpr(c);
    LeavesAreFlat(e.left.args);
    assert Depth(e.left) == 1;
    assert Depth(e.right.left) == 0 && Depth(e.right.right) == 0;
    assert Depth(e.right) == 1;
  }

  // ----- the shift as a measure

  lemma CutOrder(ms: seq<MsCut>)
    requires Ordered(ms) && ms != []
    ensures Ordered(ms[1..])
    ensures forall i :: 0 <= i < |ms[1..]| ==> Seconds(ms[0].end) <= Seconds(ms[1..][i].start) <= Seconds(ms[1..][i].end)
    ensures Seconds(ms[0].start) <= Seconds(ms[0].end)
  {
    forall i | 0 <= i < |ms[1..]|
      ensures Seconds(ms[0].end) <= Seconds(ms[1..][i].start) <= Seconds(ms[1..][i].end)
    {
      assert ms[1..][i] == ms[i + 1];
    }
  }

  /** Nothing has been removed before the first cut ends. */
  lemma {:induction false} NothingYet(ms: seq<MsCut>, t: real)
    requires forall i :: 0 <= i < |ms| ==> t < Seconds(ms[i].end)
    ensures RemovedBefore(ms, t) == 0.0
    decreases |ms|
  {
    if ms != [] {
      forall i | 0 <= i < |ms[1..]| ensures t < Seconds(ms[1..][i].end) { assert ms[1..][i] == ms[i + 1]; }
      NothingYet(ms[1..], t);
    }
  }

  ghost predicate StartsAfter(ms: seq<MsCut>, p: real) {
    forall i :: 0 <= i < |ms| ==> p <= Seconds(ms[i].start)
  }

  function Positive(a: real): real { if a < 0.0 then 0.0 else a }

  /** Length of the part of [p, t] that lies in no cut, piece by piece. */
  function KeptMeasure(p: real, ms: seq<MsCut>, t: real): real
    decreases |ms|
  {
    if ms == [] then Positive(t - p)
    else Positive(Least(t, Seconds(ms[0].start)) - p) + KeptMeasure(Seconds(ms[0].end), ms[1..], t)
  }

  lemma {:induction false} NothingKeptYet(p: real, ms: seq<MsCut>, t: real)
    requires Ordered(ms) && StartsAfter(ms, p) && t <= p
    ensures KeptMeasure(p, ms, t) == 0.0
    decreases |ms|
  {
    if ms != [] {
      CutOrder(ms);
      NothingKeptYet(Seconds(ms[0].end), ms[1..], t);
    }
  }

  /** One step along the list: a kept time is before the first cut or after it. */
  lemma HeadCase(ms: seq<MsCut>, t: real)
    requires Ordered(ms) && ms != [] && !InCut(ms, t)
    ensures t < Seconds(ms[0].start) || Seconds(ms[0].end) < t
    ensures !InCut(ms[1..], t) && Ordered(ms[1..]) && StartsAfter(ms[1..], Seconds(ms[0].end))
    ensures t < Seconds(ms[0].start) ==> RemovedBefore(ms, t) == 0.0 && RemovedBefore(ms[1..], t) == 0.0
  {
    CutOrder(ms);
    assert !(Seconds(ms[0].start) <= t <= Seconds(ms[0].end));
    if t < Seconds(ms[0].start) {
      NothingYet(ms[1..], t);
    }
  }

  lemma {:induction false} ShiftIsMeasure(p: real, ms: seq<MsCut>, t: real)
    requires Ordered(ms) && StartsAfter(ms, p) && p <= t && !InCut(ms, t)
    ensures KeptMeasure(p, ms, t) == (t - p) - RemovedBefore(ms, t)
    decreases |ms|
  {
    if ms != [] {
      HeadCase(ms, t);
      if t < Seconds(ms[0].start) {
        assert Seconds(ms[0].start) <= Seconds(ms[0].end) by { CutOrder(ms); }
        NothingKeptYet(Seconds(ms[0].end), ms[1..], t);
      } else {
        ShiftIsMeasure(Seconds(ms[0].end), ms[1..], t);
        CutOrder(ms);
      }
    }
  }

  /** A kept frame lands at the amount of kept time before it. */
  lemma FrameLandsAtKeptTime(ms: seq<MsCut>, t: real)
    requires Ordered(ms) && 0.0 <= t && !InCut(ms, t)
    ensures VideoTime(ms, t) == KeptMeasure(0.0, ms, t)
  {
    ShiftIsMeasure(0.0, ms, t);
  }

  /** The kept part grows with time. */
  lemma {:induction false} KeptGrows(p: real, ms: seq<MsCut>, t: real, t': real)
    requires t <= t'
    ensures 0.0 <= KeptMeasure(p, ms, t) <= KeptMeasure(p, ms, t')
    decreases |ms|
  {
    if ms != [] {
      KeptGrows(Seconds(ms[0].end), ms[1..], t, t');
    }
  }

  /** Total length of the cuts that lie between two times. */
  function CutBetween(ms: seq<MsCut>, t1: real, t2: real): real {
    if ms == [] then 0.0
    else (if t1 < Seconds(ms[0].start) && Seconds(ms[0].end) < t2
          then Seconds(ms[0].end) - Seconds(ms[0].start) else 0.0) + CutBetween(ms[1..], t1, t2)
  }

  lemma {:induction false} CutsFit(p: real, ms: seq<MsCut>, t: real)
    requires Ordered(ms) && StartsAfter(ms, p) && p <= t && !InCut(ms, t)
    ensures 0.0 <= RemovedBefore(ms, t) <= t - p
    decreases |ms|
  {
    if ms != [] {
      HeadCase(ms, t);
      CutOrder(ms);
      if Seconds(ms[0].end) < t {
        CutsFit(Seconds(ms[0].end), ms[1..], t);
      }
    }
  }

  lemma {:induction false} RemovedBetween(ms: seq<MsCut>, t1: real, t2: real)
    requires Ordered(ms) && t1 < t2 && !InCut(ms, t1) && !InCut(ms, t2)
    ensures RemovedBefore(ms, t2) - RemovedBefore(ms, t1) == CutBetween(ms, t1, t2)
    ensures 0.0 <= CutBetween(ms, t1, t2) < t2 - t1
    decreases |ms|
  {
    if ms != [] {
      HeadCase(ms, t1);
      HeadCase(ms, t2);
      CutOrder(ms);
      RemovedBetween(ms[1..], t1, t2);
      if t1 < Seconds(ms[0].start) && Seconds(ms[0].end) < t2 {
        CutsFit(Seconds(ms[0].end), ms[1..], t2);
      }
    }
  }

  /** Kept frames stay in order, and the time between two of them shrinks by exactly the cuts
      between them; with no cut between them it is preserved. */
  lemma FramesStayInOrder(ms: seq<MsCut>, t1: real, t2: real)
    requires Ordered(ms) && t1 < t2 && !InCut(ms, t1) && !InCut(ms, t2)
    ensures VideoTime(ms, t2) - VideoTime(ms, t1) == (t2 - t1) - CutBetween(ms, t1, t2)
    ensures VideoTime(ms, t1) < VideoTime(ms, t2)
  {
    RemovedBetween(ms, t1, t2);
  }

  lemma {:induction false} RemovedAfterFits(ms: seq<MsCut>, t: real, end: real)
    requires Ordered(ms) && t <= end && !InCut(ms, t)
    requires forall i :: 0 <= i < |ms| ==> Seconds(ms[i].end) <= end
    ensures 0.0 <= Seconds(RemovedMs(ms)) - RemovedBefore(ms, t) <= end - t
    decreases |ms|
  {
    if ms != [] {
      HeadCase(ms, t);
      CutOrder(ms);
      forall i | 0 <= i < |ms[1..]| ensures Seconds(ms[1..][i].end) <= end { assert ms[1..][i] == ms[i + 1]; }
      if t < Seconds(ms[0].start) {
        TotalFits(Seconds(ms[0].end), ms[1..], end);
      } else {
        RemovedAfterFits(ms[1..], t, end);
      }
    }
  }

  lemma {:induction false} TotalFits(p: real, ms: seq<MsCut>, end: real)
    requires Ordered(ms) && StartsAfter(ms, p) && p <= end
    requires forall i :: 0 <= i < |ms| ==> Seconds(ms[i].end) <= end
    ensures 0.0 <= Seconds(RemovedMs(ms)) <= end - p
    decreases |ms|
  {
    if ms != [] {
      CutOrder(ms);
      forall i | 0 <= i < |ms[1..]| ensures Seconds(ms[1..][i].end) <= end { assert ms[1..][i] == ms[i + 1]; }
      TotalFits(Seconds(ms[0].end), ms[1..], end);
    }
  }

  /** Every kept frame of the video lands within the edited length. */
  lemma FrameLandsInRange(ms: seq<MsCut>, duration: nat, t: real)
    requires Ordered(ms) && Within(ms, duration)
    requires 0.0 <= t <= duration as real && !InCut(ms, t)
    ensures 0.0 <= VideoTime(ms, t) <= duration as real - Seconds(RemovedMs(ms))
  {
    CutsFit(0.0, ms, t);
    forall i | 0 <= i < |ms| ensures Seconds(ms[i].end) <= duration as real {
      assert ms[i].end <= 1000 * duration;
    }
    RemovedAfterFits(ms, t, duration as real);
  }
}
