/** The audio half of the remove-segments filter: a filter graph with named links, the text
    that is printed for it, and what running it does to the audio. */
module AudioGraph {
  import opened Bounds
  import opened Options
  import opened FilterExpr
  import opened Cuts
  import opened Text
  import D = Decimal
  import V = VideoFilter

  // ----- the graph and its printed form

  datatype Label = SourceAudio | Seg(i: nat) | Keep(i: nat) | Out

  datatype Filter = Split(marks: seq<nat>) | Rebase | Sink | Concat(n: nat)

  datatype Chain = Chain(inputs: seq<Label>, filter: Filter, outputs: seq<Label>)

  function LabelText(l: Label): string {
    match l
    case SourceAudio => "[0:a]"
    case Seg(i) => "[aseg" + D.Digits(i) + "]"
    case Keep(i) => "[akeep" + D.Digits(i) + "]"
    case Out => "[a]"
  }

  function FilterText(f: Filter): string {
    match f
    case Split(marks) => "asettb=1/sr,asetpts=N,asegment=timestamps='" + Join(Literals(marks), "|") + "'"
    case Rebase => "asetpts=PTS-STARTPTS"
    case Sink => "anullsink"
    case Concat(n) => "concat=n=" + D.Digits(n) + ":v=0:a=1"
  }

  function Literals(marks: seq<nat>): seq<string> {
    seq(|marks|, i requires 0 <= i < |marks| => Literal(marks[i]))
  }

  function LabelTexts(ls: seq<Label>): seq<string> {
    seq(|ls|, i requires 0 <= i < |ls| => LabelText(ls[i]))
  }

  function ChainText(c: Chain): string {
    Join(LabelTexts(c.inputs), "") + FilterText(c.filter) + Join(LabelTexts(c.outputs), "")
  }

  function ChainTexts(g: seq<Chain>): seq<string> {
    seq(|g|, i requires 0 <= i < |g| => ChainText(g[i]))
  }

  function GraphText(g: seq<Chain>): string {
    Join(ChainTexts(g), ";")
  }

  /** Start and end of every cut, in order. */
  function Marks(ms: seq<MsCut>): seq<nat> {
    seq(2 * |ms|, i requires 0 <= i < 2 * |ms| => if i % 2 == 0 then ms[i / 2].start else ms[i / 2].end)
  }

  function Segs(n: nat): seq<Label> {
    seq(2 * n + 1, i requires 0 <= i => Seg(i))
  }

  /** Segments 0, 2, 4, ... lie outside the cuts. */
  function Keeps(n: nat): seq<Label> {
    seq(n + 1, j requires 0 <= j => Keep(2 * j))
  }

  function SegChain(i: nat): Chain {
    if i % 2 == 0 then Chain([Seg(i)], Rebase, [Keep(i)]) else Chain([Seg(i)], Sink, [])
  }

  function SegChains(n: nat): seq<Chain> {
    seq(2 * n + 1, i requires 0 <= i => SegChain(i))
  }

  function FirstChain(ms: seq<MsCut>): Chain {
    Chain([SourceAudio], Split(Marks(ms)), Segs(|ms|))
  }

  function LastChain(ms: seq<MsCut>): Chain {
    Chain(Keeps(|ms|), Concat(|ms| + 1), [Out])
  }

  function Graph(ms: seq<MsCut>): seq<Chain> {
    [FirstChain(ms)] + SegChains(|ms|) + [LastChain(ms)]
  }

  method BuildSegmentAudioFilter(cuts: seq<Cut>) returns (text: string)
    requires NonNegative(cuts)
    ensures text == GraphText(Graph(Printed(cuts)))
  {
    var timestamps := Timestamps(cuts);
    var outputs, filters, kept := RouteSegments(|cuts|);
    text := "[0:a]" + "asettb=1/sr,asetpts=N,asegment=timestamps='" + Join(timestamps, "|") + "'" + Join(outputs, "") + ";" +
      Join(filters, ";") + ";" + Join(kept, "") + "concat=n=" + D.Digits(|kept|) + ":v=0:a=1" + "[a]";
    GraphTextParts(Printed(cuts));
  }

  /** The loop over the cuts. */
  method Timestamps(cuts: seq<Cut>) returns (timestamps: seq<string>)
    requires NonNegative(cuts)
    ensures timestamps == Literals(Marks(Printed(cuts)))
  {
    timestamps := [];
    for i := 0 to |cuts|
      invariant timestamps == Literals(Marks(Printed(cuts[..i])))
    {
      MarksLast(cuts, i);
      timestamps := timestamps + [Literal(RoundMilli(cuts[i].start)), Literal(RoundMilli(cuts[i].end))];
    }
    assert cuts[..|cuts|] == cuts;
  }

  lemma MarksLast(cuts: seq<Cut>, i: nat)
    requires NonNegative(cuts) && i < |cuts|
    ensures Literals(Marks(Printed(cuts[..i + 1]))) ==
            Literals(Marks(Printed(cuts[..i]))) + [Literal(RoundMilli(cuts[i].start)), Literal(RoundMilli(cuts[i].end))]
  {
    var ms, ms' := Printed(cuts[..i]), Printed(cuts[..i + 1]);
    assert ms' == ms + [MsCut(RoundMilli(cuts[i].start), RoundMilli(cuts[i].end))];
    assert Marks(ms') == Marks(ms) + [RoundMilli(cuts[i].start), RoundMilli(cuts[i].end)];
  }

  /** What the loop over the segments has collected after i rounds. */
  function OutputTexts(i: nat): seq<string> {
    if i == 0 then [] else OutputTexts(i - 1) + [LabelText(Seg(i - 1))]
  }

  function SegTexts(i: nat): seq<string> {
    if i == 0 then [] else SegTexts(i - 1) + [ChainText(SegChain(i - 1))]
  }

  function KeptTexts(i: nat): seq<string> {
    if i == 0 then []
    else if (i - 1) % 2 == 0 then KeptTexts(i - 1) + [LabelText(Keep(i - 1))]
    else KeptTexts(i - 1)
  }

  lemma {:induction false} OutputTextsAt(i: nat)
    ensures |OutputTexts(i)| == i && forall k: nat :: k < i ==> OutputTexts(i)[k] == LabelText(Seg(k))
  {
    if i > 0 {
      OutputTextsAt(i - 1);
    }
  }

  lemma {:induction false} SegTextsAt(i: nat)
    ensures |SegTexts(i)| == i && forall k: nat :: k < i ==> SegTexts(i)[k] == ChainText(SegChain(k))
  {
    hide ChainText;
    if i > 0 {
      SegTextsAt(i - 1);
      forall k: nat | k < i
        ensures SegTexts(i)[k] == ChainText(SegChain(k))
      {
        assert k < i - 1 ==> SegTexts(i)[k] == SegTexts(i - 1)[k];
      }
    }
  }

  lemma {:induction false} KeptTextsAt(n: nat)
    ensures KeptTexts(2 * n + 1) == LabelTexts(Keeps(n))
  {
    hide LabelText;
    var i := 2 * n;
    if n > 0 {
      KeptTextsAt(n - 1);
      assert i - 1 == 2 * (n - 1) + 1 && (i - 1) % 2 != 0;
      assert KeptTexts(i) == KeptTexts(i - 1) == LabelTexts(Keeps(n - 1));
      assert Keeps(n) == Keeps(n - 1) + [Keep(i)];
    } else {
      assert Keeps(0) == [Keep(0)];
      assert KeptTexts(0) == [];
    }
    assert KeptTexts(i + 1) == KeptTexts(i) + [LabelText(Keep(i))];
  }

  lemma OutputsRouted(n: nat)
    ensures OutputTexts(2 * n + 1) == LabelTexts(Segs(n))
  {
    hide OutputTexts, LabelText;
    OutputTextsAt(2 * n + 1);
  }

  lemma SegsRouted(n: nat)
    ensures SegTexts(2 * n + 1) == ChainTexts(SegChains(n))
  {
    hide SegTexts, SegChain, ChainText;
    SegTextsAt(2 * n + 1);
  }

  /** The loop over the segments between the timestamps. */
  method RouteSegments(n: nat) returns (outputs: seq<string>, filters: seq<string>, kept: seq<string>)
    ensures outputs == LabelTexts(Segs(n))
    ensures filters == ChainTexts(SegChains(n))
    ensures kept == LabelTexts(Keeps(n))
  {
    outputs, filters, kept := [], [], [];
    for i := 0 to 2 * n + 1
      invariant outputs == OutputTexts(i) && filters == SegTexts(i) && kept == KeptTexts(i)
    {
      var output := "[aseg" + D.Digits(i) + "]";
      SegChainText(i);
      if i % 2 == 0 {
        var name := "[akeep" + D.Digits(i) + "]";
        filters := filters + [output + "asetpts=PTS-STARTPTS" + name];
        kept := kept + [name];
      } else {
        filters := filters + [output + "anullsink"];
      }
      outputs := outputs + [output];
    }
    OutputsRouted(n);
    SegsRouted(n);
    KeptTextsAt(n);
  }

  lemma SegChainText(i: nat)
    ensures i % 2 != 0 ==> ChainText(SegChain(i)) == "[aseg" + D.Digits(i) + "]" + "anullsink"
    ensures i % 2 == 0 ==>
              ChainText(SegChain(i)) == "[aseg" + D.Digits(i) + "]" + "asetpts=PTS-STARTPTS" + ("[akeep" + D.Digits(i) + "]")
  {
    assert LabelTexts([Seg(i)]) == ["[aseg" + D.Digits(i) + "]"];
    assert LabelTexts([Keep(i)]) == ["[akeep" + D.Digits(i) + "]"];
    assert LabelTexts([]) == [];
  }

  lemma Assoc(a: string, b: string, c: string)
    ensures a + b + c == a + (b + c)
  {
  }

  lemma GraphTextJoin(ms: seq<MsCut>)
    ensures GraphText(Graph(ms)) == ChainText(FirstChain(ms)) + ";" + (Join(ChainTexts(SegChains(|ms|)), ";") + ";" + ChainText(LastChain(ms)))
  {
    var first, last := ChainText(FirstChain(ms)), ChainText(LastChain(ms));
    var mid := ChainTexts(SegChains(|ms|));
    ChainTextsConcat([FirstChain(ms)] + SegChains(|ms|), [LastChain(ms)]);
    ChainTextsConcat([FirstChain(ms)], SegChains(|ms|));
    assert ChainTexts([FirstChain(ms)]) == [first] && ChainTexts([LastChain(ms)]) == [last];
    assert [first] + mid + [last] == [first] + (mid + [last]);
    JoinSplit([first], mid + [last], ";");
    JoinSplit(mid, [last], ";");
  }

  lemma EndChainTexts(ms: seq<MsCut>)
    ensures ChainText(FirstChain(ms)) == "[0:a]" +
      ("asettb=1/sr,asetpts=N,asegment=timestamps='" + Join(Literals(Marks(ms)), "|") + "'") + Join(LabelTexts(Segs(|ms|)), "")
    ensures ChainText(LastChain(ms)) ==
      Join(LabelTexts(Keeps(|ms|)), "") + ("concat=n=" + D.Digits(|ms| + 1) + ":v=0:a=1") + "[a]"
  {
    LabelAlone(SourceAudio);
    LabelAlone(Out);
    assert FilterText(Split(Marks(ms))) == "asettb=1/sr,asetpts=N,asegment=timestamps='" + Join(Literals(Marks(ms)), "|") + "'";
  }

  lemma LabelAlone(l: Label)
    ensures Join(LabelTexts([l]), "") == LabelText(l)
  {
    assert LabelTexts([l]) == [LabelText(l)];
  }

  lemma GraphTextParts(ms: seq<MsCut>)
    ensures GraphText(Graph(ms)) ==
      "[0:a]" + "asettb=1/sr,asetpts=N,asegment=timestamps='" + Join(Literals(Marks(ms)), "|") + "'" + Join(LabelTexts(Segs(|ms|)), "") + ";" +
      Join(ChainTexts(SegChains(|ms|)), ";") + ";" + Join(LabelTexts(Keeps(|ms|)), "") + "concat=n=" + D.Digits(|ms| + 1) + ":v=0:a=1" + "[a]"
  {
    GraphTextJoin(ms);
    EndChainTexts(ms);
    Regroup("[0:a]", "asettb=1/sr,asetpts=N,asegment=timestamps='", Join(Literals(Marks(ms)), "|"), "'",
      Join(LabelTexts(Segs(|ms|)), ""), ";", Join(ChainTexts(SegChains(|ms|)), ";"),
      Join(LabelTexts(Keeps(|ms|)), ""), "concat=n=", D.Digits(|ms| + 1), ":v=0:a=1", "[a]");
  }

  lemma ChainTextsConcat(g: seq<Chain>, h: seq<Chain>)
    ensures ChainTexts(g + h) == ChainTexts(g) + ChainTexts(h)
  {
    forall i | 0 <= i < |g + h|
      ensures ChainTexts(g + h)[i] == (ChainTexts(g) + ChainTexts(h))[i]
    {
      assert (g + h)[i] == if i < |g| then g[i] else h[i - |g|];
    }
  }

  lemma Regroup(a: string, b: string, marks: string, c: string, outs: string, semi: string, mid: string,
                kept: string, x: string, n: string, y: string, z: string)
    ensures (a + (b + marks + c) + outs) + semi + (mid + semi + (kept + (x + n + y) + z)) ==
            a + b + marks + c + outs + semi + mid + semi + kept + x + n + y + z
  {
    Assoc(a, b + marks, c);
    Assoc(a, b, marks);
    var first := a + b + marks + c + outs;
    var last := kept + (x + n + y) + z;
    Assoc(first + semi, mid + semi, last);
    Assoc(first + semi, mid, semi);
    var p := first + semi + mid + semi;
    Assoc(p, kept + (x + n + y), z);
    Assoc(p, kept, x + n + y);
    Assoc(p + kept, x + n, y);
    Assoc(p + kept, x, n);
  }

  // ----- running the graph

  /** A stretch of the source audio, from lo up to hi. */
  datatype Piece = Piece(lo: real, hi: real)

  /** Audio on a link: the source stretches it plays one after the other, and the timestamp
      of its first sample. */
  datatype Stream = Stream(pieces: seq<Piece>, startPts: real)

  type Links = map<Label, Stream>

  predicate Distinct(ls: seq<Label>) {
    forall i, j :: 0 <= i < j < |ls| ==> ls[i] != ls[j]
  }

  function LabelSet(ls: seq<Label>): set<Label> {
    set l | l in ls
  }

  /** The k-th boundary of asegment on audio of length len: marks past the end fall on it. */
  function Bound(marks: seq<nat>, len: real, k: nat): real
    requires k <= |marks| + 1
  {
    if k == 0 then 0.0
    else if k == |marks| + 1 then len
    else Least(Seconds(marks[k - 1]), len)
  }

  function SplitPiece(marks: seq<nat>, len: real, k: nat): Piece
    requires k <= |marks|
  {
    Piece(Bound(marks, len, k), Bound(marks, len, k + 1))
  }

  function AllPieces(ss: seq<Stream>): seq<Piece> {
    if ss == [] then [] else ss[0].pieces + AllPieces(ss[1..])
  }

  /** The streams a filter puts on its outputs, or nothing when it is wired wrongly: asegment
      has one more output than marks, and concat needs the announced number of inputs, all
      starting at timestamp zero. */
  function Process(f: Filter, ins: seq<Stream>, outs: nat): Option<seq<Stream>> {
    match f
    case Split(marks) =>
      if |ins| == 1 && outs == |marks| + 1 && |ins[0].pieces| == 1 && ins[0].pieces[0].lo == 0.0 then
        var len := ins[0].pieces[0].hi;
        Some(seq(outs, k requires 0 <= k < outs =>
               Stream([SplitPiece(marks, len, k)], SplitPiece(marks, len, k).lo)))
      else None
    case Rebase =>
      if |ins| == 1 && outs == 1 then Some([ins[0].(startPts := 0.0)]) else None
    case Sink =>
      if |ins| == 1 && outs == 0 then Some([]) else None
    case Concat(n) =>
      if |ins| == n && outs == 1 && forall s :: s in ins ==> s.startPts == 0.0 then
        Some([Stream(AllPieces(ins), 0.0)])
      else None
  }

  function Read(links: Links, ls: seq<Label>): (ss: seq<Stream>)
    requires LabelSet(ls) <= links.Keys
    ensures |ss| == |ls| && forall i :: 0 <= i < |ls| ==> ss[i] == links[ls[i]]
  {
    if ls == [] then [] else
      assert ls[0] in LabelSet(ls) && LabelSet(ls[1..]) <= LabelSet(ls);
      [links[ls[0]]] + Read(links, ls[1..])
  }

  /** Links are linear: a chain takes its inputs off the board, and may only add new names. */
  function RunChain(c: Chain, links: Links): Option<Links> {
    if LabelSet(c.inputs) <= links.Keys && Distinct(c.inputs) && Distinct(c.outputs) &&
       LabelSet(c.outputs) !! (links.Keys - LabelSet(c.inputs)) then
      match Process(c.filter, Read(links, c.inputs), |c.outputs|)
      case None => None
      case Some(outs) =>
        if |outs| == |c.outputs| then Some(Connect(links - LabelSet(c.inputs), c.outputs, outs)) else None
    else None
  }

  function Connect(links: Links, ls: seq<Label>, ss: seq<Stream>): Links
    requires |ls| == |ss|
    decreases |ls|
  {
    if ls == [] then links else Connect(links, ls[1..], ss[1..])[ls[0] := ss[0]]
  }

  /** No two chains, and no two places of one chain, share a name. */
  ghost predicate EachOnce(lists: seq<seq<Label>>) {
    && (forall i :: 0 <= i < |lists| ==> Distinct(lists[i]))
    && (forall i, j :: 0 <= i < j < |lists| ==> LabelSet(lists[i]) !! LabelSet(lists[j]))
  }

  function Produced(g: seq<Chain>): (lists: seq<seq<Label>>)
    ensures |lists| == |g| && forall i :: 0 <= i < |g| ==> lists[i] == g[i].outputs
  {
    seq(|g|, i requires 0 <= i < |g| => g[i].outputs)
  }

  function Consumed(g: seq<Chain>): (lists: seq<seq<Label>>)
    ensures |lists| == |g| && forall i :: 0 <= i < |g| ==> lists[i] == g[i].inputs
  {
    seq(|g|, i requires 0 <= i < |g| => g[i].inputs)
  }

  lemma RunChainWith(c: Chain, links: Links, ins: seq<Stream>, outs: seq<Stream>)
    requires LabelSet(c.inputs) <= links.Keys && Distinct(c.inputs) && Distinct(c.outputs)
    requires LabelSet(c.outputs) !! (links.Keys - LabelSet(c.inputs))
    requires Read(links, c.inputs) == ins && Process(c.filter, ins, |c.outputs|) == Some(outs) && |outs| == |c.outputs|
    ensures RunChain(c, links) == Some(Connect(links - LabelSet(c.inputs), c.outputs, outs))
  {
  }

  function RunGraph(g: seq<Chain>, links: Links): Option<Links> {
    if g == [] then Some(links)
    else match RunChain(g[0], links)
      case None => None
      case Some(next) => RunGraph(g[1..], next)
  }

  // ----- what the generated graph does

  /** The source with the cuts taken out, from p on. */
  function KeptPieces(p: real, ms: seq<MsCut>, len: real): seq<Piece>
    decreases |ms|
  {
    if ms == [] then [Piece(p, len)]
    else [Piece(p, Least(Seconds(ms[0].start), len))] + KeptPieces(Least(Seconds(ms[0].end), len), ms[1..], len)
  }

  lemma {:induction false} ConnectGets(links: Links, ls: seq<Label>, ss: seq<Stream>)
    requires |ls| == |ss| && Distinct(ls)
    ensures Connect(links, ls, ss).Keys == links.Keys + LabelSet(ls)
    ensures forall i :: 0 <= i < |ls| ==> Connect(links, ls, ss)[ls[i]] == ss[i]
    ensures forall l :: l in links && l !in ls ==> Connect(links, ls, ss)[l] == links[l]
    decreases |ls|
  {
    if ls != [] {
      ConnectGets(links, ls[1..], ss[1..]);
      assert LabelSet(ls) == {ls[0]} + LabelSet(ls[1..]);
      forall i | 1 <= i < |ls|
        ensures Connect(links, ls, ss)[ls[i]] == ss[i]
      {
        assert ls[1..][i - 1] == ls[i] && ls[i] != ls[0];
      }
    }
  }

  /** The names in use after the split and the first k segment chains. */
  function BoardLabels(n: nat, k: nat): set<Label> {
    (set i: nat | k <= i < 2 * n + 1 :: Seg(i)) + (set i: nat | i < k && i % 2 == 0 :: Keep(i))
  }

  predicate Board(ms: seq<MsCut>, len: real, k: nat, links: Links)
    requires k <= 2 * |ms| + 1
  {
    && links.Keys == BoardLabels(|ms|, k)
    && (forall i: nat :: k <= i < 2 * |ms| + 1 ==>
          links[Seg(i)] == Stream([SplitPiece(Marks(ms), len, i)], SplitPiece(Marks(ms), len, i).lo))
    && (forall i: nat :: i < k && i % 2 == 0 ==> links[Keep(i)] == Stream([SplitPiece(Marks(ms), len, i)], 0.0))
  }

  lemma SplitStep(ms: seq<MsCut>, len: real) returns (links: Links)
    ensures RunChain(Graph(ms)[0], map[SourceAudio := Stream([Piece(0.0, len)], 0.0)]) == Some(links)
    ensures Board(ms, len, 0, links)
  {
    var marks, n := Marks(ms), 2 * |ms| + 1;
    var start: Links := map[SourceAudio := Stream([Piece(0.0, len)], 0.0)];
    var c := Graph(ms)[0];
    assert LabelSet(c.inputs) == {SourceAudio};
    assert Read(start, c.inputs) == [start[SourceAudio]];
    var outs := seq(n, k requires 0 <= k < n => Stream([SplitPiece(marks, len, k)], SplitPiece(marks, len, k).lo));
    assert Process(c.filter, [start[SourceAudio]], n) == Some(outs);
    RunChainWith(c, start, [start[SourceAudio]], outs);
    links := Connect(start - {SourceAudio}, Segs(|ms|), outs);
    ConnectGets(start - {SourceAudio}, Segs(|ms|), outs);
    assert LabelSet(Segs(|ms|)) == BoardLabels(|ms|, 0) by {
      forall i: nat | i < n ensures Seg(i) in LabelSet(Segs(|ms|)) { assert Segs(|ms|)[i] == Seg(i); }
    }
    forall i: nat | i < n ensures links[Seg(i)] == outs[i] {
      assert Segs(|ms|)[i] == Seg(i) && Seg(i) in LabelSet(Segs(|ms|));
    }
  }

  lemma LabelsStep(n: nat, k: nat)
    requires k < 2 * n + 1
    ensures Seg(k) in BoardLabels(n, k) && Keep(k) !in BoardLabels(n, k)
    ensures BoardLabels(n, k + 1) == BoardLabels(n, k) - {Seg(k)} + if k % 2 == 0 then {Keep(k)} else {}
  {
  }

  lemma KeepRuns(k: nat, links: Links) returns (next: Links)
    requires k % 2 == 0 && Seg(k) in links && Keep(k) !in links
    ensures next == (links - {Seg(k)})[Keep(k) := links[Seg(k)].(startPts := 0.0)]
    ensures RunChain(SegChain(k), links) == Some(next)
  {
    hide RunChain, Connect, LabelSet;
    SetsOfOne(k);
    var s := links[Seg(k)];
    var rebased := s.(startPts := 0.0);
    assert Read(links, [Seg(k)]) == [s];
    RunChainWith(SegChain(k), links, [s], [rebased]);
    ConnectOne(links - {Seg(k)}, Keep(k), rebased);
    next := Connect(links - {Seg(k)}, [Keep(k)], [rebased]);
  }

  lemma DropRuns(k: nat, links: Links) returns (next: Links)
    requires k % 2 != 0 && Seg(k) in links
    ensures next == links - {Seg(k)} && RunChain(SegChain(k), links) == Some(next)
  {
    hide RunChain, LabelSet;
    SetsOfOne(k);
    var s := links[Seg(k)];
    assert Read(links, [Seg(k)]) == [s];
    RunChainWith(SegChain(k), links, [s], []);
    next := links - {Seg(k)};
  }

  lemma KeepStep(ms: seq<MsCut>, len: real, k: nat, links: Links) returns (next: Links)
    requires k < 2 * |ms| + 1 && k % 2 == 0 && Board(ms, len, k, links)
    ensures RunChain(SegChain(k), links) == Some(next)
    ensures Board(ms, len, k + 1, next)
  {
    hide RunChain, SplitPiece, SegChain, Marks;
    LabelsStep(|ms|, k);
    next := KeepRuns(k, links);
  }

  lemma SetsOfOne(k: nat)
    ensures LabelSet([Seg(k)]) == {Seg(k)} && LabelSet([Keep(k)]) == {Keep(k)} && LabelSet([]) == {}
  {
  }

  lemma ConnectOne(links: Links, l: Label, s: Stream)
    ensures Connect(links, [l], [s]) == links[l := s]
  {
    assert [l][1..] == [] && [s][1..] == [];
  }

  lemma DropStep(ms: seq<MsCut>, len: real, k: nat, links: Links) returns (next: Links)
    requires k < 2 * |ms| + 1 && k % 2 != 0 && Board(ms, len, k, links)
    ensures RunChain(SegChain(k), links) == Some(next)
    ensures Board(ms, len, k + 1, next)
  {
    hide RunChain, SplitPiece, SegChain, Marks;
    LabelsStep(|ms|, k);
    next := DropRuns(k, links);
  }

  lemma {:induction false} SegSteps(ms: seq<MsCut>, len: real, k: nat, links: Links) returns (board: Links)
    requires k <= 2 * |ms| + 1 && Board(ms, len, k, links)
    ensures Board(ms, len, 2 * |ms| + 1, board)
    ensures RunGraph(Graph(ms)[k + 1..], links) == RunGraph(Graph(ms)[2 * |ms| + 2..], board)
    decreases 2 * |ms| + 1 - k
  {
    if k == 2 * |ms| + 1 {
      board := links;
    } else {
      var rest := Graph(ms)[k + 1..];
      assert rest[0] == SegChain(k) && rest[1..] == Graph(ms)[k + 2..];
      var next: Links;
      if k % 2 == 0 {
        next := KeepStep(ms, len, k, links);
      } else {
        next := DropStep(ms, len, k, links);
      }
      board := SegSteps(ms, len, k + 1, next);
    }
  }

  lemma {:induction false} EvenPieces(ms: seq<MsCut>, len: real, j: nat, ss: seq<Stream>)
    requires j <= |ms| && |ss| == |ms| + 1 - j
    requires forall i :: 0 <= i < |ss| ==> ss[i].pieces == [SplitPiece(Marks(ms), len, 2 * (i + j))]
    ensures AllPieces(ss) == KeptPieces(Bound(Marks(ms), len, 2 * j), ms[j..], len)
    decreases |ss|
  {
    var marks := Marks(ms);
    if j == |ms| {
      assert ss[1..] == [] && AllPieces(ss[1..]) == [];
      assert ms[j..] == [];
    } else {
      EvenPieces(ms, len, j + 1, ss[1..]);
      assert ms[j..][1..] == ms[j + 1..];
      assert Bound(marks, len, 2 * j + 1) == Least(Seconds(ms[j].start), len) by { assert marks[2 * j] == ms[j].start; }
      assert Bound(marks, len, 2 * j + 2) == Least(Seconds(ms[j].end), len) by { assert marks[2 * j + 1] == ms[j].end; }
    }
  }

  lemma KeepsLabels(n: nat)
    ensures LabelSet(Keeps(n)) == BoardLabels(n, 2 * n + 1)
  {
    forall l | l in BoardLabels(n, 2 * n + 1) ensures l in LabelSet(Keeps(n)) {
      assert Keeps(n)[l.i / 2] == l;
    }
    forall l | l in LabelSet(Keeps(n)) ensures l in BoardLabels(n, 2 * n + 1) {
      var j :| 0 <= j < |Keeps(n)| && Keeps(n)[j] == l;
    }
  }

  /** What the board holds for the j-th kept link. */
  lemma KeptLink(ms: seq<MsCut>, len: real, board: Links, j: nat)
    requires Board(ms, len, 2 * |ms| + 1, board) && j < |ms| + 1
    ensures Keeps(|ms|)[j] == Keep(2 * j) && Keep(2 * j) in board.Keys
    ensures board[Keep(2 * j)] == Stream([SplitPiece(Marks(ms), len, 2 * j)], 0.0)
  {
    hide SplitPiece;
    var i := 2 * j;
    assert i < 2 * |ms| + 1 && i % 2 == 0;
  }

  lemma BoardFinal(ms: seq<MsCut>, len: real, board: Links)
    requires Board(ms, len, 2 * |ms| + 1, board)
    ensures LabelSet(Keeps(|ms|)) == board.Keys
  {
    hide SplitPiece, BoardLabels, LabelSet, Keeps;
    KeepsLabels(|ms|);
  }

  lemma KeptStreams(ms: seq<MsCut>, len: real, board: Links) returns (ins: seq<Stream>)
    requires Board(ms, len, 2 * |ms| + 1, board)
    ensures LabelSet(Keeps(|ms|)) == board.Keys && Read(board, Keeps(|ms|)) == ins
    ensures |ins| == |ms| + 1 && forall s :: s in ins ==> s.startPts == 0.0
    ensures AllPieces(ins) == KeptPieces(0.0, ms, len)
  {
    hide SplitPiece, KeptPieces, AllPieces, Board, LabelSet;
    BoardFinal(ms, len, board);
    ins := Read(board, Keeps(|ms|));
    forall j | 0 <= j < |ms| + 1
      ensures ins[j] == Stream([SplitPiece(Marks(ms), len, 2 * j)], 0.0)
    {
      KeptLink(ms, len, board, j);
    }
    EvenPieces(ms, len, 0, ins);
    assert ms[0..] == ms;
  }

  lemma ConcatStep(ms: seq<MsCut>, len: real, board: Links)
    requires Board(ms, len, 2 * |ms| + 1, board)
    ensures RunChain(LastChain(ms), board) == Some(map[Out := Stream(KeptPieces(0.0, ms, len), 0.0)])
  {
    var ins := KeptStreams(ms, len, board);
    var out := Stream(KeptPieces(0.0, ms, len), 0.0);
    assert Process(Concat(|ms| + 1), ins, 1) == Some([out]);
    KeepsDistinct(|ms|);
    RunChainWith(LastChain(ms), board, ins, [out]);
    assert board - LabelSet(Keeps(|ms|)) == map[];
    assert Connect(map[], [Out], [out]) == map[Out := out];
  }

  lemma KeepsDistinct(n: nat)
    ensures Distinct(Keeps(n))
  {
  }

  lemma ChainAt(ms: seq<MsCut>, i: nat)
    requires i < |Graph(ms)|
    ensures |Graph(ms)| == 2 * |ms| + 3
    ensures Graph(ms)[i] ==
            if i == 0 then FirstChain(ms) else if i <= 2 * |ms| + 1 then SegChain(i - 1) else LastChain(ms)
  {
  }

  /** Every link of the graph is the output of one chain and the input of one. */
  lemma LinksUsedOnce(ms: seq<MsCut>)
    ensures EachOnce(Produced(Graph(ms))) && EachOnce(Consumed(Graph(ms)))
  {
    hide Graph;
    var g := Graph(ms);
    KeepsDistinct(|ms|);
    forall i | 0 <= i < |g|
      ensures Distinct(g[i].outputs) && Distinct(g[i].inputs)
    {
      ChainAt(ms, i);
    }
    forall i, j | 0 <= i < j < |g|
      ensures LabelSet(g[i].outputs) !! LabelSet(g[j].outputs)
      ensures LabelSet(g[i].inputs) !! LabelSet(g[j].inputs)
    {
      ChainAt(ms, i);
      ChainAt(ms, j);
    }
  }

  /** Run on audio of any length, the generated graph produces and consumes every link exactly
      once, leaves only [a], and puts on it the source with exactly the cuts taken out, from zero. */
  lemma GraphDeletesCuts(ms: seq<MsCut>, len: real)
    ensures EachOnce(Produced(Graph(ms))) && EachOnce(Consumed(Graph(ms)))
    ensures RunGraph(Graph(ms), map[SourceAudio := Stream([Piece(0.0, len)], 0.0)]) ==
            Some(map[Out := Stream(KeptPieces(0.0, ms, len), 0.0)])
  {
    hide RunChain, Board, KeptPieces, EachOnce;
    LinksUsedOnce(ms);
    var n := |ms|;
    var links := SplitStep(ms, len);
    var board := SegSteps(ms, len, 0, links);
    ConcatStep(ms, len, board);
    var rest := Graph(ms)[2 * n + 2..];
    assert rest == [LastChain(ms)] && rest[1..] == [];
  }

  // ----- sound and picture

  /** Where a stream plays the source sample of time t, if it plays it at all. */
  function PlayTime(pieces: seq<Piece>, t: real): Option<real> {
    if pieces == [] then None
    else if pieces[0].lo <= t < pieces[0].hi then Some(t - pieces[0].lo)
    else
      match PlayTime(pieces[1..], t)
      case None => None
      case Some(p) => Some((pieces[0].hi - pieces[0].lo) + p)
  }

  ghost predicate InHalfOpenCut(ms: seq<MsCut>, t: real) {
    exists i :: 0 <= i < |ms| && Seconds(ms[i].start) <= t < Seconds(ms[i].end)
  }

  lemma HalfOpenTail(ms: seq<MsCut>, t: real)
    requires ms != []
    ensures InHalfOpenCut(ms, t) <==> (Seconds(ms[0].start) <= t < Seconds(ms[0].end)) || InHalfOpenCut(ms[1..], t)
  {
    if InHalfOpenCut(ms[1..], t) {
      var i :| 0 <= i < |ms[1..]| && Seconds(ms[1..][i].start) <= t < Seconds(ms[1..][i].end);
      assert ms[i + 1] == ms[1..][i];
    }
    if InHalfOpenCut(ms, t) && !(Seconds(ms[0].start) <= t < Seconds(ms[0].end)) {
      var i :| 0 <= i < |ms| && Seconds(ms[i].start) <= t < Seconds(ms[i].end);
      assert ms[1..][i - 1] == ms[i];
    }
  }

  /** A sample before the point where the pieces start is not in them. */
  lemma {:induction false} NotYetPlayed(p: real, ms: seq<MsCut>, len: real, t: real)
    requires Ordered(ms) && V.StartsAfter(ms, p) && t < p
    ensures PlayTime(KeptPieces(Least(p, len), ms, len), t) == None || t >= len
    decreases |ms|
  {
    if ms != [] && t < len {
      V.CutOrder(ms);
      NotYetPlayed(Seconds(ms[0].end), ms[1..], len, t);
    }
  }

  lemma {:induction false} PlayedIffOutside(p: real, ms: seq<MsCut>, len: real, t: real)
    requires Ordered(ms) && V.StartsAfter(ms, p) && p <= t < len
    ensures PlayTime(KeptPieces(p, ms, len), t).Some? <==> !InHalfOpenCut(ms, t)
    ensures !InHalfOpenCut(ms, t) ==> PlayTime(KeptPieces(p, ms, len), t) == Some(t - p - V.RemovedBefore(ms, t))
    decreases |ms|
  {
    if ms != [] {
      V.CutOrder(ms);
      HalfOpenTail(ms, t);
      var s, e := Seconds(ms[0].start), Seconds(ms[0].end);
      if t < s {
        forall i | 0 <= i < |ms[1..]| ensures t < Seconds(ms[1..][i].end) { assert s <= e <= Seconds(ms[1..][i].end); }
        V.NothingYet(ms[1..], t);
        assert !InHalfOpenCut(ms[1..], t);
      } else if t < e {
        NotYetPlayed(e, ms[1..], len, t);
      } else {
        PlayedIffOutside(e, ms[1..], len, t);
        assert Least(s, len) == s && Least(e, len) == e;
      }
    }
  }

  /** The audio of time t survives exactly when t is in no cut, the end of a cut excluded. */
  lemma AudioKeepsOutside(ms: seq<MsCut>, len: real, t: real)
    requires Ordered(ms) && 0.0 <= t < len
    ensures PlayTime(KeptPieces(0.0, ms, len), t).Some? <==> !InHalfOpenCut(ms, t)
  {
    PlayedIffOutside(0.0, ms, len, t);
  }

  /** What is heard of time t comes after the kept part before t, also at the very end of a cut. */
  lemma HeardAtKeptTime(ms: seq<MsCut>, len: real, t: real)
    requires Ordered(ms) && 0.0 <= t < len
    ensures PlayTime(KeptPieces(0.0, ms, len), t) ==
            if InHalfOpenCut(ms, t) then None else Some(V.KeptMeasure(0.0, ms, t))
  {
    PlayedIffOutside(0.0, ms, len, t);
    if !InHalfOpenCut(ms, t) {
      MeasureOutside(0.0, ms, t);
    }
  }

  lemma {:induction false} MeasureOutside(p: real, ms: seq<MsCut>, t: real)
    requires Ordered(ms) && V.StartsAfter(ms, p) && p <= t && !InHalfOpenCut(ms, t)
    ensures V.KeptMeasure(p, ms, t) == (t - p) - V.RemovedBefore(ms, t)
    decreases |ms|
  {
    if ms != [] {
      V.CutOrder(ms);
      HalfOpenTail(ms, t);
      if t < Seconds(ms[0].start) {
        V.NothingKeptYet(Seconds(ms[0].end), ms[1..], t);
        V.NothingYet(ms, t);
      } else {
        MeasureOutside(Seconds(ms[0].end), ms[1..], t);
      }
    }
  }

  /** Sound and picture stay in step: a frame that select keeps and the sample of the same
      source time get the same time in the output, for any number of cuts, touching, at the
      very start, or rounded to nothing. */
  lemma SoundFollowsPicture(ms: seq<MsCut>, len: real, t: real)
    requires Ordered(ms) && 0.0 <= t < len && !V.InCut(ms, t)
    ensures PlayTime(KeptPieces(0.0, ms, len), t) == Some(V.VideoTime(ms, t))
  {
    PlayedIffOutside(0.0, ms, len, t);
  }

  function TotalLength(pieces: seq<Piece>): real {
    if pieces == [] then 0.0 else (pieces[0].hi - pieces[0].lo) + TotalLength(pieces[1..])
  }

  /** The pieces are as long as the kept part of the source. */
  lemma {:induction false} PiecesMeasure(p: real, ms: seq<MsCut>, len: real)
    requires Ordered(ms) && V.StartsAfter(ms, p) && p <= len
    ensures TotalLength(KeptPieces(p, ms, len)) == V.KeptMeasure(p, ms, len)
    decreases |ms|
  {
    if ms == [] {
      var only := KeptPieces(p, ms, len);
      assert only[1..] == [];
    } else {
      V.CutOrder(ms);
      var end := Seconds(ms[0].end);
      PiecesMeasure(Least(end, len), ms[1..], len);
      if end > len {
        V.NothingKeptYet(end, ms[1..], len);
        V.NothingKeptYet(len, ms[1..], len);
      }
    }
  }

  /** The edited audio is as long as the kept part of the source, wherever the source ends; that
      is the source less the printed cuts when these all end within it. */
  lemma KeptLength(ms: seq<MsCut>, len: real)
    requires Ordered(ms) && 0.0 <= len
    ensures TotalLength(KeptPieces(0.0, ms, len)) == V.KeptMeasure(0.0, ms, len)
    ensures (forall i :: 0 <= i < |ms| ==> Seconds(ms[i].end) <= len) ==>
              TotalLength(KeptPieces(0.0, ms, len)) == len - Seconds(RemovedMs(ms))
  {
    PiecesMeasure(0.0, ms, len);
    if forall i :: 0 <= i < |ms| ==> Seconds(ms[i].end) <= len {
      KeptLengthFrom(0.0, ms, len);
    }
  }

  lemma {:induction false} KeptLengthFrom(p: real, ms: seq<MsCut>, len: real)
    requires forall i :: 0 <= i < |ms| ==> Seconds(ms[i].end) <= len && ms[i].start <= ms[i].end
    ensures TotalLength(KeptPieces(p, ms, len)) == (len - p) - Seconds(RemovedMs(ms))
    decreases |ms|
  {
    if ms != [] {
      KeptLengthFrom(Seconds(ms[0].end), ms[1..], len);
      assert Least(Seconds(ms[0].end), len) == Seconds(ms[0].end);
    } else {
      var only := KeptPieces(p, ms, len);
      assert only[1..] == [];
    }
  }
}
