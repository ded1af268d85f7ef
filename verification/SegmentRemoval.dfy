/** The whole filter_complex argument of a remove-segments job: how it is put together, how it
    reads back, and that the edit it describes is the one the request asked for. */
module SegmentRemoval {
  import opened Bounds
  import opened Options
  import opened Text
  import opened FilterExpr
  import opened Cuts
  import opened AudioGraph
  import AudioText
  import D = Decimal
  import B = BalancedSum
  import R = VideoReader
  import V = VideoFilter

  function FilterComplex(ms: seq<MsCut>, audioPresent: bool): string {
    if audioPresent then V.VideoText(ms) + ";" + GraphText(Graph(ms)) else V.VideoText(ms)
  }

  method BuildFilterComplex(cuts: seq<Cut>, audioPresent: bool) returns (text: string)
    requires NonNegative(cuts)
    ensures text == FilterComplex(Printed(cuts), audioPresent)
  {
    text := V.BuildVideoFilter(cuts);
    if audioPresent {
      var audio := BuildSegmentAudioFilter(cuts);
      text := text + ";" + audio;
    }
  }

  // ----- reading it back

  /** The chain for the picture, and the graph for the sound if there is any. */
  datatype Edit = Edit(video: R.Chain, audio: Option<seq<Chain>>)

  function ReadEdit(s: string): Option<Edit> {
    var semi := IndexOf(s, ';');
    match R.ReadChain(s[..semi])
    case None => None
    case Some(video) =>
      if semi == |s| then Some(Edit(video, None))
      else match AudioText.ReadGraph(s[semi + 1..])
        case None => None
        case Some(g) => Some(Edit(video, Some(g)))
  }

  predicate Avoids(s: string, c: char) {
    c !in s
  }

  /** Neither quotes nor semicolons nor brackets occur in the printed expressions. */
  predicate Mark(c: char) {
    c == '\'' || c == ';' || c == '[' || c == ']'
  }

  lemma AvoidsConcat(a: string, b: string, c: char)
    requires Avoids(a, c) && Avoids(b, c)
    ensures Avoids(a + b, c)
  {
  }

  lemma LiteralAvoids(ms: nat, c: char)
    requires Mark(c)
    ensures Avoids(Literal(ms), c)
  {
    AudioText.MilliRead(ms);
  }

  lemma BetweenAvoids(cut: MsCut, c: char)
    requires Mark(c)
    ensures Avoids(V.Between(cut), c)
  {
    hide Literal;
    LiteralAvoids(cut.start, c);
    LiteralAvoids(cut.end, c);
    assert V.Between(cut) == "between(t," + Literal(cut.start) + "," + Literal(cut.end) + ")";
  }

  lemma ElapsedAvoids(cut: MsCut, c: char)
    requires Mark(c)
    ensures Avoids(V.Elapsed(cut), c)
  {
    hide Literal;
    LiteralAvoids(cut.start, c);
    LiteralAvoids(cut.end, c);
    var s, e := Literal(cut.start), Literal(cut.end);
    AvoidsConcat("gte(T," + e, ")*(" + e + "-" + s + ")", c);
    assert V.Elapsed(cut) == ("gte(T," + e) + (")*(" + e + "-" + s + ")");
  }

  lemma {:induction false} BalancedAvoids(parts: seq<string>, c: char)
    requires Mark(c) && forall i :: 0 <= i < |parts| ==> Avoids(parts[i], c)
    ensures Avoids(B.Balanced(parts), c)
    decreases |parts|
  {
    if |parts| >= 2 {
      var mid := |parts| / 2;
      BalancedAvoids(parts[..mid], c);
      BalancedAvoids(parts[mid..], c);
    }
  }

  lemma ExpressionsAvoid(ms: seq<MsCut>, c: char)
    requires Mark(c)
    ensures Avoids(V.SelectText(ms), c) && Avoids(V.ShiftText(ms), c)
  {
    hide V.Between, V.Elapsed, B.Balanced;
    forall i | 0 <= i < |ms|
      ensures Avoids(V.Betweens(ms)[i], c) && Avoids(V.Elapseds(ms)[i], c)
    {
      BetweenAvoids(ms[i], c);
      ElapsedAvoids(ms[i], c);
    }
    BalancedAvoids(V.Betweens(ms), c);
    BalancedAvoids(V.Elapseds(ms), c);
  }

  /** The chain the text is meant to be. */
  function MeantFilters(ms: seq<MsCut>): seq<R.Filter> {
    [R.SetPts(Sub(Ident("PTS"), Ident("STARTPTS"))),
     R.Select(V.SelectExpr(ms)),
     R.SetPts(V.ShiftExpr(ms)),
     R.Fps(60),
     R.Scale(Call("min", [Num(1920.0), Ident("iw")]), Call("min", [Num(1080.0), Ident("ih")]),
             ["force_original_aspect_ratio=decrease", "force_divisible_by=2"])]
  }

  // The parts of the chain.

  const REBASE := V.Setting("setpts", "PTS-STARTPTS")

  function SelectPart(ms: seq<MsCut>): string {
    V.Setting("select", V.Quoted(V.SelectText(ms)))
  }

  function ShiftPart(ms: seq<MsCut>): string {
    V.Setting("setpts", V.Quoted(V.ShiftText(ms)))
  }

  const RATE := V.Setting("fps", "60")
  const SCALING := V.Setting("scale", V.Size())

  lemma SettingWhole(name: string, value: string, sep: char)
    requires '\'' !in name && sep !in name && sep != '\'' && sep != '=' && R.Whole(value, sep)
    ensures R.Whole(V.Setting(name, value), sep)
  {
    hide R.Whole;
    R.WholePlain(name + "=", sep);
    R.WholeConcat(name + "=", value, sep);
  }

  lemma NamesAvoid(c: char)
    requires c in "',:;[]"
    ensures Avoids("setpts", c) && Avoids("select", c) && Avoids("scale", c) && Avoids("fps", c) && Avoids("60", c)
    ensures Avoids("PTS-STARTPTS", c)
  {
  }

  lemma RatioAvoids(c: char)
    requires c in "',:;[]"
    ensures Avoids(V.RATIO, c)
  {
    assert Avoids(V.KEEP, c) by { KeepAvoids(c); }
    assert Avoids("ratio=decrease", c);
    hide Avoids;
    AvoidsConcat(V.KEEP, "ratio=decrease", c);
  }

  lemma KeepAvoids(c: char)
    requires c in "',:;[]"
    ensures Avoids(V.KEEP, c)
  {
  }

  lemma EvenAvoids(c: char)
    requires c in "',:;[]"
    ensures Avoids(V.EVEN, c)
  {
  }

  lemma OptionsAvoid(c: char)
    requires c in "',:;[]"
    ensures Avoids(V.RATIO, c) && Avoids(V.EVEN, c)
  {
    hide Avoids;
    RatioAvoids(c);
    EvenAvoids(c);
  }

  lemma LimitsAvoid(c: char)
    requires Mark(c)
    ensures Avoids(V.WIDTH, c) && Avoids(V.HEIGHT, c)
  {
  }

  lemma QuotedWhole(text: string, sep: char)
    requires Avoids(text, '\'') && sep != '\''
    ensures R.Whole(V.Quoted(text), sep)
  {
    R.WholeQuoted(text, sep);
  }

  lemma SizeWhole()
    ensures R.Whole(V.Size(), ',')
  {
    hide R.Whole, V.Quoted;
    LimitsAvoid('\'');
    OptionsAvoid('\'');
    OptionsAvoid(',');
    QuotedWhole(V.WIDTH, ',');
    QuotedWhole(V.HEIGHT, ',');
    R.WholePlain(":", ',');
    R.WholePlain(V.RATIO, ',');
    R.WholePlain(V.EVEN, ',');
    var w, h := V.Quoted(V.WIDTH), V.Quoted(V.HEIGHT);
    R.WholeConcat(V.RATIO, ":", ',');
    R.WholeConcat(V.RATIO + ":", V.EVEN, ',');
    R.WholeConcat(h, ":", ',');
    R.WholeConcat(h + ":", V.RATIO + ":" + V.EVEN, ',');
    R.WholeConcat(w, ":", ',');
    R.WholeConcat(w + ":", h + ":" + (V.RATIO + ":" + V.EVEN), ',');
  }

  lemma FixedWhole()
    ensures R.Whole(REBASE, ',') && R.Whole(RATE, ',') && R.Whole(SCALING, ',')
  {
    hide R.Whole, V.Setting, V.Size;
    NamesAvoid('\'');
    NamesAvoid(',');
    R.WholePlain("PTS-STARTPTS", ',');
    R.WholePlain("60", ',');
    SizeWhole();
    SettingWhole("setpts", "PTS-STARTPTS", ',');
    SettingWhole("fps", "60", ',');
    SettingWhole("scale", V.Size(), ',');
  }

  lemma CutsWhole(ms: seq<MsCut>)
    ensures R.Whole(SelectPart(ms), ',') && R.Whole(ShiftPart(ms), ',')
  {
    hide R.Whole, V.Setting, V.Quoted, V.SelectText, V.ShiftText;
    ExpressionsAvoid(ms, '\'');
    NamesAvoid('\'');
    NamesAvoid(',');
    QuotedWhole(V.SelectText(ms), ',');
    QuotedWhole(V.ShiftText(ms), ',');
    SettingWhole("select", V.Quoted(V.SelectText(ms)), ',');
    SettingWhole("setpts", V.Quoted(V.ShiftText(ms)), ',');
  }

  function Body(ms: seq<MsCut>): string {
    V.Filters(V.SelectText(ms), V.ShiftText(ms))
  }

  lemma BodySplit(ms: seq<MsCut>)
    ensures R.SplitOutside(Body(ms), ',') == [REBASE, SelectPart(ms), ShiftPart(ms), RATE, SCALING]
  {
    hide R.Whole, R.SplitOutside, V.SelectText, V.ShiftText, V.Setting, V.Quoted, V.Size;
    FixedWhole();
    CutsWhole(ms);
    var s4 := RATE + "," + SCALING;
    var s3 := ShiftPart(ms) + "," + s4;
    var s2 := SelectPart(ms) + "," + s3;
    assert V.Ending() == s4 && Body(ms) == REBASE + "," + s2;
    R.SplitOutsideCons(REBASE, ',', s2);
    R.SplitOutsideCons(SelectPart(ms), ',', s3);
    R.SplitOutsideCons(ShiftPart(ms), ',', s4);
    R.SplitOutsideCons(RATE, ',', SCALING);
    R.SplitOutsideWhole(SCALING, ',');
    assert [REBASE] + ([SelectPart(ms)] + ([ShiftPart(ms)] + ([RATE] + [SCALING]))) ==
           [REBASE, SelectPart(ms), ShiftPart(ms), RATE, SCALING];
  }

  // The filters they are read as.

  lemma NamesHaveNoEquals()
    ensures Avoids("setpts", '=') && Avoids("select", '=') && Avoids("scale", '=') && Avoids("fps", '=')
  {
  }

  lemma RebaseParses()
    ensures Parse("PTS-STARTPTS") == Some(Sub(Ident("PTS"), Ident("STARTPTS")))
  {
    hide IsSum, IsTerm, IsFactor, Parse;
    IdentIsFactor("PTS");
    IdentIsFactor("STARTPTS");
    V.OperandIsSum("PTS", Ident("PTS"));
    FactorIsTerm("STARTPTS", Ident("STARTPTS"));
    SubIsSum("PTS", Ident("PTS"), "STARTPTS", Ident("STARTPTS"));
    SumParses("PTS" + "-" + "STARTPTS", Sub(Ident("PTS"), Ident("STARTPTS")));
    assert "PTS" + "-" + "STARTPTS" == "PTS-STARTPTS";
  }

  lemma RebaseRead()
    ensures R.ReadFilter(REBASE) == Some(R.SetPts(Sub(Ident("PTS"), Ident("STARTPTS"))))
  {
    hide Parse, R.ReadFilter;
    NamesHaveNoEquals();
    NamesAvoid('\'');
    RebaseParses();
    R.NamedRead("setpts", "PTS-STARTPTS");
  }

  lemma CutsRead(ms: seq<MsCut>)
    ensures R.ReadFilter(SelectPart(ms)) == Some(R.Select(V.SelectExpr(ms)))
    ensures R.ReadFilter(ShiftPart(ms)) == Some(R.SetPts(V.ShiftExpr(ms)))
  {
    hide V.SelectText, V.ShiftText, V.SelectExpr, V.ShiftExpr, Parse, R.ReadExpr, R.ReadFilter;
    ExpressionsAvoid(ms, '\'');
    V.SplicedAsIntended(ms);
    NamesHaveNoEquals();
    R.QuotedRead(V.SelectText(ms));
    R.QuotedRead(V.ShiftText(ms));
    R.NamedRead("select", V.Quoted(V.SelectText(ms)));
    R.NamedRead("setpts", V.Quoted(V.ShiftText(ms)));
  }

  lemma RateRead()
    ensures R.ReadFilter(RATE) == Some(R.Fps(60))
  {
    hide AudioText.ReadNat, R.ReadFilter;
    NamesHaveNoEquals();
    R.NamedRead("fps", "60");
    SixtyRead();
  }

  lemma SixtyRead()
    ensures AudioText.ReadNat("60") == Some(60)
  {
    AudioText.DigitsRead(60);
    assert D.Digits(60) == D.Digits(6) + [D.DigitChar(0)] == "60";
  }

  lemma LimitsRead()
    ensures Parse(V.WIDTH) == Some(Call("min", [Num(1920.0), Ident("iw")]))
    ensures Parse(V.HEIGHT) == Some(Call("min", [Num(1080.0), Ident("ih")]))
  {
    hide Parse;
    SizeDigits();
    R.LimitRead(1920, "iw", V.WIDTH);
    R.LimitRead(1080, "ih", V.HEIGHT);
  }

  lemma SizeDigits()
    ensures V.WIDTH == "min(" + D.Digits(1920) + "," + "iw" + ")"
    ensures V.HEIGHT == "min(" + D.Digits(1080) + "," + "ih" + ")"
  {
    SizeNumbers();
    hide D.Digits;
  }

  lemma SizeNumbers()
    ensures D.Digits(1920) == "1920" && D.Digits(1080) == "1080"
  {
    assert D.Digits(19) == D.Digits(1) + [D.DigitChar(9)] == "19";
    assert D.Digits(192) == D.Digits(19) + [D.DigitChar(2)] == "192";
    assert D.Digits(1920) == D.Digits(192) + [D.DigitChar(0)] == "1920";
    assert D.Digits(10) == D.Digits(1) + [D.DigitChar(0)] == "10";
    assert D.Digits(108) == D.Digits(10) + [D.DigitChar(8)] == "108";
    assert D.Digits(1080) == D.Digits(108) + [D.DigitChar(0)] == "1080";
  }

  lemma SizeSplit()
    ensures R.SplitOutside(V.Size(), ':') == [V.Quoted(V.WIDTH), V.Quoted(V.HEIGHT), V.RATIO, V.EVEN]
  {
    hide R.Whole, R.SplitOutside, V.Quoted;
    LimitsAvoid('\'');
    OptionsAvoid('\'');
    OptionsAvoid(':');
    var w, h := V.Quoted(V.WIDTH), V.Quoted(V.HEIGHT);
    QuotedWhole(V.WIDTH, ':');
    QuotedWhole(V.HEIGHT, ':');
    R.WholePlain(V.RATIO, ':');
    R.WholePlain(V.EVEN, ':');
    R.SplitOutsideCons(w, ':', h + ":" + (V.RATIO + ":" + V.EVEN));
    R.SplitOutsideCons(h, ':', V.RATIO + ":" + V.EVEN);
    R.SplitOutsideCons(V.RATIO, ':', V.EVEN);
    R.SplitOutsideWhole(V.EVEN, ':');
    assert [w] + ([h] + ([V.RATIO] + [V.EVEN])) == [w, h, V.RATIO, V.EVEN];
  }

  lemma RatioText()
    ensures V.RATIO == "force_original_aspect_ratio=decrease"
  {
    assert "force_original_aspect_" + "ratio=decrease" == "force_original_aspect_ratio=decrease";
  }

  lemma ScalingRead()
    ensures R.ReadFilter(SCALING) ==
            Some(R.Scale(Call("min", [Num(1920.0), Ident("iw")]), Call("min", [Num(1080.0), Ident("ih")]),
                         ["force_original_aspect_ratio=decrease", "force_divisible_by=2"]))
  {
    hide R.SplitOutside, R.ReadExpr, Parse, R.ReadFilter, V.Size;
    LimitsAvoid('\'');
    LimitsRead();
    R.QuotedRead(V.WIDTH);
    R.QuotedRead(V.HEIGHT);
    SizeSplit();
    NamesHaveNoEquals();
    R.NamedRead("scale", V.Size());
    var parts := R.SplitOutside(V.Size(), ':');
    RatioText();
    assert parts[2..] == [V.RATIO, V.EVEN];
    assert parts[2..] == ["force_original_aspect_ratio=decrease", "force_divisible_by=2"];
  }

  lemma FiltersRead(ms: seq<MsCut>)
    ensures R.ReadFilters(R.SplitOutside(Body(ms), ',')) == Some(MeantFilters(ms))
  {
    hide R.SplitOutside, R.ReadFilter, R.ReadFilters, SelectPart, ShiftPart, Body, V.SelectExpr, V.ShiftExpr, V.Setting, V.Size;
    BodySplit(ms);
    RebaseRead();
    CutsRead(ms);
    RateRead();
    ScalingRead();
    var fs := MeantFilters(ms);
    NothingRead();
    ReadOneMore(SCALING, fs[4], [], []);
    ReadOneMore(RATE, fs[3], [SCALING] + [], [fs[4]] + []);
    var p3, f3 := [RATE] + ([SCALING] + []), [fs[3]] + ([fs[4]] + []);
    ReadOneMore(ShiftPart(ms), fs[2], p3, f3);
    ReadOneMore(SelectPart(ms), fs[1], [ShiftPart(ms)] + p3, [fs[2]] + f3);
    ReadOneMore(REBASE, fs[0], [SelectPart(ms)] + ([ShiftPart(ms)] + p3), [fs[1]] + ([fs[2]] + f3));
    assert [REBASE] + ([SelectPart(ms)] + ([ShiftPart(ms)] + p3)) == R.SplitOutside(Body(ms), ',');
    assert [fs[0]] + ([fs[1]] + ([fs[2]] + f3)) == fs;
  }

  lemma NothingRead()
    ensures R.ReadFilters([]) == Some([])
  {
  }

  lemma ReadOneMore(part: string, f: R.Filter, parts: seq<string>, fs: seq<R.Filter>)
    requires R.ReadFilter(part) == Some(f) && R.ReadFilters(parts) == Some(fs)
    ensures R.ReadFilters([part] + parts) == Some([f] + fs)
  {
    hide R.ReadFilter;
    assert ([part] + parts)[1..] == parts;
  }

  // No bracket or semicolon inside.

  lemma SettingAvoids(name: string, value: string, c: char)
    requires Avoids(name, c) && Avoids(value, c) && c != '='
    ensures Avoids(V.Setting(name, value), c)
  {
  }

  lemma QuotedAvoids(text: string, c: char)
    requires Avoids(text, c) && c != '\''
    ensures Avoids(V.Quoted(text), c)
  {
  }

  lemma AvoidsJoined(a: string, b: string, sep: string, c: char)
    requires Avoids(a, c) && Avoids(b, c) && Avoids(sep, c)
    ensures Avoids(a + sep + b, c)
  {
  }

  lemma BodyAvoids(ms: seq<MsCut>, c: char)
    requires c == ';' || c == '['
    ensures Avoids(Body(ms), c)
  {
    assert Avoids(",", c) && Avoids(":", c);
    hide Avoids, V.SelectText, V.ShiftText, V.Setting, V.Quoted;
    ExpressionsAvoid(ms, c);
    NamesAvoid(c);
    OptionsAvoid(c);
    LimitsAvoid(c);
    QuotedAvoids(V.WIDTH, c);
    QuotedAvoids(V.HEIGHT, c);
    AvoidsJoined(V.RATIO, V.EVEN, ":", c);
    AvoidsJoined(V.Quoted(V.HEIGHT), V.RATIO + ":" + V.EVEN, ":", c);
    AvoidsJoined(V.Quoted(V.WIDTH), V.Quoted(V.HEIGHT) + ":" + (V.RATIO + ":" + V.EVEN), ":", c);
    SettingAvoids("scale", V.Size(), c);
    SettingAvoids("fps", "60", c);
    AvoidsJoined(RATE, SCALING, ",", c);
    QuotedAvoids(V.ShiftText(ms), c);
    SettingAvoids("setpts", V.Quoted(V.ShiftText(ms)), c);
    AvoidsJoined(ShiftPart(ms), V.Ending(), ",", c);
    QuotedAvoids(V.SelectText(ms), c);
    SettingAvoids("select", V.Quoted(V.SelectText(ms)), c);
    AvoidsJoined(SelectPart(ms), ShiftPart(ms) + "," + V.Ending(), ",", c);
    SettingAvoids("setpts", "PTS-STARTPTS", c);
    AvoidsJoined(REBASE, SelectPart(ms) + "," + (ShiftPart(ms) + "," + V.Ending()), ",", c);
  }

  /** Links in brackets around a body without brackets. */
  lemma LinksRead(body: string)
    requires '[' !in body
    ensures R.ReadChain("[0:v]" + body + "[v]") ==
            match R.ReadFilters(R.SplitOutside(body, ',')) case None => None case Some(fs) => Some(R.Chain("0:v", fs, "v"))
  {
    hide R.ReadFilters, R.SplitOutside, IndexOf;
    var s := "[0:v]" + body + "[v]";
    var rest := body + "[v]";
    assert s == "[0:v" + "]" + rest;
    IndexOfAfter("[0:v", ']', rest);
    assert s[0] == '[' && s[1..4] == "0:v" && s[5..] == rest;
    assert rest == body + "[" + "v]";
    IndexOfAfter(body, '[', "v]");
    assert rest[..|body|] == body && rest[|body| + 1..] == "v]";
    assert "v]" == "v" + "]" + "";
    IndexOfAfter("v", ']', "");
    assert "v]"[..1] == "v";
  }

  /** The chain reads back filter by filter, with its links. */
  lemma VideoRead(ms: seq<MsCut>)
    ensures R.ReadChain(V.VideoText(ms)) == Some(R.Chain("0:v", MeantFilters(ms), "v"))
    ensures Avoids(V.VideoText(ms), ';')
  {
    hide Body, V.Filters, MeantFilters, R.ReadFilters, R.SplitOutside, R.ReadChain, V.SelectText, V.ShiftText;
    var body := V.Filters(V.SelectText(ms), V.ShiftText(ms));
    assert Body(ms) == body by { BodyIs(ms); }
    FiltersRead(ms);
    BodyAvoids(ms, '[');
    BodyAvoids(ms, ';');
    LinksRead(body);
    AvoidsConcat("[0:v]", body, ';');
    AvoidsConcat("[0:v]" + body, "[v]", ';');
  }

  lemma BodyIs(ms: seq<MsCut>)
    ensures Body(ms) == V.Filters(V.SelectText(ms), V.ShiftText(ms))
  {
  }

  /** The argument reads back as the chain and the graph it was printed for. */
  lemma EditRead(ms: seq<MsCut>, audioPresent: bool)
    ensures ReadEdit(FilterComplex(ms, audioPresent)) ==
            Some(Edit(R.Chain("0:v", MeantFilters(ms), "v"), if audioPresent then Some(Graph(ms)) else None))
  {
    hide V.VideoText, MeantFilters, R.ReadChain, AudioText.ReadGraph, GraphText, Graph, IndexOf;
    var video, audio := V.VideoText(ms), GraphText(Graph(ms));
    VideoRead(ms);
    if audioPresent {
      IndexOfAfter(video, ';', audio);
      var s := video + ";" + audio;
      assert s[..|video|] == video && s[|video| + 1..] == audio;
      assert Graph(ms) != [] by { GraphNotEmpty(ms); }
      AudioText.GraphRead(Graph(ms));
    } else {
      IndexOfMissing(video, ';');
      assert video[..|video|] == video;
    }
  }

  lemma GraphNotEmpty(ms: seq<MsCut>)
    ensures Graph(ms) != []
  {
  }

  // ----- what the edit does

  /** After the cuts come a fixed frame rate and a size that exceeds neither 1920 by 1080 nor the
      source, and nothing else: one filter drops frames, and two set their times. */
  ghost predicate Finished(fs: seq<R.Filter>) {
    && |fs| == 5 && fs[0].SetPts? && fs[1].Select? && fs[2].SetPts?
    && fs[3] == R.Fps(60)
    && fs[4].Scale? && fs[4].options == ["force_original_aspect_ratio=decrease", "force_divisible_by=2"]
    && forall w: real, h: real {:trigger Limits(fs[4], w, h)} :: Limits(fs[4], w, h) == (Least(1920.0, w), Least(1080.0, h))
  }

  function Limits(f: R.Filter, w: real, h: real): (real, real)
    requires f.Scale?
  {
    (Eval(f.width, map["iw" := w, "ih" := h]), Eval(f.height, map["iw" := w, "ih" := h]))
  }

  /** The edit of media of length len deletes exactly the printed cuts: the frame of time t, in
      units of tb and on a link that starts at any timestamp, is dropped exactly when t lies in a
      cut, and is otherwise shown after the amount of kept time before t, within the edited
      length; the sound is as Heard says. */
  ghost predicate Faithful(e: Edit, ms: seq<MsCut>, len: real, start: real, t: real, tb: real)
    requires tb > 0.0
  {
    var shown := V.KeptMeasure(0.0, ms, t);
    && e.video.input == "0:v" && e.video.output == "v" && Finished(e.video.filters)
    && R.Shown(e.video.filters, start + t / tb, start, tb) == (if V.InCut(ms, t) then None else Some(shown / tb))
    && 0.0 <= shown <= V.KeptMeasure(0.0, ms, len)
    && (e.audio.Some? ==> Heard(e.audio.value, ms, len, t))
  }

  /** Run on the source audio, the graph uses every link once and leaves one output, which starts
      at zero and is as long as the kept part of the source. The sound of a cut is gone, and all
      other sound is heard at the time its picture is shown. */
  ghost predicate Heard(g: seq<Chain>, ms: seq<MsCut>, len: real, t: real) {
    && EachOnce(Produced(g)) && EachOnce(Consumed(g))
    && match RunGraph(g, map[SourceAudio := Stream([Piece(0.0, len)], 0.0)])
       case None => false
       case Some(links) =>
         && links.Keys == {Out} && links[Out].startPts == 0.0
         && TotalLength(links[Out].pieces) == V.KeptMeasure(0.0, ms, len)
         && PlayTime(links[Out].pieces, t) ==
              if InHalfOpenCut(ms, t) then None else Some(V.KeptMeasure(0.0, ms, t))
  }

  lemma FiltersFinished(ms: seq<MsCut>)
    ensures Finished(MeantFilters(ms))
  {
    hide V.SelectExpr, V.ShiftExpr;
    var f := MeantFilters(ms)[4];
    forall w: real, h: real
      ensures Limits(f, w, h) == (Least(1920.0, w), Least(1080.0, h))
    {
      MinAt(1920.0, "iw", map["iw" := w, "ih" := h]);
      MinAt(1080.0, "ih", map["iw" := w, "ih" := h]);
    }
  }

  lemma MinAt(limit: real, name: string, env: Env)
    requires name in env
    ensures Eval(Call("min", [Num(limit), Ident(name)]), env) == Least(limit, env[name])
  {
  }

  /** The first filter sets the start of the link to zero. */
  lemma RebasedPts(start: real, d: real, tb: real)
    ensures Eval(Sub(Ident("PTS"), Ident("STARTPTS")), R.FrameEnv(start + d, start, tb)) == d
  {
  }

  lemma InSeconds(t: real, tb: real)
    requires tb > 0.0
    ensures t / tb * tb == t
  {
  }

  lemma FrameFacts(t: real, tb: real)
    requires tb > 0.0
    ensures var env := R.FrameEnv(t / tb, 0.0, tb);
      && {"t", "T", "PTS", "TB"} <= env.Keys
      && env["t"] == env["T"] == t && env["PTS"] == t / tb && env["TB"] == tb
  {
    InSeconds(t, tb);
  }

  lemma SelectAt(ms: seq<MsCut>, t: real, tb: real)
    requires tb > 0.0
    ensures Eval(V.SelectExpr(ms), R.FrameEnv(t / tb, 0.0, tb)) != 0.0 <==> !V.InCut(ms, t)
  {
    hide V.SelectExpr, V.InCut, Eval, R.FrameEnv;
    FrameFacts(t, tb);
    V.SelectKeepsOutside(ms, R.FrameEnv(t / tb, 0.0, tb));
  }

  lemma ShiftAt(ms: seq<MsCut>, t: real, tb: real)
    requires tb > 0.0
    ensures Eval(V.ShiftExpr(ms), R.FrameEnv(t / tb, 0.0, tb)) == V.VideoTime(ms, t) / tb
  {
    hide V.ShiftExpr, Eval, R.FrameEnv, V.RemovedBefore;
    FrameFacts(t, tb);
    V.ShiftClosesGaps(ms, R.FrameEnv(t / tb, 0.0, tb));
    V.Quotients(t, V.RemovedBefore(ms, t), tb);
  }

  lemma ShownAt(ms: seq<MsCut>, start: real, t: real, tb: real)
    requires Ordered(ms) && 0.0 <= t && tb > 0.0
    ensures R.Shown(MeantFilters(ms), start + t / tb, start, tb) ==
            if V.InCut(ms, t) then None else Some(V.KeptMeasure(0.0, ms, t) / tb)
  {
    hide V.SelectExpr, V.ShiftExpr, V.InCut, V.KeptMeasure, Eval, R.FrameEnv, R.Shown, V.VideoTime;
    var fs := MeantFilters(ms);
    assert fs[1..][1..] == fs[2..] && fs[2..][1..] == fs[3..];
    assert fs[1..][0] == fs[1] && fs[2..][0] == fs[2];
    var pts, shifted := t / tb, V.VideoTime(ms, t) / tb;
    RebasedPts(start, pts, tb);
    RebasedPts(start, 0.0, tb);
    assert start + 0.0 == start;
    ShownSetPts(fs, start + pts, start, tb);
    assert R.Shown(fs, start + pts, start, tb) == R.Shown(fs[1..], pts, 0.0, tb);
    SelectAt(ms, t, tb);
    ShownSelect(fs[1..], pts, 0.0, tb);
    assert V.InCut(ms, t) ==> R.Shown(fs, start + pts, start, tb) == None;
    assert !V.InCut(ms, t) ==> R.Shown(fs, start + pts, start, tb) == R.Shown(fs[2..], pts, 0.0, tb);
    if !V.InCut(ms, t) {
      ShiftAt(ms, t, tb);
      ShownSetPts(fs[2..], pts, 0.0, tb);
      var start' := Eval(V.ShiftExpr(ms), R.FrameEnv(0.0, 0.0, tb));
      assert R.Shown(fs[2..], pts, 0.0, tb) == R.Shown(fs[3..], shifted, start', tb);
      ShownRest(fs[3..], shifted, start', tb);
      V.FrameLandsAtKeptTime(ms, t);
      assert R.Shown(fs, start + pts, start, tb) == Some(shifted);
      assert shifted == V.KeptMeasure(0.0, ms, t) / tb;
    }
  }

  lemma ShownSetPts(fs: seq<R.Filter>, pts: real, start: real, tb: real)
    requires fs != [] && fs[0].SetPts?
    ensures R.Shown(fs, pts, start, tb) ==
            R.Shown(fs[1..], Eval(fs[0].time, R.FrameEnv(pts, start, tb)), Eval(fs[0].time, R.FrameEnv(start, start, tb)), tb)
  {
  }

  lemma ShownSelect(fs: seq<R.Filter>, pts: real, start: real, tb: real)
    requires fs != [] && fs[0].Select?
    ensures R.Shown(fs, pts, start, tb) ==
            if Eval(fs[0].keep, R.FrameEnv(pts, start, tb)) != 0.0 then R.Shown(fs[1..], pts, start, tb) else None
  {
  }

  lemma ShownRest(fs: seq<R.Filter>, pts: real, start: real, tb: real)
    requires |fs| == 2 && fs[0].Fps? && fs[1].Scale?
    ensures R.Shown(fs, pts, start, tb) == Some(pts)
  {
    assert R.Shown(fs, pts, start, tb) == R.Shown(fs[1..], pts, start, tb);
    assert fs[1..][0] == fs[1] && fs[1..][1..] == [];
    assert R.Shown(fs[1..], pts, start, tb) == R.Shown([], pts, start, tb) == Some(pts);
  }

  lemma HeardAt(ms: seq<MsCut>, len: real, t: real)
    requires Ordered(ms) && 0.0 <= t < len
    ensures Heard(Graph(ms), ms, len, t)
  {
    hide RunGraph, Graph, KeptPieces, TotalLength, V.KeptMeasure, PlayTime, EachOnce, InHalfOpenCut;
    GraphDeletesCuts(ms, len);
    KeptLength(ms, len);
    HeardAtKeptTime(ms, len, t);
  }

  /** Whatever ordered cuts are printed, and however long the media is, the printed argument
      reads as a faithful edit. */
  lemma OrderedEditIsFaithful(ms: seq<MsCut>, len: real, start: real, t: real, tb: real, audioPresent: bool)
    requires Ordered(ms) && 0.0 <= t < len && tb > 0.0
    ensures var e := ReadEdit(FilterComplex(ms, audioPresent));
            e.Some? && e.value.audio.Some? == audioPresent && Faithful(e.value, ms, len, start, t, tb)
  {
    hide FilterComplex, ReadEdit, MeantFilters, V.KeptMeasure, V.InCut, Graph, Heard, Finished, R.Shown;
    EditRead(ms, audioPresent);
    FiltersFinished(ms);
    ShownAt(ms, start, t, tb);
    HeardAt(ms, len, t);
    V.KeptGrows(0.0, ms, t, len);
  }

  /** Half a millisecond away from the ends of the requested cuts, being in a printed cut is being
      in a requested one. */
  ghost predicate Clear(cuts: seq<Cut>, t: real) {
    forall c :: c in cuts ==> (t < c.start - 0.0005 || c.start + 0.0005 < t) && (t < c.end - 0.0005 || c.end + 0.0005 < t)
  }

  ghost predicate Requested(cuts: seq<Cut>, t: real) {
    exists c :: c in cuts && c.start <= t <= c.end
  }

  lemma PrintedAsRequested(cuts: seq<Cut>, t: real)
    requires NonNegative(cuts) && Clear(cuts, t)
    ensures V.InCut(Printed(cuts), t) <==> Requested(cuts, t)
  {
    hide RoundMilli;
    forall i | 0 <= i < |cuts|
      ensures (Seconds(Printed(cuts)[i].start) <= t <= Seconds(Printed(cuts)[i].end)) <==> cuts[i].start <= t <= cuts[i].end
    {
      assert cuts[i] in cuts;
      RoundMilliNear(cuts[i].start);
      RoundMilliNear(cuts[i].end);
    }
    if V.InCut(Printed(cuts), t) {
      var i :| 0 <= i < |cuts| && Seconds(Printed(cuts)[i].start) <= t <= Seconds(Printed(cuts)[i].end);
      assert cuts[i] in cuts;
    }
  }

  /** Every list the validation accepts is edited faithfully, also when the media is longer or
      shorter than the whole seconds on record; and the printed cuts are the requested ones to
      half a millisecond. */
  lemma AcceptedEditIsFaithful(cuts: seq<Cut>, duration: int, len: real, start: real, t: real, tb: real, audioPresent: bool)
    requires Acceptable(cuts, duration) && 0.0 <= t < len && tb > 0.0
    ensures NonNegative(cuts)
    ensures var e := ReadEdit(FilterComplex(Printed(cuts), audioPresent));
            e.Some? && e.value.audio.Some? == audioPresent && Faithful(e.value, Printed(cuts), len, start, t, tb)
    ensures Clear(cuts, t) ==> (V.InCut(Printed(cuts), t) <==> Requested(cuts, t))
  {
    hide FilterComplex, ReadEdit, Faithful, Clear, V.InCut, Requested;
    AcceptedIsOrdered(cuts, duration);
    OrderedEditIsFaithful(Printed(cuts), len, start, t, tb, audioPresent);
    if Clear(cuts, t) {
      PrintedAsRequested(cuts, t);
    }
  }
}
