/** Silence detection: reading ffmpeg's log into segments, clamping them to the video, and
    why remove-segments accepts what comes out. */
module Silence {
  import opened Options
  import opened Cuts
  import opened Text
  import D = Decimal

  // ----- the two patterns

  predicate InNumber(c: char) {
    D.IsDigit(c) || c == '.'
  }

  function SkipBlanks(s: string): (r: string)
    ensures |r| <= |s|
  {
    if s != "" && IsBlank(s[0]) then SkipBlanks(s[1..]) else s
  }

  function NumberSpan(s: string): (n: nat)
    ensures n <= |s| && forall i :: 0 <= i < n ==> InNumber(s[i])
  {
    if s != "" && InNumber(s[0]) then 1 + NumberSpan(s[1..]) else 0
  }

  /** marker, any blanks, and then digits and dots: the digits and dots. */
  function MatchHere(marker: string, s: string): (m: Option<string>)
    ensures m.Some? ==> m.value != "" && forall i :: 0 <= i < |m.value| ==> InNumber(m.value[i])
  {
    if marker <= s then
      var rest := SkipBlanks(s[|marker|..]);
      var n := NumberSpan(rest);
      if n > 0 then Some(rest[..n]) else None
    else None
  }

  /** The leftmost match in the line. */
  function Find(marker: string, s: string): (m: Option<string>)
    ensures m.Some? ==> m.value != "" && forall i :: 0 <= i < |m.value| ==> InNumber(m.value[i])
  {
    match MatchHere(marker, s)
    case Some(v) => Some(v)
    case None => if s == "" then None else Find(marker, s[1..])
  }

  /** strconv.ParseFloat on digits and dots: one dot at most, and at least one digit. */
  function ParseFloat(s: string): (v: Option<real>)
    requires forall i :: 0 <= i < |s| ==> InNumber(s[i])
    ensures v.Some? ==> v.value >= 0.0
  {
    var dot := IndexOf(s, '.');
    var whole := s[..dot];
    var frac := if dot < |s| then s[dot + 1..] else "";
    if D.AllDigits(whole) && D.AllDigits(frac) && |whole| + |frac| > 0 then
      Some(D.Value(whole) as real + D.Value(frac) as real / D.Pow10(|frac|) as real)
    else None
  }

  // ----- reading the log

  datatype Event = Start(at: real) | End(at: real) | Other

  function Classify(line: string): (e: Event)
    ensures !e.Other? ==> e.at >= 0.0
  {
    match Find("silence_start:", line)
    case Some(text) =>
      (match ParseFloat(text) case Some(v) => Start(v) case None => Other)
    case None =>
      match Find("silence_end:", line)
      case Some(text) => (match ParseFloat(text) case Some(v) => End(v) case None => Other)
      case None => Other
  }

  function Events(lines: seq<string>): (es: seq<Event>)
    ensures |es| == |lines|
    ensures forall i :: 0 <= i < |es| ==> es[i] == Classify(lines[i])
  {
    seq(|lines|, i requires 0 <= i < |lines| => Classify(lines[i]))
  }

  /** An end closes the latest start that is still open; everything else is passed over. */
  function Pair(es: seq<Event>, open: Option<real>): seq<Cut> {
    if es == [] then []
    else match es[0]
      case Start(v) => Pair(es[1..], Some(v))
      case End(v) => if open.Some? then [Cut(open.value, v)] + Pair(es[1..], None) else Pair(es[1..], open)
      case Other => Pair(es[1..], open)
  }

  method ParseSilenceDetectOutput(log: string) returns (segments: seq<Cut>)
    ensures segments == Pair(Events(SplitChar(log, '\n')), None)
  {
    segments := [];
    var pendingStart, hasPendingStart := 0.0, false;
    var lines := SplitChar(log, '\n');
    ghost var es := Events(lines);
    for i := 0 to |lines|
      invariant segments + Pair(es[i..], if hasPendingStart then Some(pendingStart) else None) == Pair(es, None)
    {
      assert es[i..][0] == Classify(lines[i]) && es[i..][1..] == es[i + 1..];
      var start := Find("silence_start:", lines[i]);
      if start.Some? {
        var v := ParseFloat(start.value);
        if v.Some? {
          pendingStart, hasPendingStart := v.value, true;
        }
      } else {
        var end := Find("silence_end:", lines[i]);
        if end.Some? && hasPendingStart {
          var v := ParseFloat(end.value);
          if v.Some? {
            segments := segments + [Cut(pendingStart, v.value)];
            hasPendingStart := false;
          }
        }
      }
    }
    assert es[|lines|..] == [];
  }

  // ----- clamping

  function ClampOne(c: Cut, maxEnd: real): seq<Cut> {
    if c.start >= maxEnd then []
    else
      var end := if c.end > maxEnd then maxEnd else c.end;
      if end - c.start >= 0.1 then [Cut(c.start, end)] else []
  }

  function Clamp(cuts: seq<Cut>, maxEnd: real): seq<Cut> {
    if cuts == [] then [] else Clamp(cuts[..|cuts| - 1], maxEnd) + ClampOne(cuts[|cuts| - 1], maxEnd)
  }

  /** The loop in DetectSilence. */
  method ClampSegments(segments: seq<Cut>, duration: int) returns (clamped: seq<Cut>)
    ensures clamped == Clamp(segments, duration as real)
  {
    var maxEnd := duration as real;
    clamped := [];
    for i := 0 to |segments|
      invariant clamped == Clamp(segments[..i], maxEnd)
    {
      var c := segments[i];
      assert segments[..i + 1][..i] == segments[..i];
      if c.start >= maxEnd {
        continue;
      }
      if c.end > maxEnd {
        c := c.(end := maxEnd);
      }
      if c.end - c.start >= 0.1 {
        clamped := clamped + [c];
      }
    }
    assert segments[..|segments|] == segments;
  }

  // ----- what a detector log with increasing times gives

  /** The times read from the log never go back, from lo on. */
  ghost predicate Monotone(es: seq<Event>, lo: real) {
    es == [] || match es[0]
      case Start(v) => lo <= v && Monotone(es[1..], v)
      case End(v) => lo <= v && Monotone(es[1..], v)
      case Other => Monotone(es[1..], lo)
  }

  ghost predicate InOrderFrom(cuts: seq<Cut>, lo: real) {
    && (forall i :: 0 <= i < |cuts| ==> lo <= cuts[i].start <= cuts[i].end)
    && Disjoint(cuts)
  }

  lemma {:induction false} PairInOrder(es: seq<Event>, open: Option<real>, lo: real)
    requires Monotone(es, lo) && (open.Some? ==> open.value <= lo)
    ensures InOrderFrom(Pair(es, open), if open.Some? then open.value else lo)
    decreases |es|
  {
    if es != [] {
      match es[0]
      case Start(v) => PairInOrder(es[1..], Some(v), v);
      case End(v) =>
        PairInOrder(es[1..], None, v);
        if open.None? {
          PairInOrder(es[1..], open, v);
        }
      case Other => PairInOrder(es[1..], open, lo);
    }
  }

  lemma {:induction false} ClampInOrder(cuts: seq<Cut>, maxEnd: real)
    requires InOrderFrom(cuts, 0.0)
    ensures AllWellShaped(Clamp(cuts, maxEnd)) && Disjoint(Clamp(cuts, maxEnd))
    ensures forall c :: c in Clamp(cuts, maxEnd) ==> c.end <= maxEnd
    ensures cuts != [] ==> forall c :: c in Clamp(cuts, maxEnd) ==> c.end <= cuts[|cuts| - 1].end
    decreases |cuts|
  {
    if cuts != [] {
      var n := |cuts| - 1;
      ClampInOrder(cuts[..n], maxEnd);
      var head := Clamp(cuts[..n], maxEnd);
      forall c | c in head
        ensures c.end <= cuts[n].start
      {
        assert n > 0;
        assert cuts[..n][n - 1].end <= cuts[n].start;
      }
    }
  }

  /** What the detection request answers for a log. */
  function Detected(log: string, duration: int): seq<Cut> {
    Clamp(Pair(Events(SplitChar(log, '\n')), None), duration as real)
  }

  /** Whatever else is in the log, segments detected on a video satisfy every condition
      remove-segments puts on single cuts and on pairs of them. Only the count and the
      remaining length are left to check. */
  lemma DetectedFeedsRemoval(log: string, duration: int)
    requires Monotone(Events(SplitChar(log, '\n')), 0.0)
    ensures AllWellShaped(Detected(log, duration)) && Disjoint(Detected(log, duration))
    ensures forall c :: c in Detected(log, duration) ==> c.end <= duration as real
    ensures Acceptable(Detected(log, duration), duration) <==>
            Counted(Detected(log, duration)) && duration as real - Removed(Detected(log, duration)) >= 1.0
  {
    PairInOrder(Events(SplitChar(log, '\n')), None, 0.0);
    ClampInOrder(Pair(Events(SplitChar(log, '\n')), None), duration as real);
    OnlyCountAndLength(Detected(log, duration), duration);
  }

  lemma OnlyCountAndLength(cuts: seq<Cut>, duration: int)
    requires AllWellShaped(cuts) && Disjoint(cuts) && forall c :: c in cuts ==> c.end <= duration as real
    ensures Acceptable(cuts, duration) <==> Counted(cuts) && duration as real - Removed(cuts) >= 1.0
  {
  }

  /** A segment of the answer is one that was found, cut to the video, if a tenth of a second of it
      is left; and all such segments are in the answer. */
  lemma {:induction false} ClampKeepsExactly(cuts: seq<Cut>, maxEnd: real, kept: Cut)
    ensures kept in Clamp(cuts, maxEnd) <==>
            exists c :: c in cuts && c.start < maxEnd && kept.start == c.start
                        && kept.end == (if c.end <= maxEnd then c.end else maxEnd) && kept.end - kept.start >= 0.1
    decreases |cuts|
  {
    if cuts != [] {
      var n := |cuts| - 1;
      ClampKeepsExactly(cuts[..n], maxEnd, kept);
      assert cuts == cuts[..n] + [cuts[n]];
      assert kept in ClampOne(cuts[n], maxEnd) <==>
        cuts[n].start < maxEnd && kept.start == cuts[n].start
        && kept.end == (if cuts[n].end <= maxEnd then cuts[n].end else maxEnd) && kept.end - kept.start >= 0.1;
    }
  }

  // ----- numbers

  lemma FractionDigits(f: nat, k: nat)
    requires k >= 1 && f < D.Pow10(k)
    ensures |D.Padded(f, k)| == k && D.AllDigits(D.Padded(f, k)) && D.Value(D.Padded(f, k)) == f
  {
    D.PaddedValue(f, k);
    D.PaddedWidth(f, k);
  }

  lemma NumberChars(s: string)
    requires D.AllDigits(s)
    ensures (forall i :: 0 <= i < |s| ==> InNumber(s[i])) && '.' !in s
  {
  }

  /** Digits, a point and k decimals are read as the number they write. */
  lemma DecimalRead(w: nat, f: nat, k: nat)
    requires k >= 1 && f < D.Pow10(k)
    ensures var text := D.Digits(w) + "." + D.Padded(f, k);
      && text != "" && (forall i :: 0 <= i < |text| ==> InNumber(text[i]))
      && ParseFloat(text) == Some(w as real + f as real / D.Pow10(k) as real)
  {
    hide D.Digits, D.Padded, D.Value, D.Pow10, IndexOf;
    var whole, frac := D.Digits(w), D.Padded(f, k);
    D.DigitsValue(w);
    FractionDigits(f, k);
    NumberChars(whole);
    NumberChars(frac);
    var text := whole + "." + frac;
    assert forall i :: 0 <= i < |text| ==>
      text[i] == if i < |whole| then whole[i] else if i == |whole| then '.' else frac[i - |whole| - 1];
    IndexOfAfter(whole, '.', frac);
    assert text[..|whole|] == whole && text[|whole| + 1..] == frac;
  }

  /** So are digits alone. */
  lemma WholeRead(w: nat)
    ensures var text := D.Digits(w);
      && text != "" && (forall i :: 0 <= i < |text| ==> InNumber(text[i]))
      && ParseFloat(text) == Some(w as real)
  {
    hide D.Digits, D.Value, IndexOf;
    var text := D.Digits(w);
    D.DigitsValue(w);
    NumberChars(text);
    IndexOfMissing(text, '.');
    assert text[..|text|] == text;
    assert D.Value("") == 0 && D.Pow10(0) == 1 by { EmptyFraction(); }
  }

  lemma EmptyFraction()
    ensures D.Value("") == 0 && D.Pow10(0) == 1
  {
  }

  /** A number as the detector writes it: with or without decimals. */
  datatype Number = Number(whole: nat, fraction: nat, places: nat)

  predicate Written(n: Number) {
    n.fraction < D.Pow10(n.places)
  }

  function NumberText(n: Number): string {
    if n.places == 0 then D.Digits(n.whole) else D.Digits(n.whole) + "." + D.Padded(n.fraction, n.places)
  }

  function NumberValue(n: Number): real {
    n.whole as real + n.fraction as real / D.Pow10(n.places) as real
  }

  lemma NumberRead(n: Number)
    requires Written(n)
    ensures var text := NumberText(n);
      && text != "" && (forall i :: 0 <= i < |text| ==> InNumber(text[i]))
      && ParseFloat(text) == Some(NumberValue(n))
  {
    hide ParseFloat, D.Digits, D.Padded;
    if n.places == 0 {
      WholeRead(n.whole);
    } else {
      DecimalRead(n.whole, n.fraction, n.places);
    }
  }

  // ----- lines

  ghost predicate Contains(s: string, pat: string) {
    exists i :: 0 <= i <= |s| && pat <= s[i..]
  }

  lemma {:induction false} NothingFound(marker: string, s: string)
    requires !Contains(s, marker)
    ensures Find(marker, s) == None
    decreases |s|
  {
    hide SkipBlanks, NumberSpan;
    assert s[0..] == s;
    if s != "" {
      forall i | 0 <= i <= |s[1..]| ensures !(marker <= s[1..][i..]) {
        assert s[1..][i..] == s[i + 1..];
      }
      NothingFound(marker, s[1..]);
    }
  }

  lemma {:induction false} BlanksSkipped(blanks: string, s: string)
    requires (forall c :: c in blanks ==> IsBlank(c)) && (s != "" ==> !IsBlank(s[0]))
    ensures SkipBlanks(blanks + s) == s
    decreases |blanks|
  {
    if blanks == "" {
      assert blanks + s == s;
    } else {
      assert (blanks + s)[1..] == blanks[1..] + s;
      BlanksSkipped(blanks[1..], s);
    }
  }

  lemma {:induction false} SpanOfNumber(n: string, rest: string)
    requires (forall i :: 0 <= i < |n| ==> InNumber(n[i])) && (rest != "" ==> !InNumber(rest[0]))
    ensures NumberSpan(n + rest) == |n|
    decreases |n|
  {
    if n == "" {
      assert n + rest == rest;
    } else {
      assert (n + rest)[1..] == n[1..] + rest;
      SpanOfNumber(n[1..], rest);
    }
  }

  /** The marker with its number, at the very start. */
  lemma MatchedHere(marker: string, blanks: string, n: string, rest: string)
    requires n != "" && (forall i :: 0 <= i < |n| ==> InNumber(n[i])) && (rest != "" ==> !InNumber(rest[0]))
    requires forall c :: c in blanks ==> IsBlank(c)
    ensures MatchHere(marker, marker + (blanks + (n + rest))) == Some(n)
  {
    hide SkipBlanks, NumberSpan;
    var s := marker + (blanks + (n + rest));
    assert s[|marker|..] == blanks + (n + rest);
    assert InNumber(n[0]) && (n + rest)[0] == n[0];
    BlanksSkipped(blanks, n + rest);
    SpanOfNumber(n, rest);
    assert (n + rest)[..|n|] == n;
  }

  /** A marker ends with its only colon, so it cannot begin earlier than where it was written. */
  predicate Marker(m: string) {
    m != "" && m[|m| - 1] == ':' && ':' !in m[..|m| - 1]
  }

  lemma MarkerOnlyInside(marker: string, before: string, after: string, i: nat)
    requires Marker(marker) && i < |before| && marker <= (before + (marker + after))[i..]
    ensures Contains(before, marker)
  {
    var s, last := before + (marker + after), i + |marker| - 1;
    assert forall k :: 0 <= k < |marker| - 1 ==> marker[k] == marker[..|marker| - 1][k];
    assert forall k :: |before| <= k < |before| + |marker| ==> s[k] == marker[k - |before|];
    assert s[last] == s[i..][|marker| - 1] == ':';
    if last >= |before| {
      assert false;
    }
    assert before[i..][..|marker|] == s[i..][..|marker|] == marker;
  }

  lemma {:induction false} FoundAt(marker: string, before: string, rest: string, n: string, from: nat)
    requires Marker(marker) && !Contains(before, marker) && from <= |before|
    requires MatchHere(marker, marker + rest) == Some(n)
    ensures Find(marker, (before + (marker + rest))[from..]) == Some(n)
    decreases |before| - from
  {
    hide SkipBlanks, NumberSpan;
    var s := before + (marker + rest);
    if from == |before| {
      assert s[from..] == marker + rest;
    } else {
      if marker <= s[from..] {
        MarkerOnlyInside(marker, before, rest, from);
      }
      assert s[from..][1..] == s[from + 1..];
      FoundAt(marker, before, rest, n, from + 1);
    }
  }

  // ----- a whole log

  const START := "silence_start:"
  const END := "silence_end:"

  /** A line of the log: a start or an end with something around it, or anything without a marker. */
  datatype Line =
    | StartLine(before: string, blanks: string, at: Number, after: string)
    | EndLine(before: string, blanks: string, at: Number, after: string)
    | OtherLine(text: string)

  function LineText(l: Line): string {
    match l
    case StartLine(before, blanks, at, after) => before + (START + (blanks + (NumberText(at) + after)))
    case EndLine(before, blanks, at, after) => before + (END + (blanks + (NumberText(at) + after)))
    case OtherLine(text) => text
  }

  ghost predicate Plausible(l: Line) {
    && '\n' !in LineText(l)
    && match l
       case StartLine(before, blanks, at, after) =>
         !Contains(before, START) && (forall c :: c in blanks ==> IsBlank(c)) && Written(at)
         && (after != "" ==> !InNumber(after[0]))
       case EndLine(before, blanks, at, after) =>
         !Contains(before, END) && !Contains(LineText(l), START) && (forall c :: c in blanks ==> IsBlank(c)) && Written(at)
         && (after != "" ==> !InNumber(after[0]))
       case OtherLine(text) => !Contains(text, START) && !Contains(text, END)
  }

  function LineEvent(l: Line): Event {
    match l
    case StartLine(_, _, at, _) => Start(NumberValue(at))
    case EndLine(_, _, at, _) => End(NumberValue(at))
    case OtherLine(_) => Other
  }

  lemma MarkersEnd()
    ensures Marker(START) && Marker(END)
  {
  }

  lemma FoundInLine(marker: string, before: string, blanks: string, at: Number, after: string)
    requires Marker(marker) && !Contains(before, marker) && Written(at)
    requires (forall c :: c in blanks ==> IsBlank(c)) && (after != "" ==> !InNumber(after[0]))
    ensures Find(marker, before + (marker + (blanks + (NumberText(at) + after)))) == Some(NumberText(at))
  {
    hide Find, MatchHere, NumberText, Marker;
    NumberRead(at);
    var rest := blanks + (NumberText(at) + after);
    MatchedHere(marker, blanks, NumberText(at), after);
    FoundAt(marker, before, rest, NumberText(at), 0);
    assert (before + (marker + rest))[0..] == before + (marker + rest);
  }

  /** Every line is understood as what it says. */
  lemma LineRead(l: Line)
    requires Plausible(l)
    ensures Classify(LineText(l)) == LineEvent(l)
  {
    hide Find, NumberText, ParseFloat, Contains, Marker;
    MarkersEnd();
    match l
    case StartLine(before, blanks, at, after) =>
      FoundInLine(START, before, blanks, at, after);
      NumberRead(at);
    case EndLine(before, blanks, at, after) =>
      NothingFound(START, LineText(l));
      FoundInLine(END, before, blanks, at, after);
      NumberRead(at);
    case OtherLine(text) =>
      NothingFound(START, text);
      NothingFound(END, text);
  }

  function LineTexts(ls: seq<Line>): (ts: seq<string>)
    ensures |ts| == |ls| && forall i :: 0 <= i < |ls| ==> ts[i] == LineText(ls[i])
  {
    seq(|ls|, i requires 0 <= i < |ls| => LineText(ls[i]))
  }

  function LineEvents(ls: seq<Line>): (es: seq<Event>)
    ensures |es| == |ls| && forall i :: 0 <= i < |ls| ==> es[i] == LineEvent(ls[i])
  {
    seq(|ls|, i requires 0 <= i < |ls| => LineEvent(ls[i]))
  }

  /** Starts that are never ended before the next, one that is, and its end, followed by ends that
      have no start. */
  datatype Silent = Silent(replaced: seq<real>, start: real, end: real, stray: seq<real>)

  function Starts(at: seq<real>): seq<Event> {
    if at == [] then [] else [Start(at[0])] + Starts(at[1..])
  }

  function Ends(at: seq<real>): seq<Event> {
    if at == [] then [] else [End(at[0])] + Ends(at[1..])
  }

  function SilentEvents(g: Silent): seq<Event> {
    Starts(g.replaced) + ([Start(g.start), End(g.end)] + Ends(g.stray))
  }

  function Story(gs: seq<Silent>): seq<Event> {
    if gs == [] then [] else SilentEvents(gs[0]) + Story(gs[1..])
  }

  function Told(gs: seq<Silent>): seq<Cut> {
    if gs == [] then [] else [Cut(gs[0].start, gs[0].end)] + Told(gs[1..])
  }

  function Signals(es: seq<Event>): seq<Event> {
    if es == [] then [] else (if es[0].Other? then [] else [es[0]]) + Signals(es[1..])
  }

  lemma {:induction false} OthersIgnored(es: seq<Event>, open: Option<real>)
    ensures Pair(es, open) == Pair(Signals(es), open)
    decreases |es|
  {
    if es != [] {
      match es[0]
      case Start(v) =>
        OthersIgnored(es[1..], Some(v));
        assert Signals(es)[1..] == Signals(es[1..]);
      case End(v) =>
        OthersIgnored(es[1..], None);
        OthersIgnored(es[1..], open);
        assert Signals(es)[1..] == Signals(es[1..]);
      case Other =>
        OthersIgnored(es[1..], open);
        assert Signals(es) == [] + Signals(es[1..]) == Signals(es[1..]);
    }
  }

  lemma {:induction false} StartsReplaced(at: seq<real>, open: Option<real>, start: real, rest: seq<Event>)
    ensures Pair(Starts(at) + ([Start(start)] + rest), open) == Pair(rest, Some(start))
    decreases |at|
  {
    var es := Starts(at) + ([Start(start)] + rest);
    if at == [] {
      assert es == [Start(start)] + rest && es[1..] == rest;
    } else {
      assert es[0] == Start(at[0]) && es[1..] == Starts(at[1..]) + ([Start(start)] + rest);
      StartsReplaced(at[1..], Some(at[0]), start, rest);
    }
  }

  lemma {:induction false} StrayEnds(at: seq<real>, rest: seq<Event>)
    ensures Pair(Ends(at) + rest, None) == Pair(rest, None)
    decreases |at|
  {
    if at == [] {
      assert Ends(at) + rest == rest;
    } else {
      assert (Ends(at) + rest)[0] == End(at[0]) && (Ends(at) + rest)[1..] == Ends(at[1..]) + rest;
      StrayEnds(at[1..], rest);
    }
  }

  lemma StoryFirst(g: Silent, later: seq<Event>)
    ensures SilentEvents(g) + later == Starts(g.replaced) + ([Start(g.start)] + ([End(g.end)] + (Ends(g.stray) + later)))
  {
    hide Starts, Ends;
    var a, b := Starts(g.replaced), Ends(g.stray);
    assert [Start(g.start), End(g.end)] + b == [Start(g.start)] + ([End(g.end)] + b);
    assert (a + ([Start(g.start)] + ([End(g.end)] + b))) + later == a + ([Start(g.start)] + ([End(g.end)] + (b + later)));
  }

  lemma {:induction false} StoryTold(gs: seq<Silent>)
    ensures Pair(Story(gs), None) == Told(gs)
    decreases |gs|
  {
    hide SilentEvents, Starts, Ends;
    if gs != [] {
      var g, later := gs[0], Story(gs[1..]);
      StoryTold(gs[1..]);
      StrayEnds(g.stray, later);
      var tail := [End(g.end)] + (Ends(g.stray) + later);
      StoryFirst(g, later);
      StartsReplaced(g.replaced, None, g.start, tail);
      assert tail[1..] == Ends(g.stray) + later;
    }
  }

  /** Whatever stands around the markers and between the lines, a log that tells of silences is
      parsed to exactly those, with the numbers that were written; a start given again replaces the
      one before, and an end without a start is passed over. */
  lemma LogRoundTrip(ls: seq<Line>, gs: seq<Silent>)
    requires ls != [] && (forall l :: l in ls ==> Plausible(l)) && Signals(LineEvents(ls)) == Story(gs)
    ensures Pair(Events(SplitChar(Join(LineTexts(ls), "\n"), '\n')), None) == Told(gs)
  {
    hide Classify, LineText, LineEvent, Pair, SplitChar, Join;
    forall l | l in ls ensures Classify(LineText(l)) == LineEvent(l) && '\n' !in LineText(l) {
      LineRead(l);
    }
    forall t | t in LineTexts(ls) ensures '\n' !in t {
      var i :| 0 <= i < |ls| && LineTexts(ls)[i] == t;
      assert ls[i] in ls;
    }
    SplitJoin(LineTexts(ls), '\n');
    forall i | 0 <= i < |ls| ensures Events(LineTexts(ls))[i] == LineEvents(ls)[i] {
      assert ls[i] in ls;
    }
    assert Events(LineTexts(ls)) == LineEvents(ls);
    OthersIgnored(LineEvents(ls), None);
    StoryTold(gs);
  }
}
