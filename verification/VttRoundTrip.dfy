/** Parsing a printed transcript gives the transcript back. */
module VttRoundTrip {
  import opened Options
  import opened Text
  import opened Vtt
  import Time = VttTime
  import D = Decimal

  // ----- which cues survive

  predicate Trimmed(s: string) {
    s != "" && !IsSpace(s[0]) && !IsSpace(s[|s| - 1])
  }

  predicate NoBlankLine(s: string) {
    forall i :: 0 <= i < |s| - 1 ==> s[i] == '\n' ==> s[i + 1] != '\n'
  }

  /** The text is trimmed, has no blank line and no carriage return, and neither entity
      decoding nor tag stripping changes it; a name stands for itself in the same way; and
      text without a speaker does not begin with what looks like one. */
  predicate Storable(seg: Segment, unescape: Unescape) {
    && 0 <= seg.start <= Time.MAX_INT64 && 0 <= seg.end <= Time.MAX_INT64
    && Trimmed(seg.text) && NoBlankLine(seg.text) && '\r' !in seg.text
    && unescape(seg.text) == seg.text && StripTags(seg.text) == seg.text
    && unescape(seg.speaker) == seg.speaker
    && (forall c :: c in seg.speaker ==> c !in "<>\n\r")
    && (if seg.speaker == "" then NamePrefix(seg.text[..IndexOf(seg.text, '\n')]).None? else Trimmed(seg.speaker))
  }

  /** The printed cue is one block of the file, and its payload one piece of it. */
  predicate Shaped(seg: Segment) {
    && 0 <= seg.start <= Time.MAX_INT64 && 0 <= seg.end <= Time.MAX_INT64
    && seg.text != "" && seg.text[0] != '\n' && seg.text[|seg.text| - 1] != '\n'
    && NoBlankLine(seg.text) && '\r' !in seg.text
    && (forall c :: c in seg.speaker ==> c != '\n' && c != '\r')
  }

  lemma StorableShaped(seg: Segment, unescape: Unescape)
    requires Storable(seg, unescape)
    ensures Shaped(seg)
  {
    hide StripTags, NamePrefix, TrimSpace;
  }

  // ----- trimming and searching

  lemma TrimmedStays(s: string)
    requires Trimmed(s)
    ensures TrimSpace(s) == s
  {
  }

  lemma {:induction false} IndexAfter(a: string, pat: string, b: string)
    requires pat != "" && pat[0] !in a
    ensures Index(a + pat + b, pat) == |a|
    decreases |a|
  {
    var s := a + pat + b;
    if a == "" {
      assert s == pat + b;
    } else {
      assert s[1..] == a[1..] + pat + b;
      IndexAfter(a[1..], pat, b);
      assert s[0] == a[0] != pat[0];
    }
  }

  lemma {:induction false} BlankLineAfter(a: string, rest: string)
    requires NoBlankLine(a) && (a != "" ==> a[|a| - 1] != '\n')
    ensures Index(a + "\n\n" + rest, "\n\n") == |a|
    decreases |a|
  {
    var s := a + "\n\n" + rest;
    if a == "" {
      assert s == "\n\n" + rest;
    } else {
      assert s[1..] == a[1..] + "\n\n" + rest;
      assert NoBlankLine(a[1..]) by {
        forall i | 0 <= i < |a[1..]| - 1 && a[1..][i] == '\n' ensures a[1..][i + 1] != '\n' {
          assert a[i + 1] == '\n';
        }
      }
      BlankLineAfter(a[1..], rest);
      assert s[0] == a[0] && (|a| > 1 ==> s[1] == a[1]);
    }
  }

  lemma SplitBlankCons(a: string, rest: string)
    requires NoBlankLine(a) && (a != "" ==> a[|a| - 1] != '\n')
    ensures SplitBlank(a + "\n\n" + rest) == [a] + SplitBlank(rest)
  {
    BlankLineAfter(a, rest);
    var s := a + "\n\n" + rest;
    assert s[..|a|] == a && s[|a| + 2..] == rest;
  }

  lemma NoBlankLineConcat(a: string, b: string)
    requires '\n' !in a && NoBlankLine(b)
    ensures NoBlankLine(a + b)
  {
    forall k | 0 <= k < |a| ensures (a + b)[k] != '\n' { assert a[k] in a; }
    forall i | 0 <= i < |a + b| - 1 && (a + b)[i] == '\n' ensures (a + b)[i + 1] != '\n' {
      assert b[i - |a|] == '\n';
    }
  }

  // ----- times

  predicate ClockChar(c: char) {
    D.IsDigit(c) || c == ':' || c == '.'
  }

  ghost predicate ClockText(s: string) {
    s != "" && D.IsDigit(s[0]) && D.IsDigit(s[|s| - 1]) && forall c :: c in s ==> ClockChar(c)
  }

  lemma ClockIsText(hh: string, mm: string, ss: string, ms: string)
    requires D.AllDigits(hh) && D.AllDigits(mm) && D.AllDigits(ss) && D.AllDigits(ms)
    requires hh != "" && ms != ""
    ensures ClockText(Time.Clock(hh, mm, ss, ms))
  {
    var s := Time.Clock(hh, mm, ss, ms);
    assert s[0] == hh[0] && s[|s| - 1] == ms[|ms| - 1];
    assert forall c :: c in hh || c in mm || c in ss || c in ms ==> D.IsDigit(c);
  }

  lemma FormatIsText(t: int)
    requires 0 <= t
    ensures ClockText(Time.Format(t))
  {
    var h, m, sec, ms := Time.FormatClock(t);
    D.PaddedValue(h, 2);
    D.PaddedValue(m, 2);
    D.PaddedValue(sec, 2);
    D.PaddedValue(ms, 3);
    D.PaddedWidth(h, 2);
    D.PaddedWidth(ms, 3);
    ClockIsText(D.Padded(h, 2), D.Padded(m, 2), D.Padded(sec, 2), D.Padded(ms, 3));
  }

  lemma {:induction false} WordIsWhole(s: string)
    requires forall c :: c in s ==> !IsSpace(c)
    ensures WordLength(s) == |s|
    decreases |s|
  {
    if s != "" {
      WordIsWhole(s[1..]);
    }
  }

  lemma TrimAround(s: string)
    requires Trimmed(s)
    ensures TrimSpace(s + " ") == s && TrimSpace(" " + s) == s
  {
    TrimmedStays(s);
    assert (s + " ")[..|s|] == s;
    assert TrimLeft(s + " ") == s + " " && TrimRight(s + " ") == TrimRight(s);
    assert (" " + s)[1..] == s;
    assert TrimLeft(" " + s) == TrimLeft(s);
  }

  lemma ClockIsWord(s: string)
    requires ClockText(s)
    ensures Trimmed(s) && FirstField(s) == s
  {
    WordIsWhole(s);
  }

  lemma TimingReads(start: string, end: string)
    requires ClockText(start) && ClockText(end)
    requires Time.Parse(start).Some? && Time.Parse(end).Some?
    ensures ParseTimingLine(start + " --> " + end) == Some((Time.Parse(start).value, Time.Parse(end).value))
  {
    hide Time.Parse, TrimSpace, FirstField;
    var line := start + " --> " + end;
    assert line == (start + " ") + "-->" + (" " + end);
    assert '-' !in start + " ";
    IndexAfter(start + " ", "-->", " " + end);
    assert line[..|start| + 1] == start + " " && line[|start| + 1 + 3..] == " " + end;
    ClockIsWord(start);
    ClockIsWord(end);
    TrimAround(start);
    TrimAround(end);
  }

  lemma TimingLineReads(seg: Segment)
    requires 0 <= seg.start <= Time.MAX_INT64 && 0 <= seg.end <= Time.MAX_INT64
    ensures ParseTimingLine(TimingLine(seg)) == Some((seg.start, seg.end))
    ensures Trimmed(TimingLine(seg)) && '\n' !in TimingLine(seg) && '\r' !in TimingLine(seg)
    ensures D.IsDigit(TimingLine(seg)[0])
  {
    hide Time.Parse, Time.Format, ParseTimingLine;
    FormatIsText(seg.start);
    FormatIsText(seg.end);
    Time.ParseFormat(seg.start);
    Time.ParseFormat(seg.end);
    TimingReads(Time.Format(seg.start), Time.Format(seg.end));
    var a, b, line := Time.Format(seg.start), Time.Format(seg.end), TimingLine(seg);
    assert line[0] == a[0] && line[|line| - 1] == b[|b| - 1];
    forall c | c in line ensures c != '\n' && c != '\r' {
      assert c in a || c in " --> " || c in b;
    }
  }

  // ----- tags

  /** Text that tag stripping leaves alone has no tag anywhere. */
  lemma {:induction false} NoTagAt(s: string, i: nat)
    requires StripTags(s) == s && i < |s|
    ensures TagLength(s[i..]) == 0
    decreases i
  {
    assert s[0..] == s;
    assert TagLength(s) > 0 ==> |StripTags(s)| < |s|;
    if i > 0 {
      assert StripTags(s[1..]) == s[1..];
      NoTagAt(s[1..], i - 1);
      assert s[1..][i - 1..] == s[i..];
    }
  }

  lemma NoVoiceTag(s: string)
    requires StripTags(s) == s && s != ""
    ensures VoiceTag(s) == None
  {
    NoTagAt(s, 0);
    assert s[0..] == s;
  }

  lemma NoClosingTag(s: string)
    requires StripTags(s) == s && s != ""
    ensures TrimSuffix(s, "</v>") == s
  {
    hide TagLength, StripTags;
    if |s| >= 4 && s[|s| - 4..] == "</v>" {
      NoTagAt(s, |s| - 4);
      ClosingTagLength();
      assert false;
    }
  }

  lemma ClosingTagLength()
    ensures TagLength("</v>") == 4
  {
    assert "</v>"[3..] == ">";
    assert IndexOf(">", '>') == 0;
  }

  // ----- the payload

  lemma {:induction false} NothingRemoved(s: string, drop: string)
    requires forall c :: c in s ==> c !in drop
    ensures RemoveChars(s, drop) == s
    decreases |s|
  {
    if s != "" {
      NothingRemoved(s[1..], drop);
    }
  }

  lemma VoiceTagRead(speaker: string, text: string)
    requires Trimmed(speaker) && '>' !in speaker
    ensures VoiceTag("<v " + speaker + ">" + text) == Some((speaker, text))
  {
    var s := "<v " + speaker + ">" + text;
    var body := " " + speaker;
    assert s[2..] == body + ">" + text;
    IndexOfAfter(body, '>', text);
    assert s[2..][..|body|] == body && s[2..][|body| + 1..] == text;
    assert body[1..] == speaker;
    assert BlankSpan(speaker) == 0;
    assert BlankSpan(body) == 1;
  }

  lemma SpeakerRead(seg: Segment, unescape: Unescape)
    requires Storable(seg, unescape)
    ensures ExtractSpeaker(Payload(seg)) == (seg.speaker, seg.text)
  {
    hide StripTags, NamePrefix;
    if seg.speaker == "" {
      assert Payload(seg) == seg.text;
      NoVoiceTag(seg.text);
    } else {
      assert '>' !in seg.speaker;
      VoiceTagRead(seg.speaker, seg.text);
      TrimmedStays(seg.speaker);
      NoClosingTag(seg.text);
    }
  }

  lemma PayloadShape(seg: Segment)
    requires Shaped(seg)
    ensures var p := Payload(seg);
      p != "" && p[0] != '\n' && p[|p| - 1] != '\n' && NoBlankLine(p) && '\r' !in p
  {
    var tag := if seg.speaker != "" then "<v " + seg.speaker + ">" else "";
    var p := Payload(seg);
    assert p == tag + seg.text;
    NoBlankLineConcat(tag, seg.text);
    assert p[|p| - 1] == seg.text[|seg.text| - 1];
    assert p[0] == if seg.speaker != "" then '<' else seg.text[0];
  }

  lemma PayloadTrimmed(seg: Segment)
    requires Trimmed(seg.text)
    ensures Trimmed(Payload(seg))
  {
    var p := Payload(seg);
    assert p[|p| - 1] == seg.text[|seg.text| - 1];
    assert p[0] == if seg.speaker != "" then '<' else seg.text[0];
  }

  lemma PayloadParses(seg: Segment, unescape: Unescape)
    requires Storable(seg, unescape)
    ensures ParsePayload(seg.start, seg.end, Payload(seg), unescape) == Some(seg)
  {
    hide StripTags, NamePrefix, ExtractSpeaker, TrimSpace;
    PayloadTrimmed(seg);
    TrimmedStays(Payload(seg));
    SpeakerRead(seg, unescape);
    TrimmedStays(seg.text);
    NothingRemoved(seg.speaker, "<>\n\r");
  }

  // ----- one cue

  lemma NewlineFirst(p: string)
    requires NoBlankLine(p) && (p != "" ==> p[0] != '\n')
    ensures NoBlankLine("\n" + p)
  {
    forall i | 0 <= i < |"\n" + p| - 1 && ("\n" + p)[i] == '\n' ensures ("\n" + p)[i + 1] != '\n' {
      if i > 0 {
        assert p[i - 1] == '\n';
      }
    }
  }

  lemma CueShape(seg: Segment)
    requires Shaped(seg)
    ensures var cue := CueText(seg);
      && NoBlankLine(cue) && cue != "" && cue[|cue| - 1] != '\n' && D.IsDigit(cue[0]) && '\r' !in cue
  {
    hide Time.Format, ParseTimingLine, TimingLine, Payload, NoBlankLine;
    TimingLineReads(seg);
    PayloadShape(seg);
    var line, p, cue := TimingLine(seg), Payload(seg), CueText(seg);
    assert cue == line + ("\n" + p);
    NewlineFirst(p);
    NoBlankLineConcat(line, "\n" + p);
    assert cue[0] == line[0] && cue[|cue| - 1] == p[|p| - 1];
  }

  /** A printed cue parses to what its payload parses to, at its own times. */
  lemma CueReads(seg: Segment, unescape: Unescape)
    requires Shaped(seg)
    ensures ParseBlock(CueText(seg), unescape) == ParsePayload(seg.start, seg.end, Payload(seg), unescape)
  {
    hide Time.Format, ParseTimingLine, ParsePayload, SplitChar, Join, TrimSpace, TimingLine, Payload;
    CueShape(seg);
    TimingLineReads(seg);
    var line, p, cue := TimingLine(seg), Payload(seg), CueText(seg);
    assert TrimNewlines(cue) == cue;
    assert cue == line + "\n" + p;
    SplitCharCons(line, '\n', p);
    var lines := SplitChar(cue, '\n');
    assert lines == [line] + SplitChar(p, '\n');
    assert lines[0] == line && lines[1..] == SplitChar(p, '\n');
    TrimmedStays(line);
    SplitCharJoin(p, '\n');
  }

  lemma CueParses(seg: Segment, unescape: Unescape)
    requires Storable(seg, unescape)
    ensures ParseBlock(CueText(seg), unescape) == Some(seg)
  {
    hide ParseBlock, ParsePayload, CueText, Payload;
    StorableShaped(seg, unescape);
    CueReads(seg, unescape);
    PayloadParses(seg, unescape);
  }

  // ----- the file

  ghost predicate AllStorable(segs: seq<Segment>, unescape: Unescape) {
    forall i :: 0 <= i < |segs| ==> Storable(segs[i], unescape)
  }

  function CueTexts(segs: seq<Segment>): seq<string> {
    if segs == [] then [] else [CueText(segs[0])] + CueTexts(segs[1..])
  }

  lemma {:induction false} CueBlocks(segs: seq<Segment>, unescape: Unescape)
    requires AllStorable(segs, unescape)
    ensures SplitBlank(Cues(segs)) == CueTexts(segs) + [""]
    ensures '\r' !in Cues(segs)
    ensures ParseBlocks(CueTexts(segs) + [""], unescape) == segs
    decreases |segs|
  {
    hide Storable, CueText, ParseBlock, SplitBlank;
    if segs == [] {
      NoSeparator();
      EmptyBlock(unescape);
      assert [""][1..] == [];
    } else {
      CueBlocks(segs[1..], unescape);
      StorableShaped(segs[0], unescape);
      CueShape(segs[0]);
      SplitBlankCons(CueText(segs[0]), Cues(segs[1..]));
      CueParses(segs[0], unescape);
      var blocks := CueTexts(segs) + [""];
      assert blocks[0] == CueText(segs[0]) && blocks[1..] == CueTexts(segs[1..]) + [""];
      assert segs == [segs[0]] + segs[1..];
    }
  }

  lemma NoSeparator()
    ensures SplitBlank("") == [""]
  {
  }

  lemma EmptyBlock(unescape: Unescape)
    ensures ParseBlock("", unescape) == None
  {
    assert SplitChar("", '\n') == [""];
    assert ParseTimingLine("") == None;
  }

  lemma HeaderBlock(unescape: Unescape)
    ensures ParseBlock("WEBVTT", unescape) == None
  {
    hide SplitChar, TrimSpace, ParseTimingLine, ParsePayload, Join;
    var s := "WEBVTT";
    assert TrimNewlines(s) == s;
    SplitCharWhole(s, '\n');
    TrimmedStays(s);
  }

  lemma {:induction false} NoCarriageReturns(s: string)
    requires '\r' !in s
    ensures ReplaceCrLf(s) == s && ReplaceCr(s) == s
    decreases |s|
  {
    if s != "" {
      NoCarriageReturns(s[1..]);
      assert s == [s[0]] + s[1..];
    }
  }

  lemma HeaderAccepted(rest: string)
    requires '\r' !in rest
    ensures var text := "WEBVTT" + "\n\n" + rest; Normalized(text) == text && Signature(text) == None
  {
    var text := "WEBVTT" + "\n\n" + rest;
    assert text[0] == 'W' && '\r' !in text;
    NoCarriageReturns(text);
    assert SkipChars(text, " \t") == text;
    assert "WEBVTT" <= text && text[6..][0] == '\n';
  }

  /** Every non-empty list of storable cues comes back as it was printed. */
  lemma ParsePrinted(segs: seq<Segment>, unescape: Unescape)
    requires segs != [] && AllStorable(segs, unescape)
    ensures ParsedFile(VttText(segs), unescape) == Parsed(segs)
  {
    hide Storable, Normalized, Signature, ParseBlock, SplitBlank, Cues, CueTexts;
    CueBlocks(segs, unescape);
    HeaderAccepted(Cues(segs));
    SplitBlankCons("WEBVTT", Cues(segs));
    HeaderBlock(unescape);
    var blocks := ["WEBVTT"] + (CueTexts(segs) + [""]);
    assert blocks[1..] == CueTexts(segs) + [""];
  }

  // ----- a plainer condition

  lemma {:induction false} NoTags(s: string)
    requires '<' !in s
    ensures StripTags(s) == s
    decreases |s|
  {
    if s != "" {
      NoTags(s[1..]);
      assert s == [s[0]] + s[1..];
    }
  }

  /** No markup at all: what ordinary transcripts look like. */
  predicate Plain(seg: Segment) {
    && 0 <= seg.start <= Time.MAX_INT64 && 0 <= seg.end <= Time.MAX_INT64
    && Trimmed(seg.text) && NoBlankLine(seg.text) && (forall c :: c in seg.text ==> c !in "<&\r")
    && (forall c :: c in seg.speaker ==> c !in "<>&\n\r")
    && (if seg.speaker == "" then NamePrefix(seg.text[..IndexOf(seg.text, '\n')]).None? else Trimmed(seg.speaker))
  }

  /** Any decoder that leaves text without an ampersand alone gives plain transcripts back. */
  lemma ParsePrintedPlain(segs: seq<Segment>, unescape: Unescape)
    requires segs != [] && forall i :: 0 <= i < |segs| ==> Plain(segs[i])
    requires forall s :: '&' !in s ==> unescape(s) == s
    ensures ParsedFile(VttText(segs), unescape) == Parsed(segs)
  {
    hide ParsedFile, VttText;
    forall i | 0 <= i < |segs|
      ensures Storable(segs[i], unescape)
    {
      NoTags(segs[i].text);
    }
    ParsePrinted(segs, unescape);
  }
}
