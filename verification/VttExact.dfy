/** Exactly which cues come back from a printed transcript, and cues that do not. */
module VttExact {
  import opened Options
  import opened Text
  import opened Vtt
  import opened VttRoundTrip
  import Merge = VttMerge
  import Time = VttTime
  import D = Decimal

  /** The decoder has nothing to do where there is no ampersand. */
  ghost predicate LeavesPlain(unescape: Unescape) {
    forall s :: '&' !in s ==> unescape(s) == s
  }

  /** What can be read off a cue before it is printed. */
  predicate Clean(seg: Segment) {
    && Trimmed(seg.text) && NoBlankLine(seg.text) && '\r' !in seg.text && StripTags(seg.text) == seg.text
    && (forall c :: c in seg.speaker ==> c !in "<>\n\r")
    && (if seg.speaker == "" then NamePrefix(seg.text[..IndexOf(seg.text, '\n')]).None? else Trimmed(seg.speaker))
  }

  /** Times in range, and no ampersand. */
  predicate Undecoded(seg: Segment) {
    && 0 <= seg.start <= Time.MAX_INT64 && 0 <= seg.end <= Time.MAX_INT64
    && '&' !in seg.text && '&' !in seg.speaker
  }

  // ----- cue by cue

  lemma {:induction false} FirstBlankLine(s: string) returns (i: nat)
    requires !NoBlankLine(s)
    ensures i + 2 <= |s| && s[i] == s[i + 1] == '\n' && NoBlankLine(s[..i]) && (i > 0 ==> s[i - 1] != '\n')
    decreases |s|
  {
    if s[0] == '\n' && s[1] == '\n' {
      i := 0;
    } else {
      var k :| 0 <= k < |s| - 1 && s[k] == '\n' && s[k + 1] == '\n';
      assert s[1..][k - 1] == '\n' && s[1..][k] == '\n';
      var j := FirstBlankLine(s[1..]);
      i := j + 1;
      assert s[..i] == [s[0]] + s[1..][..j];
      forall m | 0 <= m < i - 1 && s[..i][m] == '\n' ensures s[..i][m + 1] != '\n' {
        if m > 0 {
          assert s[1..][..j][m - 1] == '\n';
        }
      }
    }
  }

  lemma {:induction false} NoBlankLineFound(s: string)
    requires NoBlankLine(s)
    ensures Index(s, "\n\n") == -1
    decreases |s|
  {
    if s != "" {
      assert |s| > 1 && s[0] == '\n' ==> s[1] != '\n';
      forall i | 0 <= i < |s[1..]| - 1 && s[1..][i] == '\n' ensures s[1..][i + 1] != '\n' {
        assert s[i + 1] == '\n';
      }
      NoBlankLineFound(s[1..]);
    }
  }

  lemma OneBlock(s: string)
    requires NoBlankLine(s)
    ensures SplitBlank(s) == [s]
  {
    NoBlankLineFound(s);
  }

  /** Text around a separator is split on both sides of it. */
  lemma {:induction false} SplitBlankConcat(a: string, rest: string)
    requires a != "" ==> a[|a| - 1] != '\n'
    ensures SplitBlank(a + "\n\n" + rest) == SplitBlank(a) + SplitBlank(rest)
    decreases |a|
  {
    hide SplitBlank, NoBlankLine;
    if NoBlankLine(a) {
      OneBlock(a);
      SplitBlankCons(a, rest);
    } else {
      var i := FirstBlankLine(a);
      var front, back := a[..i], a[i + 2..];
      assert a == front + "\n\n" + back;
      assert back != "" ==> back[|back| - 1] == a[|a| - 1];
      SplitBlankConcat(back, rest);
      SplitBlankCons(front, back);
      SplitBlankCons(front, back + "\n\n" + rest);
      assert a + "\n\n" + rest == front + "\n\n" + (back + "\n\n" + rest);
      assert [front] + (SplitBlank(back) + SplitBlank(rest)) == ([front] + SplitBlank(back)) + SplitBlank(rest);
    }
  }

  lemma {:induction false} ParseBlocksConcat(a: seq<string>, b: seq<string>, unescape: Unescape)
    ensures ParseBlocks(a + b, unescape) == ParseBlocks(a, unescape) + ParseBlocks(b, unescape)
    decreases |a|
  {
    hide ParseBlock;
    if a == [] {
      assert a + b == b;
    } else {
      assert (a + b)[0] == a[0] && (a + b)[1..] == a[1..] + b;
      ParseBlocksConcat(a[1..], b, unescape);
    }
  }

  /** What the blocks of one printed cue are parsed to. */
  function Yield(seg: Segment, unescape: Unescape): seq<Segment> {
    ParseBlocks(SplitBlank(CueText(seg)), unescape)
  }

  function Yields(segs: seq<Segment>, unescape: Unescape): seq<Segment> {
    if segs == [] then [] else Yield(segs[0], unescape) + Yields(segs[1..], unescape)
  }

  /** The text ends where its cue ends, and nothing in the cue is rewritten before parsing. */
  predicate Closed(seg: Segment) {
    && 0 <= seg.start <= Time.MAX_INT64 && 0 <= seg.end <= Time.MAX_INT64
    && seg.text != "" && seg.text[|seg.text| - 1] != '\n' && '\r' !in seg.text && '\r' !in seg.speaker
  }

  lemma ClosedCue(seg: Segment)
    requires Closed(seg)
    ensures CueText(seg) != "" && CueText(seg)[|CueText(seg)| - 1] != '\n' && '\r' !in CueText(seg)
  {
    hide TimingLine, Payload, ParseTimingLine, IsSpace;
    TimingLineReads(seg);
    ClosedPayload(seg);
    var line, p := TimingLine(seg), Payload(seg);
    assert CueText(seg) == line + "\n" + p;
    ConcatAvoids(line, "\n", '\r');
    ConcatAvoids(line + "\n", p, '\r');
    assert CueText(seg)[|CueText(seg)| - 1] == p[|p| - 1];
  }

  lemma ClosedPayload(seg: Segment)
    requires Closed(seg)
    ensures var p := Payload(seg); p != "" && p[|p| - 1] != '\n' && '\r' !in p
  {
    var p := Payload(seg);
    ConcatAvoids("<v ", seg.speaker, '\r');
    ConcatAvoids("<v " + seg.speaker, ">", '\r');
    assert p[|p| - 1] == seg.text[|seg.text| - 1];
  }

  lemma {:induction false} BlocksYield(segs: seq<Segment>, unescape: Unescape)
    requires forall s :: s in segs ==> Closed(s)
    ensures ParseBlocks(SplitBlank(Cues(segs)), unescape) == Yields(segs, unescape)
    ensures '\r' !in Cues(segs)
    decreases |segs|
  {
    hide ParseBlock, SplitBlank, CueText, ParseBlocks, Closed;
    if segs == [] {
      NoSeparator();
      NothingParsed(unescape);
    } else {
      var cue, later := CueText(segs[0]), Cues(segs[1..]);
      BlocksYield(segs[1..], unescape);
      ClosedCue(segs[0]);
      SplitBlankConcat(cue, later);
      ParseBlocksConcat(SplitBlank(cue), SplitBlank(later), unescape);
      ConcatAvoids(cue, "\n\n", '\r');
      ConcatAvoids(cue + "\n\n", later, '\r');
    }
  }

  lemma NothingParsed(unescape: Unescape)
    ensures ParseBlocks([""], unescape) == []
  {
    hide ParseBlock;
    EmptyBlock(unescape);
    assert [""][1..] == [];
  }

  /** A file is parsed cue by cue. */
  lemma FileYields(segs: seq<Segment>, unescape: Unescape)
    requires forall s :: s in segs ==> Closed(s)
    ensures ParsedFile(VttText(segs), unescape) ==
            if Yields(segs, unescape) == [] then NoCues else Parsed(Yields(segs, unescape))
  {
    hide ParseBlock, Normalized, Signature, SplitBlank, Cues, Closed, Yields;
    var rest := Cues(segs);
    BlocksYield(segs, unescape);
    HeaderAccepted(rest);
    SplitBlankCons("WEBVTT", rest);
    HeaderBlock(unescape);
    assert (["WEBVTT"] + SplitBlank(rest))[1..] == SplitBlank(rest);
  }

  function AsList(o: Option<Segment>): seq<Segment> {
    match o case None => [] case Some(seg) => [seg]
  }

  /** A cue without blank lines is one block. */
  lemma ShapedYield(seg: Segment, unescape: Unescape)
    requires Shaped(seg)
    ensures Yield(seg, unescape) == AsList(ParsePayload(seg.start, seg.end, Payload(seg), unescape))
  {
    hide CueText, Payload, ParsePayload, ParseBlock, SplitBlank, ParseBlocks;
    CueShape(seg);
    OneBlock(CueText(seg));
    CueReads(seg, unescape);
    SingleBlock(CueText(seg), unescape);
  }

  lemma SingleBlock(block: string, unescape: Unescape)
    ensures ParseBlocks([block], unescape) == AsList(ParseBlock(block, unescape))
  {
    hide ParseBlock;
    assert [block][1..] == [] && ParseBlocks([], unescape) == [];
  }

  // ----- cues that do not come back

  /** Text that begins like a name is read as one. */
  lemma NoteBecomesSpeaker(start: int, end: int, unescape: Unescape)
    requires 0 <= start <= Time.MAX_INT64 && 0 <= end <= Time.MAX_INT64 && LeavesPlain(unescape)
    ensures ParsedFile(VttText([Segment(start, end, "note: hi", "")]), unescape) ==
            Parsed([Segment(start, end, "hi", "note")])
  {
    hide ParsedFile, VttText, ParsePayload, Yield, Shaped, Closed, LeavesPlain;
    var seg := Segment(start, end, "note: hi", "");
    NoteShaped(seg);
    FileYields([seg], unescape);
    ShapedYield(seg, unescape);
    NotePayload(start, end, unescape);
    YieldsOfOne(seg, unescape);
  }

  lemma YieldsOfOne(seg: Segment, unescape: Unescape)
    ensures Yields([seg], unescape) == Yield(seg, unescape)
  {
    hide Yield;
    assert [seg][1..] == [] && Yields([], unescape) == [];
    assert Yield(seg, unescape) + [] == Yield(seg, unescape);
  }

  lemma NoteShaped(seg: Segment)
    requires 0 <= seg.start <= Time.MAX_INT64 && 0 <= seg.end <= Time.MAX_INT64
    requires seg.text == "note: hi" && seg.speaker == ""
    ensures Shaped(seg) && Closed(seg) && Payload(seg) == "note: hi"
  {
    assert Payload(seg) == seg.text;
  }

  lemma NotePayload(start: int, end: int, unescape: Unescape)
    requires LeavesPlain(unescape)
    ensures ParsePayload(start, end, "note: hi", unescape) == Some(Segment(start, end, "hi", "note"))
  {
    hide ExtractSpeaker, TrimSpace, StripTags, RemoveChars;
    TrimmedStays("note: hi");
    NoteRead();
    NoTags("hi");
    TrimmedStays("hi");
    assert unescape("hi") == "hi" && unescape("note") == "note";
    NothingRemoved("note", "<>\n\r");
  }

  lemma NoteRead()
    ensures ExtractSpeaker("note: hi") == ("note", "hi")
  {
    hide NamePrefix, IndexOf;
    var text := "note: hi";
    assert VoiceTag(text) == None by { assert text[0] != '<'; }
    IndexOfMissing(text, '\n');
    assert text[..8] == text && text[8..] == "";
    NoteName();
    assert "hi" + "" == "hi";
  }

  /** A line of a name, a colon, a space and more. */
  lemma NameRead(name: string, rest: string)
    requires Trimmed(name) && Trimmed(rest) && !LeadingTimestamp(name)
    requires ':' !in name && '<' !in name && '>' !in name
    ensures NamePrefix(name + ": " + rest) == Some((name, rest))
  {
    hide Index, TrimSpace, LeadingTimestamp, Trimmed;
    var line := name + ": " + rest;
    IndexAfter(name, ": ", rest);
    assert name != "" by { hide *; NotEmpty(name); }
    assert line[..|name|] == name && line[|name| + 2..] == rest;
    TrimmedStays(name);
    TrimmedStays(rest);
  }

  lemma NotEmpty(s: string)
    requires Trimmed(s)
    ensures s != ""
  {
  }

  lemma NoteName()
    ensures NamePrefix("note: hi") == Some(("note", "hi"))
  {
    hide NamePrefix, LeadingTimestamp;
    NotATimestamp();
    NameRead("note", "hi");
    assert "note" + ": " + "hi" == "note: hi";
  }

  lemma NotATimestamp()
    ensures !LeadingTimestamp("note")
  {
    assert "note"[..1][0] == 'n' && "note"[..2][0] == 'n';
  }

  lemma {:induction false} IndexMissing(s: string, pat: string, c: char)
    requires c in pat && c !in s
    ensures Index(s, pat) == -1
    decreases |s|
  {
    if s != "" {
      assert !(pat <= s);
      IndexMissing(s[1..], pat, c);
    }
  }

  /** Merging can make such a cue out of two that come back. */
  lemma MergeMakesSpeaker(unescape: Unescape)
    requires LeavesPlain(unescape)
    ensures var segs := [Segment(0, 1000, "note:", ""), Segment(1000, 2000, "hi", "")];
      && ParsedFile(VttText(segs), unescape) == Parsed(segs)
      && Merge.Merge(segs) == [Segment(0, 2000, "note: hi", "")]
      && ParsedFile(VttText(Merge.Merge(segs)), unescape) == Parsed([Segment(0, 2000, "hi", "note")])
  {
    hide ParsedFile, VttText, Plain, LeavesPlain, Merge.Merge, IsSpace;
    var a, b := Segment(0, 1000, "note:", ""), Segment(1000, 2000, "hi", "");
    NoteWords();
    OneWordPlain(a);
    OneWordPlain(b);
    PairComesBack(a, b, unescape);
    MergePair(a, b);
    assert Merge.Absorb(a, b) == Segment(0, 2000, "note: hi", "") by {
      assert "note:" + " " + "hi" == "note: hi";
    }
    NoteBecomesSpeaker(0, 2000, unescape);
  }

  lemma NoteWords()
    ensures forall c :: c in "note:" || c in "hi" ==> !IsSpace(c) && c !in "<&"
  {
  }

  lemma PairComesBack(a: Segment, b: Segment, unescape: Unescape)
    requires LeavesPlain(unescape) && Plain(a) && Plain(b)
    ensures ParsedFile(VttText([a, b]), unescape) == Parsed([a, b])
  {
    hide ParsedFile, VttText, Plain;
    ParsePrintedPlain([a, b], unescape);
  }

  lemma MergePair(a: Segment, b: Segment)
    requires Merge.CanMerge(a, b)
    ensures Merge.Merge([a, b]) == [Merge.Absorb(a, b)]
  {
    assert [a, b][1..] == [b] && [b][1..] == [];
    assert Merge.MergeFrom(Merge.Absorb(a, b), []) == [Merge.Absorb(a, b)];
    assert Merge.MergeFrom(a, [b]) == [Merge.Absorb(a, b)];
  }

  lemma OneWordPlain(seg: Segment)
    requires seg.speaker == "" && 0 <= seg.start <= Time.MAX_INT64 && 0 <= seg.end <= Time.MAX_INT64
    requires seg.text != "" && forall c :: c in seg.text ==> !IsSpace(c) && c !in "<&"
    ensures Plain(seg)
  {
    hide Index;
    IndexOfMissing(seg.text, '\n');
    assert seg.text[..|seg.text|] == seg.text;
    IndexMissing(seg.text, ": ", ' ');
  }

  // ----- what the parser never does: add characters

  lemma {:induction false} TrimLeftAvoids(s: string, c: char)
    requires c !in s
    ensures c !in TrimLeft(s)
    decreases |s|
  {
    if s != "" && IsSpace(s[0]) {
      TrimLeftAvoids(s[1..], c);
    }
  }

  lemma {:induction false} TrimRightAvoids(s: string, c: char)
    requires c !in s
    ensures c !in TrimRight(s)
    decreases |s|
  {
    if s != "" && IsSpace(s[|s| - 1]) {
      TrimRightAvoids(s[..|s| - 1], c);
    }
  }

  lemma TrimAvoids(s: string, c: char)
    requires c !in s
    ensures c !in TrimSpace(s)
  {
    TrimLeftAvoids(s, c);
    TrimRightAvoids(TrimLeft(s), c);
  }

  lemma {:induction false} StripAvoids(s: string, c: char)
    requires c !in s
    ensures c !in StripTags(s)
    decreases |s|
  {
    hide TagLength;
    if s != "" {
      if TagLength(s) > 0 {
        StripAvoids(s[TagLength(s)..], c);
      } else {
        StripAvoids(s[1..], c);
      }
    }
  }

  lemma {:induction false} SplitAvoids(s: string, sep: char, c: char)
    requires c !in s
    ensures forall p :: p in SplitChar(s, sep) ==> c !in p
    decreases |s|
  {
    if IndexOf(s, sep) < |s| {
      SplitAvoids(s[IndexOf(s, sep) + 1..], sep, c);
    }
  }

  lemma {:induction false} SplitBlankAvoids(s: string, c: char)
    requires c !in s
    ensures forall p :: p in SplitBlank(s) ==> c !in p && |p| <= |s|
    decreases |s|
  {
    var i := Index(s, "\n\n");
    if i >= 0 {
      SplitBlankAvoids(s[i + 2..], c);
    }
  }

  lemma {:induction false} TrimNewlinesAvoids(s: string, c: char)
    requires c !in s
    ensures c !in TrimNewlines(s) && |TrimNewlines(s)| <= |s|
  {
    SkipAvoids(s, c);
    DropAvoids(SkipChars(s, "\n"), c);
  }

  lemma {:induction false} SkipAvoids(s: string, c: char)
    requires c !in s
    ensures c !in SkipChars(s, "\n")
    decreases |s|
  {
    if s != "" && s[0] in "\n" {
      SkipAvoids(s[1..], c);
    }
  }

  lemma {:induction false} DropAvoids(s: string, c: char)
    requires c !in s
    ensures c !in DropNewlines(s)
    decreases |s|
  {
    if s != "" && s[|s| - 1] == '\n' {
      DropAvoids(s[..|s| - 1], c);
    }
  }

  /** Speaker and text together hold nothing the payload does not. */
  lemma SpeakerAvoids(payload: string, c: char)
    requires c !in payload
    ensures c !in ExtractSpeaker(payload).0 && c !in ExtractSpeaker(payload).1
    ensures |ExtractSpeaker(payload).1| <= |payload|
  {
    hide IndexOf, Index, BlankSpan, LeadingTimestamp, TrimSpace, TrimSuffix;
    match VoiceTag(payload)
    case Some((name, after)) =>
      TrimAvoids(name, c);
      SuffixAvoids(after, c);
    case None =>
      var nl := IndexOf(payload, '\n');
      match NamePrefix(payload[..nl])
      case Some((name, line)) =>
        PrefixAvoids(payload[..nl], c);
        ConcatAvoids(line, payload[nl..], c);
      case None =>
  }

  lemma SuffixAvoids(s: string, c: char)
    requires c !in s
    ensures c !in TrimSuffix(s, "</v>") && |TrimSuffix(s, "</v>")| <= |s|
  {
  }

  lemma PrefixAvoids(line: string, c: char)
    requires c !in line && NamePrefix(line).Some?
    ensures c !in NamePrefix(line).value.0 && c !in NamePrefix(line).value.1
    ensures |NamePrefix(line).value.1| < |line|
  {
    hide TrimSpace, LeadingTimestamp, Index;
    var i := Index(line, ": ");
    TrimAvoids(line[..i], c);
    TrimAvoids(line[i + 2..], c);
    TrimLength(line[i + 2..]);
  }

  lemma TrimLength(s: string)
    ensures |TrimSpace(s)| <= |s|
  {
  }

  /** From a payload without an ampersand, decoding changes nothing on the way. */
  lemma PayloadUndecoded(start: int, end: int, payload: string, unescape: Unescape)
    requires LeavesPlain(unescape) && '&' !in payload
    requires ParsePayload(start, end, payload, unescape).Some?
    ensures var (speaker, cleaned) := ExtractSpeaker(payload);
      && ParsePayload(start, end, payload, unescape) ==
           Some(Segment(start, end, TrimSpace(StripTags(cleaned)), RemoveChars(speaker, "<>\n\r")))
      && TrimSpace(StripTags(cleaned)) != ""
  {
    hide ExtractSpeaker, StripTags, TrimSpace, RemoveChars;
    SpeakerAvoids(payload, '&');
  }

  /** The text of a cue is no longer than its payload, and has no other characters. */
  lemma PayloadBounds(start: int, end: int, payload: string, unescape: Unescape, c: char)
    requires LeavesPlain(unescape) && '&' !in payload && c !in payload
    requires ParsePayload(start, end, payload, unescape).Some?
    ensures var out := ParsePayload(start, end, payload, unescape).value;
      c !in out.text && |out.text| <= |ExtractSpeaker(payload).1| <= |payload|
  {
    hide ExtractSpeaker, StripTags, TrimSpace, RemoveChars, ParsePayload;
    PayloadUndecoded(start, end, payload, unescape);
    SpeakerAvoids(payload, c);
    var cleaned := ExtractSpeaker(payload).1;
    StripAvoids(cleaned, c);
    TrimAvoids(StripTags(cleaned), c);
    TrimLength(StripTags(cleaned));
  }

  lemma {:induction false} JoinLength(parts: seq<string>, rest: seq<string>)
    requires rest != []
    ensures |Join(rest, "\n")| <= |Join(parts + rest, "\n")|
    decreases |parts|
  {
    if parts == [] {
      assert parts + rest == rest;
    } else {
      JoinSplit(parts, rest, "\n");
    }
  }

  lemma BlockBounds(block: string, unescape: Unescape, c: char)
    requires LeavesPlain(unescape) && '&' !in block && c !in block && c != '\n'
    requires ParseBlock(block, unescape).Some?
    ensures var out := ParseBlock(block, unescape).value;
      c !in out.text && |out.text| <= |block|
  {
    hide TrimNewlines, SplitChar, ParseTimingLine, ParsePayload, Join, TrimSpace, IsSkippedBlock;
    var body := TrimNewlines(block);
    var lines := SplitChar(body, '\n');
    var idx := if ParseTimingLine(lines[0]).Some? then 0 else 1;
    var (start, end) := ParseTimingLine(lines[idx]).value;
    var payload := Join(lines[idx + 1..], "\n");
    TrimNewlinesAvoids(block, c);
    TrimNewlinesAvoids(block, '&');
    LaterLines(body, idx + 1, c);
    LaterLines(body, idx + 1, '&');
    PayloadBounds(start, end, payload, unescape, c);
  }

  lemma LaterLines(body: string, k: nat, c: char)
    requires c !in body && c != '\n' && k <= |SplitChar(body, '\n')|
    ensures var payload := Join(SplitChar(body, '\n')[k..], "\n");
      c !in payload && |payload| <= |body|
  {
    hide SplitChar, Join;
    var lines := SplitChar(body, '\n');
    SplitAvoids(body, '\n', c);
    SplitCharJoin(body, '\n');
    JoinAvoids(lines[k..], "\n", c);
    if k < |lines| {
      JoinLength(lines[..k], lines[k..]);
      assert lines[..k] + lines[k..] == lines;
    } else {
      NothingJoined("\n");
    }
  }

  // ----- what every parsed cue is like

  lemma {:induction false} TrimmedLeft(s: string)
    ensures TrimLeft(s) != "" ==> !IsSpace(TrimLeft(s)[0])
    decreases |s|
  {
    hide IsSpace;
    if s != "" && IsSpace(s[0]) {
      TrimmedLeft(s[1..]);
    }
  }

  lemma {:induction false} TrimmedRight(s: string)
    requires s != "" ==> !IsSpace(s[0])
    ensures TrimRight(s) != "" ==> Trimmed(TrimRight(s))
    decreases |s|
  {
    hide IsSpace;
    if s != "" && IsSpace(s[|s| - 1]) {
      TrimmedRight(s[..|s| - 1]);
    }
  }

  lemma TrimSpaceTrims(s: string)
    requires TrimSpace(s) != ""
    ensures Trimmed(TrimSpace(s))
  {
    hide IsSpace;
    TrimmedLeft(s);
    TrimmedRight(TrimLeft(s));
  }

  lemma {:induction false} RemovedGone(s: string, drop: string)
    ensures |RemoveChars(s, drop)| <= |s| && forall c :: c in RemoveChars(s, drop) ==> c !in drop
    decreases |s|
  {
    if s != "" {
      RemovedGone(s[1..], drop);
    }
  }

  lemma PayloadOutput(start: int, end: int, payload: string, unescape: Unescape)
    requires ParsePayload(start, end, payload, unescape).Some?
    ensures var out := ParsePayload(start, end, payload, unescape).value;
      Trimmed(out.text) && forall c :: c in out.speaker ==> c !in "<>\n\r"
  {
    hide ExtractSpeaker, StripTags, TrimSpace, RemoveChars;
    var (speaker, cleaned) := ExtractSpeaker(payload);
    TrimSpaceTrims(StripTags(unescape(cleaned)));
    RemovedGone(unescape(speaker), "<>\n\r");
  }

  lemma BlockOutput(block: string, unescape: Unescape)
    requires ParseBlock(block, unescape).Some?
    ensures var out := ParseBlock(block, unescape).value;
      Trimmed(out.text) && forall c :: c in out.speaker ==> c !in "<>\n\r"
  {
    hide TrimNewlines, SplitChar, ParseTimingLine, ParsePayload, Join, TrimSpace, IsSkippedBlock;
    var lines := SplitChar(TrimNewlines(block), '\n');
    var idx := if ParseTimingLine(lines[0]).Some? then 0 else 1;
    var (start, end) := ParseTimingLine(lines[idx]).value;
    PayloadOutput(start, end, Join(lines[idx + 1..], "\n"), unescape);
  }

  lemma {:induction false} FromSomeBlock(blocks: seq<string>, unescape: Unescape, seg: Segment)
    requires seg in ParseBlocks(blocks, unescape)
    ensures exists b :: b in blocks && ParseBlock(b, unescape) == Some(seg)
    decreases |blocks|
  {
    hide ParseBlock;
    if ParseBlock(blocks[0], unescape) != Some(seg) {
      FromSomeBlock(blocks[1..], unescape, seg);
    }
  }

  // ----- the file holds no ampersand, and after normalising no carriage return

  lemma {:induction false} CrLfAvoids(s: string, c: char)
    requires c !in s && c != '\n'
    ensures c !in ReplaceCrLf(s)
    decreases |s|
  {
    if |s| >= 2 && s[0] == '\r' && s[1] == '\n' {
      CrLfAvoids(s[2..], c);
    } else if s != "" {
      CrLfAvoids(s[1..], c);
    }
  }

  lemma {:induction false} CrAvoids(s: string, c: char)
    requires (c !in s || c == '\r') && c != '\n'
    ensures c !in ReplaceCr(s)
    decreases |s|
  {
    if s != "" {
      CrAvoids(s[1..], c);
    }
  }

  lemma NormalizedAvoids(raw: string)
    requires '&' !in raw
    ensures '&' !in Normalized(raw) && '\r' !in Normalized(raw)
  {
    hide ReplaceCrLf, ReplaceCr;
    var body := if "\U{FEFF}" <= raw then raw[1..] else raw;
    CrLfAvoids(body, '&');
    CrAvoids(ReplaceCrLf(body), '&');
    CrAvoids(ReplaceCrLf(body), '\r');
  }

  lemma CueAvoids(seg: Segment)
    requires Undecoded(seg)
    ensures '&' !in CueText(seg)
  {
    hide Time.Format;
    FormatIsText(seg.start);
    FormatIsText(seg.end);
    var a, b := Time.Format(seg.start), Time.Format(seg.end);
    assert '&' !in a && '&' !in b;
    PrintedFrom(a, b, seg);
    assert CueText(seg) == a + " --> " + b + "\n" + Payload(seg);
  }

  lemma {:induction false} CuesAvoid(segs: seq<Segment>)
    requires forall s :: s in segs ==> Undecoded(s)
    ensures '&' !in Cues(segs)
    decreases |segs|
  {
    hide CueText, Undecoded;
    if segs != [] {
      CueAvoids(segs[0]);
      CuesAvoid(segs[1..]);
      ConcatAvoids(CueText(segs[0]), "\n\n", '&');
      ConcatAvoids(CueText(segs[0]) + "\n\n", Cues(segs[1..]), '&');
    }
  }

  lemma PrintedFrom(a: string, b: string, seg: Segment)
    requires '&' !in a && '&' !in b && '&' !in seg.text && '&' !in seg.speaker
    ensures '&' !in a + " --> " + b + "\n" + Payload(seg)
  {
    ConcatAvoids(a, " --> ", '&');
    ConcatAvoids(a + " --> ", b, '&');
    ConcatAvoids(a + " --> " + b, "\n", '&');
    ConcatAvoids("<v ", seg.speaker, '&');
    ConcatAvoids("<v " + seg.speaker, ">", '&');
    ConcatAvoids(a + " --> " + b + "\n", Payload(seg), '&');
  }

  /** Every cue of a parsed file has trimmed text without carriage returns and a clean speaker. */
  lemma ParsedIsTidy(segs: seq<Segment>, unescape: Unescape, seg: Segment)
    requires LeavesPlain(unescape) && (forall s :: s in segs ==> Undecoded(s))
    requires ParsedFile(VttText(segs), unescape).Parsed? && seg in ParsedFile(VttText(segs), unescape).segments
    ensures Tidy(seg)
  {
    hide ParseBlock, ParseBlocks, Normalized, SplitBlank, Cues, Trimmed, Undecoded;
    var raw := VttText(segs);
    CuesAvoid(segs);
    ConcatAvoids("WEBVTT" + "\n\n", Cues(segs), '&');
    NormalizedAvoids(raw);
    var blocks := SplitBlank(Normalized(raw));
    assert seg in ParseBlocks(blocks, unescape);
    FromSomeBlock(blocks, unescape, seg);
    var b :| b in blocks && ParseBlock(b, unescape) == Some(seg);
    SplitBlankAvoids(Normalized(raw), '&');
    SplitBlankAvoids(Normalized(raw), '\r');
    BlockOutput(b, unescape);
    BlockBounds(b, unescape, '\r');
  }

  predicate Tidy(seg: Segment) {
    Trimmed(seg.text) && '\r' !in seg.text && forall c :: c in seg.speaker ==> c !in "<>\n\r"
  }

  lemma TidyClosed(seg: Segment)
    requires Undecoded(seg) && Tidy(seg)
    ensures Closed(seg)
  {
  }

  // ----- no text is ever added

  function TotalText(segs: seq<Segment>): nat {
    if segs == [] then 0 else |segs[0].text| + TotalText(segs[1..])
  }

  lemma {:induction false} TotalTextConcat(a: seq<Segment>, b: seq<Segment>)
    ensures TotalText(a + b) == TotalText(a) + TotalText(b)
    decreases |a|
  {
    if a == [] {
      assert a + b == b;
    } else {
      assert (a + b)[1..] == a[1..] + b;
      TotalTextConcat(a[1..], b);
    }
  }

  /** Separators aside, the blocks are as long as what was split, so all text they yield fits. */
  lemma {:induction false} SplitTotal(s: string, unescape: Unescape)
    requires LeavesPlain(unescape) && '&' !in s
    ensures TotalText(ParseBlocks(SplitBlank(s), unescape)) <= |s|
    decreases |s|
  {
    hide ParseBlock, Index, LeavesPlain;
    var i := Index(s, "\n\n");
    if i < 0 {
      BlockTotal(s, [], unescape);
    } else {
      SplitTotal(s[i + 2..], unescape);
      BlockTotal(s[..i], SplitBlank(s[i + 2..]), unescape);
    }
  }

  lemma BlockTotal(block: string, later: seq<string>, unescape: Unescape)
    requires LeavesPlain(unescape) && '&' !in block
    ensures TotalText(ParseBlocks([block] + later, unescape)) <= |block| + TotalText(ParseBlocks(later, unescape))
    ensures later == [] ==> [block] + later == [block] && TotalText(ParseBlocks([block], unescape)) <= |block|
  {
    hide ParseBlock, LeavesPlain;
    var blocks := [block] + later;
    assert blocks[0] == block && blocks[1..] == later;
    if ParseBlock(block, unescape).Some? {
      BlockBounds(block, unescape, '&');
    }
  }

  /** A cue whose text has a blank line yields less text than it has. */
  lemma BlankLineShortens(seg: Segment, unescape: Unescape)
    requires LeavesPlain(unescape) && Undecoded(seg) && Tidy(seg) && !NoBlankLine(seg.text)
    ensures TotalText(Yield(seg, unescape)) < |seg.text|
  {
    hide ParseBlock, SplitBlank, CueText, NoBlankLine, ParseBlocks, LeavesPlain, TotalText;
    var i := FirstBlankLine(seg.text);
    var front, back := seg.text[..i], seg.text[i + 2..];
    assert seg.text == front + "\n\n" + back;
    assert front != "" && front[0] != '\n' by { assert seg.text[0] != '\n'; }
    var cut := seg.(text := front);
    assert Shaped(cut);
    PrintedCut(seg, front, back);
    CueShape(cut);
    SplitBlankCons(CueText(cut), back);
    OneBlock(CueText(cut));
    ParseBlocksConcat([CueText(cut)], SplitBlank(back), unescape);
    ShapedYield(cut, unescape);
    PayloadTotal(cut, unescape);
    SplitTotal(back, unescape);
    TotalTextConcat(Yield(cut, unescape), ParseBlocks(SplitBlank(back), unescape));
  }

  /** A payload yields no more text than was printed into it. */
  lemma PayloadTotal(seg: Segment, unescape: Unescape)
    requires LeavesPlain(unescape) && '&' !in seg.text && '&' !in seg.speaker
    requires forall c :: c in seg.speaker ==> c !in "<>\n\r"
    ensures TotalText(AsList(ParsePayload(seg.start, seg.end, Payload(seg), unescape))) <= |seg.text|
  {
    hide ParsePayload, Payload, LeavesPlain;
    if ParsePayload(seg.start, seg.end, Payload(seg), unescape).Some? {
      FrontIsShorter(seg, unescape);
      var out := ParsePayload(seg.start, seg.end, Payload(seg), unescape).value;
      assert [out][1..] == [];
    }
  }

  lemma PrintedCut(seg: Segment, front: string, back: string)
    requires seg.text == front + "\n\n" + back
    ensures CueText(seg) == CueText(seg.(text := front)) + "\n\n" + back
  {
    hide Time.Format;
    var head := TimingLine(seg) + "\n" + if seg.speaker != "" then "<v " + seg.speaker + ">" else "";
    assert CueText(seg) == head + (front + "\n\n" + back);
    assert CueText(seg.(text := front)) == head + front;
    assert head + (front + "\n\n" + back) == head + front + "\n\n" + back;
  }

  /** The text read from a payload is no longer than the text printed into it. */
  lemma FrontIsShorter(seg: Segment, unescape: Unescape)
    requires LeavesPlain(unescape) && '&' !in seg.text && '&' !in seg.speaker
    requires forall c :: c in seg.speaker ==> c !in "<>\n\r"
    requires ParsePayload(seg.start, seg.end, Payload(seg), unescape).Some?
    ensures |ParsePayload(seg.start, seg.end, Payload(seg), unescape).value.text| <= |seg.text|
  {
    hide ParsePayload, ExtractSpeaker;
    PayloadAvoids(seg);
    PayloadBounds(seg.start, seg.end, Payload(seg), unescape, '&');
    if seg.speaker != "" {
      var k := VoiceExtracted(seg.speaker, seg.text);
    }
  }

  lemma PayloadAvoids(seg: Segment)
    requires '&' !in seg.text && '&' !in seg.speaker
    ensures '&' !in Payload(seg)
  {
    ConcatAvoids("<v ", seg.speaker, '&');
    ConcatAvoids("<v " + seg.speaker, ">", '&');
  }

  /** Any speaker that does not end its own tag is found, less blanks at its ends. */
  lemma VoiceExtracted(speaker: string, text: string) returns (k: nat)
    requires speaker != "" && '>' !in speaker
    ensures k < |speaker|
    ensures ExtractSpeaker("<v " + speaker + ">" + text) == (TrimSpace(speaker[k..]), TrimSuffix(text, "</v>"))
  {
    hide TrimSpace, TrimSuffix, NamePrefix, IndexOf, BlankSpan;
    var s := "<v " + speaker + ">" + text;
    var body := " " + speaker;
    assert s[2..] == body + ">" + text;
    IndexOfAfter(body, '>', text);
    assert s[2..][..|body|] == body && s[2..][|body| + 1..] == text;
    var span := BlankSpan(body);
    assert span >= 1 by { assert body[0] == ' '; BlankFirst(body); }
    var blanks := if span < |body| then span else |body| - 1;
    k := blanks - 1;
    assert body[blanks..] == speaker[k..];
    assert VoiceTag(s) == Some((speaker[k..], text));
  }

  lemma BlankFirst(body: string)
    requires body != "" && body[0] == ' '
    ensures BlankSpan(body) >= 1
  {
  }

  // ----- the payload itself

  lemma {:induction false} StripSame(s: string)
    requires |StripTags(s)| == |s|
    ensures StripTags(s) == s
    decreases |s|
  {
    hide TagLength;
    if s != "" {
      assert TagLength(s) == 0;
      StripSame(s[1..]);
      assert s == [s[0]] + s[1..];
    }
  }

  lemma TrimSame(s: string)
    requires |TrimSpace(s)| == |s|
    ensures TrimSpace(s) == s && (s != "" ==> Trimmed(s))
  {
    if s != "" {
      TrimSpaceTrims(s);
    }
  }

  /** When text comes back at full length, stripping and trimming did nothing. */
  lemma FullLength(cleaned: string, text: string)
    requires TrimSpace(StripTags(cleaned)) == text && |cleaned| <= |text|
    ensures cleaned == text && StripTags(text) == text
  {
    hide TrimSpace, StripTags;
    TrimLength(StripTags(cleaned));
    StripSame(cleaned);
    TrimSame(cleaned);
  }

  lemma SpeakerReturns(seg: Segment, unescape: Unescape)
    requires LeavesPlain(unescape) && '&' !in seg.text && '&' !in seg.speaker
    requires seg.speaker != "" && forall c :: c in seg.speaker ==> c !in "<>\n\r"
    requires ParsePayload(seg.start, seg.end, Payload(seg), unescape) == Some(seg)
    ensures StripTags(seg.text) == seg.text && Trimmed(seg.speaker)
  {
    hide ParsePayload, ExtractSpeaker, StripTags, TrimSpace, RemoveChars, Trimmed;
    PayloadAvoids(seg);
    PayloadUndecoded(seg.start, seg.end, Payload(seg), unescape);
    var k := VoiceExtracted(seg.speaker, seg.text);
    SuffixAvoids(seg.text, '&');
    FullLength(TrimSuffix(seg.text, "</v>"), seg.text);
    var name := TrimSpace(seg.speaker[k..]);
    RemovedGone(name, "<>\n\r");
    TrimLength(seg.speaker[k..]);
    assert k == 0 && seg.speaker[k..] == seg.speaker;
    TrimSame(seg.speaker);
  }

  lemma SilentReturns(seg: Segment, unescape: Unescape)
    requires LeavesPlain(unescape) && '&' !in seg.text && seg.speaker == ""
    requires ParsePayload(seg.start, seg.end, seg.text, unescape) == Some(seg)
    ensures StripTags(seg.text) == seg.text && NamePrefix(seg.text[..IndexOf(seg.text, '\n')]).None?
  {
    hide ParsePayload, ExtractSpeaker, StripTags, TrimSpace, RemoveChars, NamePrefix;
    PayloadUndecoded(seg.start, seg.end, seg.text, unescape);
    SpeakerAvoids(seg.text, '&');
    FullLength(ExtractSpeaker(seg.text).1, seg.text);
    KeptWhole(seg.text);
  }

  /** Text that is taken whole held neither a voice tag nor a name. */
  lemma KeptWhole(text: string)
    requires ExtractSpeaker(text).1 == text && '&' !in text
    ensures NamePrefix(text[..IndexOf(text, '\n')]).None?
  {
    hide IndexOf, BlankSpan, TrimSuffix, NamePrefix;
    var nl := IndexOf(text, '\n');
    if VoiceTag(text).Some? {
      SuffixAvoids(VoiceTag(text).value.1, '&');
    } else if NamePrefix(text[..nl]).Some? {
      PrefixAvoids(text[..nl], '&');
    }
  }

  // ----- the exact condition

  lemma CleanIsStorable(seg: Segment, unescape: Unescape)
    requires LeavesPlain(unescape) && Undecoded(seg) && Clean(seg)
    ensures Storable(seg, unescape)
  {
    hide StripTags, NamePrefix;
  }

  /** A tidy cue yields at most its own text; all of it only in one piece. */
  lemma TidyYield(seg: Segment, unescape: Unescape)
    requires LeavesPlain(unescape) && Undecoded(seg) && Tidy(seg)
    ensures TotalText(Yield(seg, unescape)) <= |seg.text|
    ensures TotalText(Yield(seg, unescape)) == |seg.text| ==>
      && NoBlankLine(seg.text)
      && ParsePayload(seg.start, seg.end, Payload(seg), unescape).Some?
      && Yield(seg, unescape) == [ParsePayload(seg.start, seg.end, Payload(seg), unescape).value]
  {
    hide Yield, ParsePayload, Payload, LeavesPlain, NoBlankLine;
    if NoBlankLine(seg.text) {
      ShapedYield(seg, unescape);
      PayloadTotal(seg, unescape);
    } else {
      BlankLineShortens(seg, unescape);
    }
  }

  /** A tidy cue whose payload parses to the cue itself is clean. */
  lemma ReturnedIsClean(seg: Segment, unescape: Unescape)
    requires LeavesPlain(unescape) && Undecoded(seg) && Tidy(seg) && NoBlankLine(seg.text)
    requires ParsePayload(seg.start, seg.end, Payload(seg), unescape) == Some(seg)
    ensures Clean(seg)
  {
    hide ParsePayload, StripTags, NamePrefix, LeavesPlain;
    if seg.speaker == "" {
      assert Payload(seg) == seg.text;
      SilentReturns(seg, unescape);
    } else {
      SpeakerReturns(seg, unescape);
    }
  }

  lemma {:induction false} YieldsTotal(segs: seq<Segment>, unescape: Unescape)
    requires LeavesPlain(unescape) && forall s :: s in segs ==> Undecoded(s) && Tidy(s)
    ensures TotalText(Yields(segs, unescape)) <= TotalText(segs)
    decreases |segs|
  {
    hide Yield, LeavesPlain, Undecoded, Tidy;
    if segs != [] {
      YieldsTotal(segs[1..], unescape);
      TidyYield(segs[0], unescape);
      TotalTextConcat(Yield(segs[0], unescape), Yields(segs[1..], unescape));
    }
  }

  /** When a list of tidy cues comes back, no text is missing anywhere, so each cue came back. */
  lemma {:induction false} EachCameBack(segs: seq<Segment>, unescape: Unescape)
    requires LeavesPlain(unescape) && forall s :: s in segs ==> Undecoded(s) && Tidy(s)
    requires Yields(segs, unescape) == segs
    ensures forall s :: s in segs ==> Clean(s)
    decreases |segs|
  {
    hide Yield, LeavesPlain, Undecoded, Tidy, Clean, NoBlankLine, ParsePayload, Payload;
    if segs != [] {
      var first, later := Yield(segs[0], unescape), Yields(segs[1..], unescape);
      TidyYield(segs[0], unescape);
      YieldsTotal(segs[1..], unescape);
      TotalTextConcat(first, later);
      assert TotalText(first) == |segs[0].text|;
      assert segs[0] == (first + later)[0] == first[0] && segs[1..] == (first + later)[1..] == later;
      ReturnedIsClean(segs[0], unescape);
      EachCameBack(segs[1..], unescape);
      assert segs == [segs[0]] + segs[1..];
    }
  }

  /** A transcript without ampersands comes back from its printed form exactly when it has a cue
      and all its cues are clean. */
  lemma ComesBackExactly(segs: seq<Segment>, unescape: Unescape)
    requires LeavesPlain(unescape) && forall s :: s in segs ==> Undecoded(s)
    ensures ParsedFile(VttText(segs), unescape) == Parsed(segs) <==> segs != [] && forall s :: s in segs ==> Clean(s)
  {
    hide ParsedFile, VttText, Clean, Undecoded, Yields, Tidy, Closed, LeavesPlain;
    if segs == [] {
      FileYields(segs, unescape);
      assert Yields([], unescape) == [] by { NoYields(unescape); }
    } else if forall s :: s in segs ==> Clean(s) {
      forall i | 0 <= i < |segs| ensures Storable(segs[i], unescape) {
        CleanIsStorable(segs[i], unescape);
      }
      ParsePrinted(segs, unescape);
    } else if ParsedFile(VttText(segs), unescape) == Parsed(segs) {
      forall s | s in segs ensures Tidy(s) && Closed(s) {
        ParsedIsTidy(segs, unescape, s);
        TidyClosed(s);
      }
      FileYields(segs, unescape);
      EachCameBack(segs, unescape);
    }
  }

  lemma NoYields(unescape: Unescape)
    ensures Yields([], unescape) == []
  {
  }
}
