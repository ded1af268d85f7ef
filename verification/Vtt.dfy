/** WebVTT transcripts: the printer, and the tolerant parser for files from other programs.
    Text is a sequence of characters, times are in milliseconds. Decoding HTML entities is
    another library's work: it is a parameter here. */
module Vtt {
  import opened Options
  import opened Text
  import Time = VttTime
  import D = Decimal

  datatype Segment = Segment(start: int, end: int, text: string, speaker: string)

  datatype ParseResult = Parsed(segments: seq<Segment>) | MissingSignature | MalformedSignature | NoCues

  type Unescape = string -> string

  // ----- printing

  function TimingLine(seg: Segment): string {
    Time.Format(seg.start) + " --> " + Time.Format(seg.end)
  }

  function Payload(seg: Segment): string {
    (if seg.speaker != "" then "<v " + seg.speaker + ">" else "") + seg.text
  }

  function CueText(seg: Segment): string {
    TimingLine(seg) + "\n" + Payload(seg)
  }

  function Cues(segs: seq<Segment>): string {
    if segs == [] then "" else CueText(segs[0]) + "\n\n" + Cues(segs[1..])
  }

  function VttText(segs: seq<Segment>): string {
    "WEBVTT" + "\n\n" + Cues(segs)
  }

  lemma Append(a: string, b: string, c: string)
    ensures a + b + c == a + (b + c)
  {
  }

  method SegmentsToVtt(segs: seq<Segment>) returns (text: string)
    ensures text == VttText(segs)
  {
    hide CueText;
    text := "WEBVTT" + "\n\n";
    for i := 0 to |segs|
      invariant text + Cues(segs[i..]) == VttText(segs)
    {
      assert segs[i..][0] == segs[i] && segs[i..][1..] == segs[i + 1..];
      Append(text, CueText(segs[i]) + "\n\n", Cues(segs[i + 1..]));
      text := WriteCue(text, segs[i]);
    }
    assert segs[|segs|..] == [];
  }

  /** The body of the printing loop, on the text written so far. */
  method WriteCue(before: string, seg: Segment) returns (text: string)
    ensures text == before + (CueText(seg) + "\n\n")
  {
    hide Time.Format;
    var start, end := Time.Format(seg.start), Time.Format(seg.end);
    text := before + start;
    text := text + " --> ";
    Append(before, start, " --> ");
    text := text + end;
    Append(before, start + " --> ", end);
    text := text + "\n";
    ghost var line := start + " --> " + end + "\n";
    Append(before, start + " --> " + end, "\n");
    assert text == before + line;
    if seg.speaker != "" {
      ghost var at := text;
      text := text + "<v ";
      text := text + seg.speaker;
      Append(at, "<v ", seg.speaker);
      text := text + ">";
      Append(at, "<v " + seg.speaker, ">");
      Append(before, line, "<v " + seg.speaker + ">");
    }
    ghost var tag := if seg.speaker != "" then "<v " + seg.speaker + ">" else "";
    assert text == before + (line + tag);
    text := text + seg.text;
    Append(before, line + tag, seg.text);
    Append(line, tag, seg.text);
    assert text == before + CueText(seg);
    text := text + "\n\n";
    Append(before, CueText(seg), "\n\n");
  }

  // ----- Go's string functions

  /** unicode.IsSpace */
  predicate IsSpace(c: char) {
    || c in "\t\n\r \U{000B}\U{000C}\U{0085}\U{00A0}\U{1680}\U{2028}\U{2029}\U{202F}\U{205F}\U{3000}"
    || '\U{2000}' <= c <= '\U{200A}'
  }

  function TrimLeft(s: string): (r: string)
    ensures |r| <= |s|
  {
    if s != "" && IsSpace(s[0]) then TrimLeft(s[1..]) else s
  }

  function TrimRight(s: string): (r: string)
    ensures |r| <= |s|
  {
    if s != "" && IsSpace(s[|s| - 1]) then TrimRight(s[..|s| - 1]) else s
  }

  /** strings.TrimSpace */
  function TrimSpace(s: string): string {
    TrimRight(TrimLeft(s))
  }

  function SkipChars(s: string, skip: string): (r: string)
    ensures |r| <= |s|
  {
    if s != "" && s[0] in skip then SkipChars(s[1..], skip) else s
  }

  function DropNewlines(s: string): (r: string)
    ensures |r| <= |s|
  {
    if s != "" && s[|s| - 1] == '\n' then DropNewlines(s[..|s| - 1]) else s
  }

  /** strings.Trim(s, "\n") */
  function TrimNewlines(s: string): string {
    DropNewlines(SkipChars(s, "\n"))
  }

  /** strings.Index: the first place where pat occurs, or -1. */
  function Index(s: string, pat: string): (i: int)
    requires pat != ""
    ensures -1 <= i && (i >= 0 ==> i + |pat| <= |s| && s[i..i + |pat|] == pat)
  {
    if s == "" then -1
    else if pat <= s then 0
    else
      var i := Index(s[1..], pat);
      if i < 0 then -1 else
        assert s[1..][i..i + |pat|] == s[i + 1..i + 1 + |pat|];
        i + 1
  }

  /** strings.Split(s, "\n\n") */
  function SplitBlank(s: string): (parts: seq<string>)
    ensures parts != []
    decreases |s|
  {
    var i := Index(s, "\n\n");
    if i < 0 then [s] else [s[..i]] + SplitBlank(s[i + 2..])
  }

  /** The first of strings.Fields, or nothing. */
  function FirstField(s: string): string {
    var t := TrimLeft(s);
    t[..WordLength(t)]
  }

  function WordLength(s: string): (n: nat)
    ensures n <= |s|
  {
    if s == "" || IsSpace(s[0]) then 0 else 1 + WordLength(s[1..])
  }

  function ReplaceCrLf(s: string): string {
    if |s| >= 2 && s[0] == '\r' && s[1] == '\n' then "\n" + ReplaceCrLf(s[2..])
    else if s == "" then ""
    else [s[0]] + ReplaceCrLf(s[1..])
  }

  function ReplaceCr(s: string): string {
    if s == "" then "" else [if s[0] == '\r' then '\n' else s[0]] + ReplaceCr(s[1..])
  }

  function RemoveChars(s: string, drop: string): string {
    if s == "" then "" else (if s[0] in drop then "" else [s[0]]) + RemoveChars(s[1..], drop)
  }

  // ----- the pieces of the parser

  function ParseTimingLine(line: string): Option<(int, int)> {
    var i := Index(line, "-->");
    if i < 0 then None
    else
      var endField := FirstField(TrimSpace(line[i + 3..]));
      if endField == "" then None
      else
        var s, e := Time.Parse(TrimSpace(line[..i])), Time.Parse(endField);
        if s.None? || e.None? then None else Some((s.value, e.value))
  }

  function BlankSpan(s: string): (n: nat)
    ensures n <= |s|
  {
    if s != "" && IsBlank(s[0]) then 1 + BlankSpan(s[1..]) else 0
  }

  /** ^<v\s+([^>]+)> : the name in the tag and the text after it. */
  function VoiceTag(s: string): Option<(string, string)> {
    if !("<v" <= s) then None
    else
      var gt := IndexOf(s[2..], '>');
      if gt == |s[2..]| then None
      else
        var body := s[2..][..gt];
        // The blanks take as much as they can while leaving the name one character.
        var blanks := if BlankSpan(body) < |body| then BlankSpan(body) else |body| - 1;
        if blanks < 1 then None else Some((body[blanks..], s[2..][gt + 1..]))
  }

  function TrimSuffix(s: string, suffix: string): string {
    if |s| >= |suffix| && s[|s| - |suffix|..] == suffix then s[..|s| - |suffix|] else s
  }

  /** ^\d{1,2}:\d{2} */
  predicate LeadingTimestamp(s: string) {
    || (|s| >= 4 && D.AllDigits(s[..1]) && s[1] == ':' && D.AllDigits(s[2..4]))
    || (|s| >= 5 && D.AllDigits(s[..2]) && s[2] == ':' && D.AllDigits(s[3..5]))
  }

  /** The "Name: " prefix of a payload's first line, with the rest of the line. */
  function NamePrefix(firstLine: string): Option<(string, string)> {
    var i := Index(firstLine, ": ");
    if i <= 0 then None
    else
      var name := TrimSpace(firstLine[..i]);
      if name != "" && '<' !in name && '>' !in name && !LeadingTimestamp(name) then
        Some((name, TrimSpace(firstLine[i + 2..])))
      else None
  }

  function ExtractSpeaker(text: string): (string, string) {
    match VoiceTag(text)
    case Some((name, after)) => (TrimSpace(name), TrimSuffix(after, "</v>"))
    case None =>
      var nl := IndexOf(text, '\n');
      match NamePrefix(text[..nl])
      case Some((name, line)) => (name, line + text[nl..])
      case None => ("", text)
  }

  function SanitizeSpeaker(speaker: string, unescape: Unescape): string {
    RemoveChars(unescape(speaker), "<>\n\r")
  }

  /** Length of the tag at the start of s: </?[a-zA-Z][^>]*> or <\d{2,}:[0-5]\d:[0-5]\d\.\d{3}>. */
  function TagLength(s: string): (n: nat)
    ensures n <= |s|
  {
    if s == "" || s[0] != '<' then 0
    else
      var j := if |s| > 1 && s[1] == '/' then 2 else 1;
      if j < |s| && IsLetter(s[j]) then
        var gt := IndexOf(s[j + 1..], '>');
        if gt < |s[j + 1..]| then j + 1 + gt + 1 else 0
      else ClockTagLength(s)
  }

  function ClockTagLength(s: string): (n: nat)
    requires s != "" && s[0] == '<'
    ensures n <= |s|
  {
    var d := D.DigitSpan(s[1..]);
    var t := s[1 + d..];
    if d >= 2 && |t| >= 11 && t[0] == ':' && '0' <= t[1] <= '5' && D.IsDigit(t[2])
       && t[3] == ':' && '0' <= t[4] <= '5' && D.IsDigit(t[5]) && t[6] == '.'
       && D.AllDigits(t[7..10]) && t[10] == '>'
    then 1 + d + 11 else 0
  }

  function StripTags(s: string): (r: string)
    ensures |r| <= |s|
    decreases |s|
  {
    if s == "" then ""
    else
      var n := TagLength(s);
      if n > 0 then StripTags(s[n..]) else [s[0]] + StripTags(s[1..])
  }

  predicate IsSkippedBlock(first: string) {
    "WEBVTT" <= first || "NOTE" <= first || "STYLE" <= first || "REGION" <= first
  }

  function ParseBlock(block: string, unescape: Unescape): Option<Segment> {
    var lines := SplitChar(TrimNewlines(block), '\n');
    if IsSkippedBlock(TrimSpace(lines[0])) then None
    else
      var idx := if ParseTimingLine(lines[0]).Some? then 0 else 1;
      if idx >= |lines| then None
      else match ParseTimingLine(lines[idx])
        case None => None
        case Some((start, end)) => ParsePayload(start, end, Join(lines[idx + 1..], "\n"), unescape)
  }

  function ParsePayload(start: int, end: int, payload: string, unescape: Unescape): Option<Segment> {
    if TrimSpace(payload) == "" then None
    else
      var (speaker, cleaned) := ExtractSpeaker(payload);
      var text := TrimSpace(StripTags(unescape(cleaned)));
      if text == "" then None else Some(Segment(start, end, text, SanitizeSpeaker(speaker, unescape)))
  }

  function ParseBlocks(blocks: seq<string>, unescape: Unescape): seq<Segment> {
    if blocks == [] then []
    else
      var rest := ParseBlocks(blocks[1..], unescape);
      match ParseBlock(blocks[0], unescape)
      case None => rest
      case Some(seg) => [seg] + rest
  }

  /** The file with its byte-order mark dropped and its line ends made uniform. */
  function Normalized(raw: string): string {
    ReplaceCr(ReplaceCrLf(if "\U{FEFF}" <= raw then raw[1..] else raw))
  }

  function Signature(text: string): Option<ParseResult> {
    var trimmed := SkipChars(text, " \t");
    if !("WEBVTT" <= trimmed) then Some(MissingSignature)
    else
      var after := trimmed[6..];
      if after != "" && after[0] !in "\n \t" then Some(MalformedSignature) else None
  }

  /** What parsing a file gives. */
  function ParsedFile(raw: string, unescape: Unescape): ParseResult {
    var text := Normalized(raw);
    match Signature(text)
    case Some(refusal) => refusal
    case None =>
      var segments := ParseBlocks(SplitBlank(text), unescape);
      if segments == [] then NoCues else Parsed(segments)
  }

  lemma NoBlocks(blocks: seq<string>, unescape: Unescape)
    ensures blocks[|blocks|..] == [] && ParseBlocks([], unescape) == []
  {
  }

  lemma BlocksStep(blocks: seq<string>, i: nat, unescape: Unescape)
    requires i < |blocks|
    ensures ParseBlocks(blocks[i..], unescape) ==
            match ParseBlock(blocks[i], unescape)
            case None => ParseBlocks(blocks[i + 1..], unescape)
            case Some(seg) => [seg] + ParseBlocks(blocks[i + 1..], unescape)
  {
    hide ParseBlock;
    assert blocks[i..][0] == blocks[i] && blocks[i..][1..] == blocks[i + 1..];
  }

  method ParseVtt(raw: string, unescape: Unescape) returns (r: ParseResult)
    ensures r == ParsedFile(raw, unescape)
  {
    hide TrimNewlines, SplitChar, TrimSpace, ParseTimingLine, Join, ExtractSpeaker, SanitizeSpeaker, StripTags;
    hide ReplaceCrLf, ReplaceCr, SplitBlank, Signature, IsSkippedBlock, ParseBlocks;
    var text := raw;
    if "\U{FEFF}" <= text {
      text := text[1..];
    }
    text := ReplaceCrLf(text);
    text := ReplaceCr(text);
    var refusal := Signature(text);
    if refusal.Some? {
      return refusal.value;
    }
    var blocks := SplitBlank(text);
    var segments: seq<Segment> := [];
    assert blocks[0..] == blocks;
    for i := 0 to |blocks|
      invariant segments + ParseBlocks(blocks[i..], unescape) == ParseBlocks(blocks, unescape)
    {
      BlocksStep(blocks, i, unescape);
      var lines := SplitChar(TrimNewlines(blocks[i]), '\n');
      var first := TrimSpace(lines[0]);
      if IsSkippedBlock(first) {
        continue;
      }
      var idx := 0;
      if ParseTimingLine(lines[idx]).None? {
        idx := idx + 1;
      }
      if idx >= |lines| {
        continue;
      }
      var timing := ParseTimingLine(lines[idx]);
      if timing.None? {
        continue;
      }
      var payload := Join(lines[idx + 1..], "\n");
      if TrimSpace(payload) == "" {
        continue;
      }
      var (speaker, cleaned) := ExtractSpeaker(payload);
      speaker := SanitizeSpeaker(speaker, unescape);
      cleaned := unescape(cleaned);
      cleaned := StripTags(cleaned);
      cleaned := TrimSpace(cleaned);
      if cleaned == "" {
        continue;
      }
      segments := segments + [Segment(timing.value.0, timing.value.1, cleaned, speaker)];
    }
    assert ParseBlocks(blocks[|blocks|..], unescape) == [] by { NoBlocks(blocks, unescape); }
    if |segments| == 0 {
      return NoCues;
    }
    return Parsed(segments);
  }
}
