/** Files from other programs: transcripts with identifiers, settings, notes, style sheets, other
    line ends, a byte-order mark, shorter times, closing tags and names before a colon are read as
    what they say. */
module VttFile {
  import opened Options
  import opened Text
  import opened Vtt
  import opened VttRoundTrip
  import opened VttExact
  import Time = VttTime
  import D = Decimal

  // ----- what such a file looks like

  /** A time with or without hours. */
  datatype Clock = Clock(hours: string, minutes: string, seconds: string, millis: string)

  function ClockString(c: Clock): string {
    (if c.hours == "" then "" else c.hours + ":") + c.minutes + ":" + c.seconds + "." + c.millis
  }

  predicate Legible(c: Clock) {
    && (c.hours == "" || Time.Numeral(c.hours)) && Time.Numeral(c.minutes)
    && Time.Numeral(c.seconds) && Time.Numeral(c.millis) && |c.millis| == 3
  }

  function Milliseconds(c: Clock): int
    requires Legible(c)
  {
    3600000 * (if c.hours == "" then 0 else D.Value(c.hours)) + 60000 * D.Value(c.minutes)
      + 1000 * D.Value(c.seconds) + D.Value(c.millis)
  }

  /** How the speaker is given: in a tag, with or without its end, before a colon, or not at all. */
  datatype Voice = Tagged(blanks: string, name: string, closed: bool) | Named(name: string) | Unnamed

  datatype Block =
    | Skipped(text: string)
    | Untimed(text: string)
    | Cue(id: string, start: Clock, before: string, after: string, end: Clock, settings: string, voice: Voice, body: string)

  function PayloadString(voice: Voice, body: string): string {
    match voice
    case Tagged(blanks, name, closed) => "<v" + blanks + name + ">" + (body + if closed then "</v>" else "")
    case Named(name) => name + ": " + body
    case Unnamed => body
  }

  function TimingString(b: Block): string
    requires b.Cue?
  {
    ClockString(b.start) + b.before + "-->" + (b.after + (ClockString(b.end) + b.settings))
  }

  function CueString(b: Block): string
    requires b.Cue?
  {
    TimingString(b) + "\n" + PayloadString(b.voice, b.body)
  }

  function BlockString(b: Block): string {
    match b
    case Skipped(text) => text
    case Untimed(text) => text
    case Cue(id, _, _, _, _, _, _, _) => if id == "" then CueString(b) else id + "\n" + CueString(b)
  }

  function BlockStrings(bs: seq<Block>): string {
    if bs == [] then "" else BlockString(bs[0]) + "\n\n" + BlockStrings(bs[1..])
  }

  /** Blanks, the signature, whatever else is on it, and the blocks. */
  function FileString(lead: string, title: string, bs: seq<Block>): string {
    lead + "WEBVTT" + title + "\n\n" + BlockStrings(bs)
  }

  datatype LineEnd = LF | CRLF | CR

  function WithLineEnds(s: string, e: LineEnd): string {
    if s == "" then ""
    else (if s[0] == '\n' then match e case LF => "\n" case CRLF => "\r\n" case CR => "\r" else [s[0]]) + WithLineEnds(s[1..], e)
  }

  function Stored(s: string, bom: bool, e: LineEnd): string {
    (if bom then "\U{FEFF}" else "") + WithLineEnds(s, e)
  }

  // ----- what is allowed in it

  predicate Gap(s: string) {
    forall c :: c in s ==> IsSpace(c) && c != '\n' && c != '\r'
  }

  predicate OneLine(s: string) {
    '\n' !in s && '\r' !in s
  }

  /** A line that is neither a timing line nor the start of a block to skip. */
  predicate Identifier(id: string) {
    && OneLine(id) && ParseTimingLine(id).None?
    && var t := TrimSpace(id); !("WEBVTT" <= t) && !("NOTE" <= t) && !("STYLE" <= t) && !("REGION" <= t)
  }

  predicate Settings(s: string) {
    OneLine(s) && (s != "" ==> IsSpace(s[0]))
  }

  predicate Speakable(voice: Voice, body: string) {
    match voice
    case Tagged(blanks, name, closed) =>
      && blanks != "" && (forall c :: c in blanks ==> IsBlank(c)) && OneLine(blanks)
      && Trimmed(name) && '>' !in name && OneLine(name)
      && (!closed ==> TrimSuffix(body, "</v>") == body)
    case Named(name) =>
      && Trimmed(name) && OneLine(name) && ':' !in name && '<' !in name && '>' !in name && !LeadingTimestamp(name)
    case Unnamed => VoiceTag(body).None? && NamePrefix(body[..IndexOf(body, '\n')]).None?
  }

  predicate Allowed(b: Block) {
    match b
    case Skipped(text) =>
      && NoBlankLine(text) && '\r' !in text
      && (text != "" ==> text[|text| - 1] != '\n' && ("NOTE" <= text || "STYLE" <= text || "REGION" <= text))
    case Untimed(text) =>
      && NoBlankLine(text) && '\r' !in text && '>' !in text
      && text != "" && text[0] != '\n' && text[|text| - 1] != '\n'
    case Cue(id, start, before, after, end, settings, voice, body) =>
      && (id != "" ==> Identifier(id))
      && Legible(start) && Legible(end) && Gap(before) && Gap(after) && Settings(settings)
      && Trimmed(body) && NoBlankLine(body) && '\r' !in body && Speakable(voice, body)
  }

  predicate Title(title: string) {
    && (title != "" ==> title[0] in "\n \t" && title[|title| - 1] != '\n')
    && NoBlankLine(title) && '\r' !in title
  }

  predicate Lead(lead: string) {
    forall c :: c in lead ==> c == ' ' || c == '\t'
  }

  // ----- what it says

  /** The words of a payload once the speaker is taken off. */
  function Words(voice: Voice, body: string): string {
    match voice
    case Named(_) => TrimSpace(body[..IndexOf(body, '\n')]) + body[IndexOf(body, '\n')..]
    case _ => body
  }

  function SpeakerName(voice: Voice): string {
    match voice
    case Tagged(_, name, _) => name
    case Named(name) => name
    case Unnamed => ""
  }

  /** Entities are decoded before tags are taken out, and a cue of no words is dropped. */
  function Meaning(b: Block, unescape: Unescape): seq<Segment>
    requires Allowed(b)
  {
    match b
    case Skipped(_) => []
    case Untimed(_) => []
    case Cue(_, start, _, _, end, _, voice, body) =>
      var text := TrimSpace(StripTags(unescape(Words(voice, body))));
      if text == "" then []
      else [Segment(Milliseconds(start), Milliseconds(end), text, RemoveChars(unescape(SpeakerName(voice)), "<>\n\r"))]
  }

  function Meanings(bs: seq<Block>, unescape: Unescape): seq<Segment>
    requires forall b :: b in bs ==> Allowed(b)
  {
    if bs == [] then []
    else
      assert bs[0] in bs && forall b :: b in bs[1..] ==> b in bs;
      Meaning(bs[0], unescape) + Meanings(bs[1..], unescape)
  }

  // ----- times

  lemma ClockReads(c: Clock)
    requires Legible(c)
    ensures Time.Parse(ClockString(c)) == Some(Milliseconds(c))
  {
    hide Time.Parse, D.Value;
    NumeralWrites(c.minutes);
    NumeralWrites(c.seconds);
    NumeralWrites(c.millis);
    if c.hours == "" {
      assert ClockString(c) == c.minutes + ":" + c.seconds + "." + c.millis;
      Time.TwoFieldsRead(c.minutes, c.seconds, c.millis, D.Value(c.minutes), D.Value(c.seconds), D.Value(c.millis));
    } else {
      NumeralWrites(c.hours);
      assert ClockString(c) == c.hours + ":" + c.minutes + ":" + c.seconds + "." + c.millis;
      Time.ThreeFieldsRead(c.hours, c.minutes, c.seconds, c.millis,
        D.Value(c.hours), D.Value(c.minutes), D.Value(c.seconds), D.Value(c.millis));
    }
  }

  lemma NumeralWrites(s: string)
    requires Time.Numeral(s)
    ensures Time.Writes(s, D.Value(s))
  {
    hide D.Value;
    assert D.IsDigit(s[0]);
  }

  lemma ClockStringIsText(c: Clock)
    requires Legible(c)
    ensures ClockText(ClockString(c))
  {
    hide D.Value;
    var front := if c.hours == "" then "" else c.hours + ":";
    var s := ClockString(c);
    assert s == front + c.minutes + ":" + c.seconds + "." + c.millis;
    assert s[|s| - 1] == c.millis[|c.millis| - 1];
    assert s[0] == if c.hours == "" then c.minutes[0] else c.hours[0];
    assert forall x :: x in front || x in c.minutes || x in c.seconds || x in c.millis ==> ClockChar(x);
  }

  // ----- the timing line

  lemma {:induction false} GapLeft(gap: string, s: string)
    requires Gap(gap) && (s != "" ==> !IsSpace(s[0]))
    ensures TrimLeft(gap + s) == s
    decreases |gap|
  {
    hide IsSpace;
    if gap == "" {
      assert gap + s == s;
    } else {
      assert (gap + s)[0] == gap[0] && gap[0] in gap && (gap + s)[1..] == gap[1..] + s;
      assert forall c :: c in gap[1..] ==> c in gap;
      GapLeft(gap[1..], s);
    }
  }

  lemma {:induction false} GapRight(s: string, gap: string)
    requires Gap(gap) && s != "" && !IsSpace(s[|s| - 1])
    ensures TrimRight(s + gap) == s
    decreases |gap|
  {
    hide IsSpace;
    if gap == "" {
      assert s + gap == s;
    } else {
      var n := |gap| - 1;
      assert gap[n] in gap && (s + gap)[|s + gap| - 1] == gap[n];
      assert (s + gap)[..|s + gap| - 1] == s + gap[..n];
      assert forall c :: c in gap[..n] ==> c in gap;
      GapRight(s, gap[..n]);
    }
  }

  /** Trimming on the right leaves a front that does not end in a space untouched. */
  lemma {:induction false} RightTrimmed(s: string, more: string) returns (rest: string)
    requires s != "" && !IsSpace(s[|s| - 1])
    ensures rest <= more && TrimRight(s + more) == s + rest
    decreases |more|
  {
    hide IsSpace;
    if more == "" {
      assert s + more == s;
      rest := "";
    } else {
      var n := |more| - 1;
      assert (s + more)[|s + more| - 1] == more[n] && (s + more)[..|s + more| - 1] == s + more[..n];
      if IsSpace(more[n]) {
        rest := RightTrimmed(s, more[..n]);
      } else {
        rest := more;
      }
    }
  }

  lemma {:induction false} WordEnds(word: string, rest: string)
    requires (forall c :: c in word ==> !IsSpace(c)) && (rest != "" ==> IsSpace(rest[0]))
    ensures WordLength(word + rest) == |word|
    decreases |word|
  {
    hide IsSpace;
    if word == "" {
      assert word + rest == rest;
    } else {
      assert (word + rest)[0] == word[0] && word[0] in word && (word + rest)[1..] == word[1..] + rest;
      WordEnds(word[1..], rest);
    }
  }

  lemma ClockIsSolid(s: string)
    requires ClockText(s)
    ensures s != "" && (forall c :: c in s ==> !IsSpace(c)) && '-' !in s && !IsSpace(s[0]) && !IsSpace(s[|s| - 1])
  {
  }

  lemma EndFieldRead(after: string, end: string, settings: string)
    requires Gap(after) && ClockText(end) && Settings(settings)
    ensures FirstField(TrimSpace(after + (end + settings))) == end
  {
    hide IsSpace;
    ClockIsSolid(end);
    assert (end + settings)[0] == end[0];
    GapLeft(after, end + settings);
    var rest := RightTrimmed(end, settings);
    var s := end + rest;
    assert s[0] == end[0];
    assert TrimLeft(s) == s;
    assert rest != "" ==> rest[0] == settings[0];
    WordEnds(end, rest);
    assert s[..|end|] == end;
  }

  lemma StartFieldRead(start: string, before: string)
    requires ClockText(start) && Gap(before)
    ensures TrimSpace(start + before) == start
  {
    hide IsSpace;
    ClockIsSolid(start);
    assert (start + before)[0] == start[0];
    assert TrimLeft(start + before) == start + before;
    GapRight(start, before);
  }

  lemma GapHasNoDash(s: string)
    requires Gap(s)
    ensures '-' !in s
  {
    assert !IsSpace('-');
  }

  lemma TimingRead(b: Block)
    requires b.Cue? && Allowed(b)
    ensures ParseTimingLine(TimingString(b)) == Some((Milliseconds(b.start), Milliseconds(b.end)))
  {
    hide Time.Parse, TrimSpace, FirstField, Index, Speakable, Identifier, ClockString;
    hide Legible, Gap, Settings, Milliseconds, ClockText, IsSpace;
    var start, end := ClockString(b.start), ClockString(b.end);
    ClockReads(b.start);
    ClockReads(b.end);
    ClockStringIsText(b.start);
    ClockStringIsText(b.end);
    ClockIsSolid(start);
    ClockIsSolid(end);
    GapHasNoDash(b.before);
    var rest := b.after + (end + b.settings);
    var line := start + b.before + "-->" + rest;
    IndexAfter(start + b.before, "-->", rest);
    assert line[..|start + b.before|] == start + b.before && line[|start + b.before| + 3..] == rest;
    StartFieldRead(start, b.before);
    EndFieldRead(b.after, end, b.settings);
  }

  lemma TimingShape(b: Block)
    requires b.Cue? && Allowed(b)
    ensures OneLine(TimingString(b)) && TimingString(b) != "" && D.IsDigit(TimingString(b)[0])
  {
    hide ClockString, Speakable, Identifier, Milliseconds, Legible, IsSpace;
    ClockStringIsText(b.start);
    ClockStringIsText(b.end);
    var start, end, line := ClockString(b.start), ClockString(b.end), TimingString(b);
    assert line[0] == start[0];
    forall c | c in line ensures c != '\n' && c != '\r' {
      assert c in start || c in b.before || c in "-->" || c in b.after || c in end || c in b.settings;
    }
  }

  // ----- the payload

  lemma TaggedShaped(blanks: string, name: string, body: string, tail: string)
    requires Trimmed(body) && NoBlankLine(body) && '\r' !in body && OneLine(blanks) && OneLine(name)
    requires tail == "" || tail == "</v>"
    ensures var p := "<v" + blanks + name + ">" + (body + tail);
      Trimmed(p) && NoBlankLine(p) && '\r' !in p
  {
    hide NoBlankLine;
    var tag := "<v" + blanks + name + ">";
    TagOneLine(blanks, name);
    var p := tag + (body + tail);
    assert p == tag + body + tail;
    NoBlankLineConcat(tag, body);
    LineThenTail(tag + body, tail);
    ConcatAvoids(tag, body, '\r');
    ConcatAvoids(tag + body, tail, '\r');
    assert p[0] == '<' && p[|p| - 1] == if tail == "" then body[|body| - 1] else '>';
  }

  lemma TagOneLine(blanks: string, name: string)
    requires OneLine(blanks) && OneLine(name)
    ensures OneLine("<v" + blanks + name + ">")
  {
    forall c | c == '\n' || c == '\r' ensures c !in "<v" + blanks + name + ">" {
      ConcatAvoids("<v", blanks, c);
      ConcatAvoids("<v" + blanks, name, c);
      ConcatAvoids("<v" + blanks + name, ">", c);
    }
  }

  lemma NamedShaped(name: string, body: string)
    requires Trimmed(body) && NoBlankLine(body) && '\r' !in body && OneLine(name) && Trimmed(name)
    ensures var p := name + ": " + body;
      Trimmed(p) && NoBlankLine(p) && '\r' !in p
  {
    hide NoBlankLine, IsSpace;
    var p := name + ": " + body;
    NoBlankLineConcat(name + ": ", body);
    ConcatAvoids(name, ": ", '\r');
    ConcatAvoids(name + ": ", body, '\r');
    assert p[0] == name[0] && p[|p| - 1] == body[|body| - 1];
  }

  lemma PayloadShaped(voice: Voice, body: string)
    requires Trimmed(body) && NoBlankLine(body) && '\r' !in body && Speakable(voice, body)
    ensures var p := PayloadString(voice, body);
      Trimmed(p) && NoBlankLine(p) && '\r' !in p
  {
    hide NoBlankLine, Trimmed, IsBlank, LeadingTimestamp, TrimSuffix;
    match voice
    case Tagged(blanks, name, closed) => TaggedShaped(blanks, name, body, if closed then "</v>" else "");
    case Named(name) => NamedShaped(name, body);
    case Unnamed =>
  }

  lemma LineThenTail(s: string, tail: string)
    requires NoBlankLine(s) && '\n' !in tail
    ensures NoBlankLine(s + tail)
  {
    forall i | 0 <= i < |s + tail| - 1 && (s + tail)[i] == '\n' ensures (s + tail)[i + 1] != '\n' {
      if i + 1 >= |s| {
        assert (s + tail)[i + 1] == tail[i + 1 - |s|];
      } else {
        assert s[i] == '\n';
      }
    }
  }

  lemma {:induction false} BlankSpanOf(blanks: string, name: string)
    requires (forall c :: c in blanks ==> IsBlank(c)) && name != "" && !IsSpace(name[0])
    ensures BlankSpan(blanks + name) == |blanks|
    decreases |blanks|
  {
    if blanks == "" {
      assert blanks + name == name;
    } else {
      assert (blanks + name)[0] == blanks[0] && blanks[0] in blanks && (blanks + name)[1..] == blanks[1..] + name;
      BlankSpanOf(blanks[1..], name);
    }
  }

  lemma TaggedRead(blanks: string, name: string, after: string)
    requires blanks != "" && (forall c :: c in blanks ==> IsBlank(c)) && Trimmed(name) && '>' !in name
    ensures VoiceTag("<v" + blanks + name + ">" + after) == Some((name, after))
  {
    hide IsSpace, BlankSpan, IndexOf;
    var body := blanks + name;
    var s := "<v" + blanks + name + ">" + after;
    assert '>' !in body by { assert !IsBlank('>'); }
    assert s == "<v" + (body + ">" + after);
    assert s[2..] == body + ">" + after;
    IndexOfAfter(body, '>', after);
    assert s[2..][..|body|] == body && s[2..][|body| + 1..] == after;
    BlankSpanOf(blanks, name);
    assert body[|blanks|..] == name;
  }

  lemma ClosedOff(body: string)
    ensures TrimSuffix(body + "</v>", "</v>") == body
  {
    var s := body + "</v>";
    assert s[|s| - 4..] == "</v>" && s[..|s| - 4] == body;
  }

  /** The name before the first colon and space of the first line, and all the other lines. */
  lemma NamedRead(name: string, body: string)
    requires Trimmed(name) && OneLine(name) && ':' !in name && '<' !in name && '>' !in name && !LeadingTimestamp(name)
    ensures ExtractSpeaker(name + ": " + body) ==
            (name, TrimSpace(body[..IndexOf(body, '\n')]) + body[IndexOf(body, '\n')..])
  {
    hide TrimSpace, LeadingTimestamp, Index, IndexOf, Trimmed, VoiceTag, NamePrefix;
    var front, nl := name + ": ", IndexOf(body, '\n');
    var text, line := front + body, body[..nl];
    NotATag(name, body);
    LineEndLater(front, body);
    assert text[..|front| + nl] == front + line && text[|front| + nl..] == body[nl..];
    NameAndLine(name, line);
  }

  lemma NameAndLine(name: string, line: string)
    requires Trimmed(name) && ':' !in name && '<' !in name && '>' !in name && !LeadingTimestamp(name)
    ensures NamePrefix(name + ": " + line) == Some((name, TrimSpace(line)))
  {
    hide TrimSpace, LeadingTimestamp, Index, Trimmed;
    var first := name + ": " + line;
    IndexAfter(name, ": ", line);
    assert first[..|name|] == name && first[|name| + 2..] == line;
    TrimmedStays(name);
    NotEmpty(name);
  }

  lemma NotATag(name: string, body: string)
    requires Trimmed(name) && '<' !in name
    ensures VoiceTag(name + ": " + body) == None
  {
    var text := name + ": " + body;
    assert text[0] == name[0] != '<';
  }

  lemma {:induction false} LineEndLater(front: string, body: string)
    requires '\n' !in front
    ensures IndexOf(front + body, '\n') == |front| + IndexOf(body, '\n')
    decreases |front|
  {
    if front == "" {
      assert front + body == body;
    } else {
      assert (front + body)[1..] == front[1..] + body;
      LineEndLater(front[1..], body);
    }
  }

  lemma SpeakerRead(voice: Voice, body: string)
    requires Trimmed(body) && Speakable(voice, body)
    ensures ExtractSpeaker(PayloadString(voice, body)) == (SpeakerName(voice), Words(voice, body))
  {
    hide TrimSuffix, TrimSpace, NamePrefix, LeadingTimestamp, IsSpace, IsBlank;
    match voice
    case Tagged(blanks, name, closed) =>
      var after := body + if closed then "</v>" else "";
      TaggedRead(blanks, name, after);
      TrimmedStays(name);
      ClosedOff(body);
      assert !closed ==> after == body;
    case Named(name) => NamedRead(name, body);
    case Unnamed => assert body[..IndexOf(body, '\n')] + body[IndexOf(body, '\n')..] == body;
  }

  lemma PayloadRead(b: Block, unescape: Unescape)
    requires b.Cue? && Allowed(b)
    ensures AsList(ParsePayload(Milliseconds(b.start), Milliseconds(b.end), PayloadString(b.voice, b.body), unescape)) ==
            Meaning(b, unescape)
  {
    hide PayloadString, ExtractSpeaker, TrimSpace, StripTags, RemoveChars, Words, Milliseconds, Speakable, Identifier, Legible;
    PayloadShaped(b.voice, b.body);
    TrimmedStays(PayloadString(b.voice, b.body));
    SpeakerRead(b.voice, b.body);
  }

  // ----- one block

  lemma FrontStays(s: string)
    requires s != "" && !IsSpace(s[0])
    ensures TrimSpace(s) != "" && TrimSpace(s)[0] == s[0]
  {
    assert TrimLeft(s) == s;
    FrontStaysRight(s);
  }

  lemma {:induction false} FrontStaysRight(s: string)
    requires s != "" && !IsSpace(s[0])
    ensures TrimRight(s) != "" && TrimRight(s)[0] == s[0]
    decreases |s|
  {
    hide IsSpace;
    if IsSpace(s[|s| - 1]) {
      FrontStaysRight(s[..|s| - 1]);
    }
  }

  lemma NotSkipped(line: string)
    requires line != "" && D.IsDigit(line[0])
    ensures !IsSkippedBlock(TrimSpace(line))
  {
    hide TrimSpace;
    FrontStays(line);
  }

  lemma CueStringShape(b: Block)
    requires b.Cue? && Allowed(b)
    ensures var s := CueString(b);
      s != "" && s[0] != '\n' && s[|s| - 1] != '\n' && NoBlankLine(s) && '\r' !in s
  {
    hide TimingString, PayloadString, Speakable, Identifier, Legible, NoBlankLine, IsSpace;
    TimingShape(b);
    PayloadShaped(b.voice, b.body);
    var line, p, s := TimingString(b), PayloadString(b.voice, b.body), CueString(b);
    assert s == line + ("\n" + p);
    assert !IsSpace(p[0]) && !IsSpace(p[|p| - 1]) && p != "";
    assert IsSpace('\n') by { NewlineIsSpace(); }
    NewlineFirst(p);
    NoBlankLineConcat(line, "\n" + p);
    assert s[0] == line[0] && s[|s| - 1] == p[|p| - 1];
  }

  lemma NewlineIsSpace()
    ensures IsSpace('\n')
  {
  }

  lemma BlockStringShape(b: Block)
    requires Allowed(b)
    ensures var s := BlockString(b);
      NoBlankLine(s) && '\r' !in s && (s != "" ==> s[|s| - 1] != '\n')
    ensures b.Cue? ==> BlockString(b) != "" && BlockString(b)[0] != '\n'
  {
    hide CueString, Speakable, Legible, NoBlankLine, ParseTimingLine, TrimSpace, IsSpace;
    match b
    case Skipped(text) =>
    case Untimed(text) =>
    case Cue(id, _, _, _, _, _, _, _) =>
      CueStringShape(b);
      if id != "" {
        var cue := CueString(b);
        assert id + "\n" + cue == id + ("\n" + cue);
        NewlineFirst(cue);
        NoBlankLineConcat(id, "\n" + cue);
        assert id[0] in id;
      }
  }

  lemma Untouched(s: string)
    requires s != "" && s[0] != '\n' && s[|s| - 1] != '\n'
    ensures TrimNewlines(s) == s
  {
  }

  /** The timing line and the payload, on their own or after an identifier. */
  lemma CueRead(b: Block, unescape: Unescape)
    requires b.Cue? && Allowed(b)
    ensures AsList(ParseBlock(BlockString(b), unescape)) == Meaning(b, unescape)
  {
    hide TimingString, PayloadString, Speakable, Legible, Milliseconds, Meaning, ParseTimingLine, ParsePayload, TrimSpace;
    hide SplitChar, Join, NoBlankLine, TrimNewlines, Gap, Settings, Trimmed, IsSpace, IsSkippedBlock;
    var line, p, s := TimingString(b), PayloadString(b.voice, b.body), BlockString(b);
    TimingRead(b);
    TimingShape(b);
    NotSkipped(line);
    PayloadRead(b, unescape);
    BlockStringShape(b);
    Untouched(s);
    SplitCharCons(line, '\n', p);
    SplitCharJoin(p, '\n');
    var rest := SplitChar(p, '\n');
    if b.id == "" {
      var lines := SplitChar(s, '\n');
      assert lines == [line] + rest && lines[1..] == rest;
    } else {
      assert s == b.id + "\n" + CueString(b);
      SplitCharCons(b.id, '\n', CueString(b));
      var lines := SplitChar(s, '\n');
      assert lines == [b.id] + ([line] + rest) && lines[1] == line && lines[2..] == rest;
      assert !IsSkippedBlock(TrimSpace(b.id)) by { IdentifierKept(b.id); }
    }
  }

  lemma IdentifierKept(id: string)
    requires Identifier(id)
    ensures !IsSkippedBlock(TrimSpace(id)) && ParseTimingLine(id).None?
  {
  }

  lemma {:induction false} PrefixTrimmed(p: string, s: string)
    requires p <= s && p != "" && forall c :: c in p ==> !IsSpace(c)
    ensures p <= TrimRight(s)
    decreases |s|
  {
    hide IsSpace;
    assert |p| == |s| ==> p == s;
    if s != "" && IsSpace(s[|s| - 1]) {
      assert s[|s| - 1] in s;
      PrefixTrimmed(p, s[..|s| - 1]);
    }
  }

  lemma KeywordSeen(p: string, s: string)
    requires p <= s && p != "" && forall c :: c in p ==> !IsSpace(c)
    ensures p <= TrimSpace(s)
  {
    hide IsSpace;
    assert s[0] == p[0] && p[0] in p;
    assert TrimLeft(s) == s;
    PrefixTrimmed(p, s);
  }

  lemma KeywordsAreSolid()
    ensures forall c :: c in "NOTE" || c in "STYLE" || c in "REGION" || c in "WEBVTT" ==> !IsSpace(c) && c != '\n'
  {
  }

  /** The first line holds what the text begins with, if that has no line end. */
  lemma FirstLineBegins(p: string, s: string)
    requires p <= s && '\n' !in p
    ensures p <= SplitChar(s, '\n')[0]
  {
    hide IndexOf;
    assert forall k :: 0 <= k < |p| ==> s[k] == p[k] && p[k] in p;
    if IndexOf(s, '\n') < |p| {
      assert false;
    }
  }

  lemma SkippedRead(text: string, p: string, unescape: Unescape)
    requires p in {"NOTE", "STYLE", "REGION", "WEBVTT"} && p <= text && text[|text| - 1] != '\n'
    ensures ParseBlock(text, unescape) == None
  {
    hide TrimSpace, SplitChar, ParseTimingLine, ParsePayload, Join, TrimNewlines, IsSpace;
    KeywordsAreSolid();
    assert p[0] in p && text[0] == p[0];
    Untouched(text);
    FirstLineBegins(p, text);
    KeywordSeen(p, SplitChar(text, '\n')[0]);
  }

  lemma NoTiming(line: string)
    requires '>' !in line
    ensures ParseTimingLine(line) == None
  {
    hide Index, TrimSpace, FirstField, Time.Parse;
    IndexMissing(line, "-->", '>');
  }

  /** A block without an arrow is no cue. */
  lemma UntimedRead(text: string, unescape: Unescape)
    requires '>' !in text && text != "" && text[0] != '\n' && text[|text| - 1] != '\n'
    ensures ParseBlock(text, unescape) == None
  {
    hide SplitChar, ParseTimingLine, ParsePayload, Join, TrimSpace, TrimNewlines;
    Untouched(text);
    SplitAvoids(text, '\n', '>');
    var lines := SplitChar(text, '\n');
    assert lines[0] in lines;
    NoTiming(lines[0]);
    if |lines| > 1 {
      assert lines[1] in lines;
      NoTiming(lines[1]);
    }
  }

  lemma BlockRead(b: Block, unescape: Unescape)
    requires Allowed(b)
    ensures AsList(ParseBlock(BlockString(b), unescape)) == Meaning(b, unescape)
  {
    hide ParseBlock, CueString, Speakable, Identifier, Legible, NoBlankLine;
    match b
    case Skipped(text) =>
      if text == "" {
        EmptyBlock(unescape);
      } else {
        var p := if "NOTE" <= text then "NOTE" else if "STYLE" <= text then "STYLE" else "REGION";
        SkippedRead(text, p, unescape);
      }
    case Untimed(text) => UntimedRead(text, unescape);
    case Cue(_, _, _, _, _, _, _, _) => CueRead(b, unescape);
  }

  // ----- the whole file

  lemma {:induction false} BlocksRead(bs: seq<Block>, unescape: Unescape)
    requires forall b :: b in bs ==> Allowed(b)
    ensures ParseBlocks(SplitBlank(BlockStrings(bs)), unescape) == Meanings(bs, unescape)
    ensures '\r' !in BlockStrings(bs)
    decreases |bs|
  {
    hide ParseBlock, SplitBlank, BlockString, ParseBlocks, Allowed, Meaning;
    if bs == [] {
      NoSeparator();
      NothingParsed(unescape);
    } else {
      assert bs[0] in bs && forall b :: b in bs[1..] ==> b in bs;
      var s, later := BlockString(bs[0]), BlockStrings(bs[1..]);
      BlocksRead(bs[1..], unescape);
      BlockStringShape(bs[0]);
      SplitBlankCons(s, later);
      ParseBlocksConcat([s], SplitBlank(later), unescape);
      SingleBlock(s, unescape);
      BlockRead(bs[0], unescape);
      ConcatAvoids(s, "\n\n", '\r');
      ConcatAvoids(s + "\n\n", later, '\r');
    }
  }

  lemma {:induction false} LeadSkipped(lead: string, s: string)
    requires Lead(lead) && (s != "" ==> s[0] != ' ' && s[0] != '\t')
    ensures SkipChars(lead + s, " \t") == s
    decreases |lead|
  {
    if lead == "" {
      assert lead + s == s;
    } else {
      assert (lead + s)[0] == lead[0] && lead[0] in lead && (lead + s)[1..] == lead[1..] + s;
      assert forall c :: c in lead[1..] ==> c in lead;
      LeadSkipped(lead[1..], s);
    }
  }

  lemma SignatureSeen(lead: string, title: string, rest: string)
    requires Lead(lead) && Title(title)
    ensures Signature(lead + "WEBVTT" + title + "\n\n" + rest) == None
  {
    hide SkipChars;
    var s := "WEBVTT" + (title + "\n\n" + rest);
    assert lead + "WEBVTT" + title + "\n\n" + rest == lead + s;
    LeadSkipped(lead, s);
    assert s[6..] == title + "\n\n" + rest && "WEBVTT" <= s;
    assert s[6..][0] == if title == "" then '\n' else title[0];
  }

  lemma {:induction false} LeadTrimmed(lead: string, s: string)
    requires Lead(lead) && s != "" && !IsSpace(s[0])
    ensures TrimLeft(lead + s) == s
    decreases |lead|
  {
    if lead == "" {
      assert lead + s == s;
    } else {
      assert (lead + s)[0] == lead[0] && lead[0] in lead && (lead + s)[1..] == lead[1..] + s;
      assert forall c :: c in lead[1..] ==> c in lead;
      LeadTrimmed(lead[1..], s);
    }
  }

  /** The block of the signature is no cue. */
  lemma SignatureBlock(lead: string, title: string, unescape: Unescape)
    requires Lead(lead) && Title(title)
    ensures ParseBlock(lead + "WEBVTT" + title, unescape) == None
    ensures NoBlankLine(lead + "WEBVTT" + title)
    ensures var s := lead + "WEBVTT" + title; s[|s| - 1] != '\n'
  {
    hide SplitChar, ParseTimingLine, ParsePayload, Join, IsSpace, TrimRight, TrimLeft, TrimNewlines;
    var s := lead + "WEBVTT" + title;
    KeywordsAreSolid();
    var front := lead + "WEBVTT";
    assert '\n' !in front by {
      forall c | c in front ensures c != '\n' { assert c in lead || c in "WEBVTT"; }
    }
    NoBlankLineConcat(front, title);
    assert s[|s| - 1] == if title == "" then 'T' else title[|title| - 1];
    assert s[0] == front[0] && front[0] in front;
    Untouched(s);
    FirstLineBegins(front, s);
    var line := SplitChar(s, '\n')[0];
    var more := line[|front|..];
    assert line == lead + ("WEBVTT" + more);
    assert !IsSpace('W') by { assert 'W' in "WEBVTT"; }
    LeadTrimmed(lead, "WEBVTT" + more);
    PrefixTrimmed("WEBVTT", "WEBVTT" + more);
  }

  lemma FileParsed(lead: string, title: string, bs: seq<Block>, unescape: Unescape)
    requires Lead(lead) && Title(title) && forall b :: b in bs ==> Allowed(b)
    ensures var s := FileString(lead, title, bs);
      && Signature(s) == None && '\r' !in s && s != "" && s[0] != '\U{FEFF}'
      && ParseBlocks(SplitBlank(s), unescape) == Meanings(bs, unescape)
  {
    hide ParseBlock, ParseBlocks, SplitBlank, BlockStrings, Signature, Allowed, Meanings, NoBlankLine;
    var front, rest := lead + "WEBVTT" + title, BlockStrings(bs);
    var s := FileString(lead, title, bs);
    assert s == front + "\n\n" + rest;
    SignatureSeen(lead, title, rest);
    SignatureBlock(lead, title, unescape);
    SplitBlankCons(front, rest);
    BlocksRead(bs, unescape);
    ParseBlocksConcat([front], SplitBlank(rest), unescape);
    SingleBlock(front, unescape);
    ConcatAvoids(lead, "WEBVTT", '\r');
    ConcatAvoids(lead + "WEBVTT", title, '\r');
    ConcatAvoids(front, "\n\n", '\r');
    ConcatAvoids(front + "\n\n", rest, '\r');
    assert s[0] == if lead == "" then 'W' else lead[0];
    assert lead != "" ==> lead[0] in lead;
  }

  // ----- line ends

  lemma {:induction false} CrLfUndone(s: string)
    requires '\r' !in s
    ensures ReplaceCrLf(WithLineEnds(s, CRLF)) == s
    decreases |s|
  {
    if s != "" {
      CrLfUndone(s[1..]);
      var t := WithLineEnds(s, CRLF);
      if s[0] == '\n' {
        assert t[0] == '\r' && t[1] == '\n' && t[2..] == WithLineEnds(s[1..], CRLF);
      } else {
        assert t[0] == s[0] && t[1..] == WithLineEnds(s[1..], CRLF);
      }
      assert s == [s[0]] + s[1..];
    }
  }

  lemma {:induction false} CrUndone(s: string)
    requires '\r' !in s
    ensures ReplaceCrLf(WithLineEnds(s, CR)) == WithLineEnds(s, CR) && ReplaceCr(WithLineEnds(s, CR)) == s
    ensures WithLineEnds(s, CR) != "" ==> WithLineEnds(s, CR)[0] != '\n'
    decreases |s|
  {
    if s != "" {
      CrUndone(s[1..]);
      var t := WithLineEnds(s, CR);
      assert t[0] == (if s[0] == '\n' then '\r' else s[0]) && t[1..] == WithLineEnds(s[1..], CR);
      assert t == [t[0]] + t[1..] && s == [s[0]] + s[1..];
    }
  }

  lemma {:induction false} LfSame(s: string)
    ensures WithLineEnds(s, LF) == s
    decreases |s|
  {
    if s != "" {
      LfSame(s[1..]);
      assert s == [s[0]] + s[1..];
    }
  }

  lemma {:induction false} StartsAlike(s: string, e: LineEnd)
    requires s != ""
    ensures WithLineEnds(s, e) != "" && (s[0] != '\n' ==> WithLineEnds(s, e)[0] == s[0])
  {
  }

  lemma StoredNormalized(s: string, bom: bool, e: LineEnd)
    requires '\r' !in s && s != "" && s[0] != '\U{FEFF}' && s[0] != '\n'
    ensures Normalized(Stored(s, bom, e)) == s
  {
    hide ReplaceCrLf, ReplaceCr;
    var t := WithLineEnds(s, e);
    StartsAlike(s, e);
    var raw := Stored(s, bom, e);
    if bom {
      assert raw[0] == '\U{FEFF}' && raw[1..] == t;
    } else {
      assert raw == t && raw[0] != '\U{FEFF}';
    }
    NoCarriageReturns(s);
    match e
    case LF => LfSame(s);
    case CRLF => CrLfUndone(s);
    case CR => CrUndone(s);
  }

  /** A file with any of these decorations is read as what its cues say, in order; it is refused
      only if none of them says anything. */
  lemma DecoratedFileRead(lead: string, title: string, bs: seq<Block>, bom: bool, e: LineEnd, unescape: Unescape)
    requires Lead(lead) && Title(title) && forall b :: b in bs ==> Allowed(b)
    ensures ParsedFile(Stored(FileString(lead, title, bs), bom, e), unescape) ==
            if Meanings(bs, unescape) == [] then NoCues else Parsed(Meanings(bs, unescape))
  {
    hide Normalized, Signature, ParseBlocks, SplitBlank, Stored, Allowed, Meanings, Lead, Title;
    FileParsed(lead, title, bs, unescape);
    var s := FileString(lead, title, bs);
    assert s[0] != '\n' by { hide *; FirstChar(lead, title, bs); }
    StoredNormalized(s, bom, e);
  }

  lemma FirstChar(lead: string, title: string, bs: seq<Block>)
    requires Lead(lead)
    ensures FileString(lead, title, bs) != "" && FileString(lead, title, bs)[0] != '\n'
  {
    var s := FileString(lead, title, bs);
    assert s[0] == if lead == "" then 'W' else lead[0];
    assert lead != "" ==> lead[0] in lead;
  }

  // ----- refusals

  lemma {:induction false} LineEndsLater(a: string, rest: string)
    requires '\r' !in a
    ensures ReplaceCr(ReplaceCrLf(a + rest)) == a + ReplaceCr(ReplaceCrLf(rest))
    decreases |a|
  {
    if a == "" {
      assert a + rest == rest && "" + ReplaceCr(ReplaceCrLf(rest)) == ReplaceCr(ReplaceCrLf(rest));
    } else {
      assert (a + rest)[0] == a[0] && a[0] in a && (a + rest)[1..] == a[1..] + rest;
      LineEndsLater(a[1..], rest);
      OneCharKept(a[0], a[1..] + rest);
      assert a + rest == [a[0]] + (a[1..] + rest);
      assert [a[0]] + (a[1..] + ReplaceCr(ReplaceCrLf(rest))) == a + ReplaceCr(ReplaceCrLf(rest));
    }
  }

  lemma OneCharKept(c: char, s: string)
    requires c != '\r'
    ensures ReplaceCr(ReplaceCrLf([c] + s)) == [c] + ReplaceCr(ReplaceCrLf(s))
  {
    assert ([c] + s)[1..] == s;
    assert ReplaceCrLf([c] + s) == [c] + ReplaceCrLf(s);
    assert ([c] + ReplaceCrLf(s))[1..] == ReplaceCrLf(s);
  }

  lemma FirstCharEnds(s: string)
    ensures var t := ReplaceCr(ReplaceCrLf(s));
      if s == "" then t == "" else t != "" && t[0] == if s[0] == '\r' then '\n' else s[0]
  {
  }

  /** Making line ends uniform brings no letters to the front. */
  lemma {:induction false} PrefixOfUniform(p: string, s: string)
    requires p <= ReplaceCr(ReplaceCrLf(s)) && '\n' !in p && '\r' !in p
    ensures p <= s
    decreases |p|
  {
    hide ReplaceCr, ReplaceCrLf;
    if p != "" {
      FirstCharEnds(s);
      assert p[0] in p;
      assert s == [s[0]] + s[1..];
      OneCharKept(s[0], s[1..]);
      var t := ReplaceCr(ReplaceCrLf(s[1..]));
      assert p[1..] <= t by { assert p[1..] == ([s[0]] + t)[..|p|][1..]; }
      PrefixOfUniform(p[1..], s[1..]);
      assert p == [p[0]] + p[1..];
    }
  }

  /** A file is refused for its first word exactly when that is not the signature, and exactly when
      something other than white space follows the signature at once. */
  lemma RefusedExactly(bom: bool, lead: string, rest: string, unescape: Unescape)
    requires Lead(lead) && (rest != "" ==> rest[0] != ' ' && rest[0] != '\t')
    requires bom || (lead + rest != "" ==> (lead + rest)[0] != '\U{FEFF}')
    ensures var r := ParsedFile((if bom then "\U{FEFF}" else "") + (lead + rest), unescape);
      && (r == MissingSignature <==> !("WEBVTT" <= rest))
      && (r == MalformedSignature <==> "WEBVTT" <= rest && |rest| > 6 && rest[6] !in "\n\r \t")
  {
    hide ReplaceCr, ReplaceCrLf, ParseBlocks, SplitBlank, SkipChars;
    var raw := (if bom then "\U{FEFF}" else "") + (lead + rest);
    assert (if "\U{FEFF}" <= raw then raw[1..] else raw) == lead + rest by {
      if bom {
        assert raw[1..] == lead + rest;
      } else {
        assert raw == lead + rest;
      }
    }
    assert '\r' !in lead;
    LineEndsLater(lead, rest);
    var t := ReplaceCr(ReplaceCrLf(rest));
    FirstCharEnds(rest);
    LeadSkipped(lead, t);
    if "WEBVTT" <= rest {
      var more := rest[6..];
      assert rest == "WEBVTT" + more;
      LineEndsLater("WEBVTT", more);
      FirstCharEnds(more);
      assert t[6..] == ReplaceCr(ReplaceCrLf(more));
    } else if "WEBVTT" <= t {
      PrefixOfUniform("WEBVTT", rest);
    }
  }

  // ----- markup

  /** A tag as the cues of other programs carry it: with a name, or with a time. */
  predicate Markup(tag: string) {
    NamedMarkup(tag) || ClockMarkup(tag)
  }

  predicate NamedMarkup(tag: string) {
    && |tag| >= 3 && tag[0] == '<' && tag[|tag| - 1] == '>' && '>' !in tag[..|tag| - 1]
    && (IsLetter(tag[1]) || (|tag| >= 4 && tag[1] == '/' && IsLetter(tag[2])))
  }

  lemma NamedMeasured(tag: string, rest: string)
    requires NamedMarkup(tag)
    ensures TagLength(tag + rest) == |tag|
  {
    hide IndexOf, ClockTagLength;
    var s, n := tag + rest, |tag|;
    var j := if tag[1] == '/' then 2 else 1;
    assert s[0] == tag[0] && s[1] == tag[1] && s[j] == tag[j];
    var inner := tag[j + 1..n - 1];
    assert s[j + 1..] == inner + ">" + rest;
    assert forall c :: c in inner ==> c in tag[..n - 1];
    IndexOfAfter(inner, '>', rest);
  }

  predicate ClockMarkup(tag: string) {
    && |tag| == 14 && tag[0] == '<' && D.AllDigits(tag[1..3]) && tag[3] == ':'
    && '0' <= tag[4] <= '5' && D.IsDigit(tag[5]) && tag[6] == ':'
    && '0' <= tag[7] <= '5' && D.IsDigit(tag[8]) && tag[9] == '.' && D.AllDigits(tag[10..13]) && tag[13] == '>'
  }

  lemma ClockMeasured(tag: string, rest: string)
    requires ClockMarkup(tag)
    ensures TagLength(tag + rest) == 14
  {
    hide D.DigitSpan;
    var s := tag + rest;
    var t := s[3..];
    assert forall i :: 0 <= i < 14 ==> s[i] == tag[i];
    assert tag[1..3][0] == tag[1];
    assert s[1..] == tag[1..3] + t;
    D.DigitsSpan(tag[1..3], t);
    assert t[7..10] == tag[10..13];
    assert forall i :: 0 <= i < 11 ==> t[i] == tag[i + 3];
    assert ClockTagLength(s) == 14;
  }

  lemma MarkupMeasured(tag: string, rest: string)
    requires Markup(tag)
    ensures tag != "" && TagLength(tag + rest) == |tag|
  {
    hide TagLength;
    if NamedMarkup(tag) {
      NamedMeasured(tag, rest);
    } else {
      ClockMeasured(tag, rest);
    }
  }

  /** Words with tags between them. */
  function MarkedUp(words: seq<string>, tags: seq<string>): string
    requires |words| == |tags| + 1
  {
    if tags == [] then words[0] else words[0] + (tags[0] + MarkedUp(words[1..], tags[1..]))
  }

  lemma {:induction false} WordsKept(word: string, rest: string)
    requires '<' !in word
    ensures StripTags(word + rest) == word + StripTags(rest)
    decreases |word|
  {
    hide IndexOf;
    if word == "" {
      assert word + rest == rest && "" + StripTags(rest) == StripTags(rest);
    } else {
      assert (word + rest)[0] == word[0] && word[0] in word && (word + rest)[1..] == word[1..] + rest;
      WordsKept(word[1..], rest);
      assert [word[0]] + (word[1..] + StripTags(rest)) == word + StripTags(rest);
    }
  }

  /** Stripping takes out the tags and nothing else. */
  lemma {:induction false} MarkupVanishes(words: seq<string>, tags: seq<string>)
    requires |words| == |tags| + 1 && (forall w :: w in words ==> '<' !in w) && (forall t :: t in tags ==> Markup(t))
    ensures StripTags(MarkedUp(words, tags)) == Join(words, "")
    decreases |tags|
  {
    hide TagLength, Markup, Join;
    assert words[0] in words;
    if tags == [] {
      assert words == [words[0]];
      NoTags(words[0]);
      JoinOne(words[0], "");
    } else {
      var rest := MarkedUp(words[1..], tags[1..]);
      assert tags[0] in tags;
      WordsKept(words[0], tags[0] + rest);
      MarkupMeasured(tags[0], rest);
      TagTaken(tags[0], rest);
      MarkupVanishes(words[1..], tags[1..]);
      assert words == [words[0]] + words[1..];
      JoinSplit([words[0]], words[1..], "");
      JoinOne(words[0], "");
      assert words[0] + "" == words[0];
    }
  }

  lemma TagTaken(tag: string, rest: string)
    requires tag != "" && TagLength(tag + rest) == |tag|
    ensures StripTags(tag + rest) == StripTags(rest)
  {
    hide TagLength;
    assert (tag + rest)[|tag|..] == rest;
  }

  /** Entities are decoded first, so markup that is spelled with them goes too. */
  lemma EncodedMarkupVanishes(start: int, end: int, unescape: Unescape)
    requires unescape("&lt;b&gt;hi") == "<b>hi" && unescape("") == ""
    ensures ParsePayload(start, end, "&lt;b&gt;hi", unescape) == Some(Segment(start, end, "hi", ""))
  {
    hide TrimSpace, StripTags, NamePrefix, IndexOf;
    var body := "&lt;b&gt;hi";
    TrimmedStays(body);
    TrimmedStays("hi");
    assert '\n' !in body && ' ' !in body by { BodyChars(); }
    IndexOfMissing(body, '\n');
    assert body[..|body|] == body && body[|body|..] == "";
    assert NamePrefix(body) == None by { NoNameIn(body); }
    assert VoiceTag(body) == None by { assert body[0] == '&'; }
    BoldStripped();
  }

  lemma BodyChars()
    ensures '\n' !in "&lt;b&gt;hi" && ' ' !in "&lt;b&gt;hi"
  {
  }

  lemma NoNameIn(line: string)
    requires ' ' !in line
    ensures NamePrefix(line) == None
  {
    hide Index;
    IndexMissing(line, ": ", ' ');
  }

  lemma BoldStripped()
    ensures StripTags("<b>hi") == "hi"
  {
    hide StripTags, TagLength;
    assert Markup("<b>") by { assert "<b>"[..2] == "<b"; }
    MarkupMeasured("<b>", "hi");
    TagTaken("<b>", "hi");
    assert "<b>" + "hi" == "<b>hi";
    NoTags("hi");
  }

  // ----- what the program itself prints

  function ClockOf(t: int): Clock {
    var n: nat := if t < 0 then 0 else t;
    Clock(D.Padded(n / 3600000, 2), D.Padded(n / 60000 % 60, 2), D.Padded(n / 1000 % 60, 2), D.Padded(n % 1000, 3))
  }

  function PlainCue(seg: Segment): Block {
    Cue("", ClockOf(seg.start), " ", " ", ClockOf(seg.end), "",
        if seg.speaker == "" then Unnamed else Tagged(" ", seg.speaker, false), seg.text)
  }

  function PlainCues(segs: seq<Segment>): seq<Block> {
    if segs == [] then [] else [PlainCue(segs[0])] + PlainCues(segs[1..])
  }

  lemma ClockPrinted(t: int)
    ensures Time.Format(t) == ClockString(ClockOf(t))
  {
    hide D.Padded, D.Digits;
    var n: nat := if t < 0 then 0 else t;
    assert Time.Format(t) == Time.Format(n);
    var h, m, sec, ms := Time.Fields(n);
    assert h == n / 3600000 && m == n / 60000 % 60 && sec == n / 1000 % 60 && ms == n % 1000 by {
      FieldsUnique(n, h, m, sec, ms);
    }
    Time.FormatFields(h, m, sec, ms);
    D.PaddedWidth(h, 2);
  }

  lemma FieldsUnique(n: nat, h: nat, m: nat, sec: nat, ms: nat)
    requires m < 60 && sec < 60 && ms < 1000 && n == h * 3600000 + m * 60000 + sec * 1000 + ms
    ensures h == n / 3600000 && m == n / 60000 % 60 && sec == n / 1000 % 60 && ms == n % 1000
  {
    assert n / 1000 == h * 3600 + m * 60 + sec;
    assert n / 60000 == h * 60 + m;
  }

  lemma CuePrinted(seg: Segment)
    ensures CueText(seg) == BlockString(PlainCue(seg))
  {
    hide Time.Format, ClockString;
    ClockPrinted(seg.start);
    ClockPrinted(seg.end);
    var a, b := Time.Format(seg.start), Time.Format(seg.end);
    assert a + " --> " + b == a + " " + "-->" + (" " + (b + ""));
    assert seg.text + "" == seg.text;
    assert seg.speaker != "" ==>
      "<v" + " " + seg.speaker + ">" + (seg.text + "") == "<v " + seg.speaker + ">" + seg.text;
  }

  /** The program prints the plainest such file: the bare signature, and for each segment two-digit
      clocks, one arrow between single blanks, the speaker in a tag, and the text. */
  lemma PrintedPlainly(segs: seq<Segment>)
    ensures VttText(segs) == FileString("", "", PlainCues(segs))
  {
    hide Cues, BlockStrings, PlainCues;
    CuesPrinted(segs);
    assert "" + "WEBVTT" + "" + "\n\n" == "WEBVTT" + "\n\n";
  }

  lemma {:induction false} CuesPrinted(segs: seq<Segment>)
    ensures Cues(segs) == BlockStrings(PlainCues(segs))
    decreases |segs|
  {
    hide CueText, BlockString, PlainCue;
    if segs != [] {
      CuePrinted(segs[0]);
      CuesPrinted(segs[1..]);
      assert PlainCues(segs)[1..] == PlainCues(segs[1..]);
    }
  }
}
