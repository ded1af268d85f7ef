/** Reading the printed audio graph back: chains between semicolons, links in brackets, and the
    four filters with their arguments. */
module AudioText {
  import opened Options
  import opened Text
  import opened AudioGraph
  import opened FilterExpr
  import D = Decimal

  // ----- the reader

  function ReadNat(s: string): Option<nat> {
    if s != "" && D.AllDigits(s) then Some(D.Value(s)) else None
  }

  /** Seconds with three decimals, as milliseconds. */
  function ReadMilli(s: string): Option<nat> {
    var dot := IndexOf(s, '.');
    if 0 < dot && dot + 4 == |s| && D.AllDigits(s[..dot]) && D.AllDigits(s[dot + 1..]) then
      Some(1000 * D.Value(s[..dot]) + D.Value(s[dot + 1..]))
    else None
  }

  function ReadMillis(parts: seq<string>): Option<seq<nat>> {
    if parts == [] then Some([])
    else
      var first, rest := ReadMilli(parts[0]), ReadMillis(parts[1..]);
      if first.Some? && rest.Some? then Some([first.value] + rest.value) else None
  }

  const SPLIT_HEAD := "asettb=1/sr,asetpts=N,asegment=timestamps='"
  const CONCAT_HEAD := "concat=n="
  const CONCAT_TAIL := ":v=0:a=1"

  function ReadFilter(s: string): Option<Filter> {
    if s == "asetpts=PTS-STARTPTS" then Some(Rebase)
    else if s == "anullsink" then Some(Sink)
    else if CONCAT_HEAD <= s then
      var body := s[|CONCAT_HEAD|..];
      var colon := IndexOf(body, ':');
      match ReadNat(body[..colon])
      case Some(n) => if body[colon..] == CONCAT_TAIL then Some(Concat(n)) else None
      case None => None
    else if SPLIT_HEAD <= s && |s| > |SPLIT_HEAD| && s[|s| - 1] == '\'' then
      var body := s[|SPLIT_HEAD|..|s| - 1];
      match (if body == "" then Some([]) else ReadMillis(SplitChar(body, '|')))
      case Some(marks) => Some(Split(marks))
      case None => None
    else None
  }

  /** A link's name, without the brackets. */
  function ReadLabel(name: string): Option<Label> {
    if name == "0:a" then Some(SourceAudio)
    else if name == "a" then Some(Out)
    else if "aseg" <= name then
      match ReadNat(name[4..]) case Some(i) => Some(Seg(i)) case None => None
    else if "akeep" <= name then
      match ReadNat(name[5..]) case Some(i) => Some(Keep(i)) case None => None
    else None
  }

  /** The links at the start of s, and what follows them. */
  function ReadLabels(s: string): (r: Option<(seq<Label>, string)>)
    decreases |s|
  {
    if s == "" || s[0] != '[' then Some(([], s))
    else
      var close := IndexOf(s, ']');
      if close == |s| then None
      else
        var l, rest := ReadLabel(s[1..close]), ReadLabels(s[close + 1..]);
        if l.Some? && rest.Some? then Some(([l.value] + rest.value.0, rest.value.1)) else None
  }

  function ReadChain(s: string): Option<Chain> {
    match ReadLabels(s)
    case None => None
    case Some((inputs, rest)) =>
      var open := IndexOf(rest, '[');
      var f, outs := ReadFilter(rest[..open]), ReadLabels(rest[open..]);
      if f.Some? && outs.Some? && outs.value.1 == "" then Some(Chain(inputs, f.value, outs.value.0)) else None
  }

  function ReadChains(parts: seq<string>): Option<seq<Chain>> {
    if parts == [] then Some([])
    else
      var first, rest := ReadChain(parts[0]), ReadChains(parts[1..]);
      if first.Some? && rest.Some? then Some([first.value] + rest.value) else None
  }

  function ReadGraph(s: string): Option<seq<Chain>> {
    ReadChains(SplitChar(s, ';'))
  }

  // ----- reading what was printed

  lemma DigitsRead(n: nat)
    ensures ReadNat(D.Digits(n)) == Some(n)
    ensures forall c :: c in D.Digits(n) ==> D.IsDigit(c)
  {
    D.DigitsValue(n);
  }

  lemma PartsRead(whole: string, frac: string)
    requires D.AllDigits(whole) && whole != "" && D.AllDigits(frac) && |frac| == 3
    ensures ReadMilli(whole + "." + frac) == Some(1000 * D.Value(whole) + D.Value(frac))
    ensures forall c :: c in whole + "." + frac ==> D.IsDigit(c) || c == '.'
  {
    hide D.Value, IndexOf;
    var s := whole + "." + frac;
    assert '.' !in whole;
    IndexOfAfter(whole, '.', frac);
    assert s[..|whole|] == whole && s[|whole| + 1..] == frac;
  }

  lemma MilliRead(ms: nat)
    ensures ReadMilli(Literal(ms)) == Some(ms)
    ensures forall c :: c in Literal(ms) ==> D.IsDigit(c) || c == '.'
  {
    hide ReadMilli, D.Digits, D.Padded, D.Value;
    D.DigitsValue(ms / 1000);
    D.PaddedValue(ms % 1000, 3);
    assert D.Pow10(3) == 10 * D.Pow10(2) == 100 * D.Pow10(1) == 1000;
    D.PaddedWidth(ms % 1000, 3);
    PartsRead(D.Digits(ms / 1000), D.Padded(ms % 1000, 3));
  }

  lemma {:induction false} MillisRead(marks: seq<nat>)
    ensures ReadMillis(Literals(marks)) == Some(marks)
    ensures forall p :: p in Literals(marks) ==> p != "" && '|' !in p && '[' !in p && ';' !in p
    decreases |marks|
  {
    hide Literal, ReadMilli;
    if marks != [] {
      MilliRead(marks[0]);
      assert Literal(marks[0]) != "" by { hide *; LiteralIsText(marks[0]); }
      MillisRead(marks[1..]);
      assert Literals(marks)[1..] == Literals(marks[1..]);
      assert Literals(marks) == [Literal(marks[0])] + Literals(marks[1..]);
      assert marks == [marks[0]] + marks[1..];
    }
  }

  lemma LiteralIsText(ms: nat)
    ensures Literal(ms) != ""
  {
  }

  lemma ConcatRead(n: nat)
    ensures ReadFilter(FilterText(Concat(n))) == Some(Concat(n))
  {
    hide ReadNat, D.Digits;
    DigitsRead(n);
    var d, s := D.Digits(n), FilterText(Concat(n));
    assert s == CONCAT_HEAD + (d + CONCAT_TAIL);
    assert s[0] == 'c' && s[|CONCAT_HEAD|..] == d + CONCAT_TAIL;
    assert d + CONCAT_TAIL == d + [':'] + "v=0:a=1";
    IndexOfAfter(d, ':', "v=0:a=1");
    assert (d + CONCAT_TAIL)[..|d|] == d && (d + CONCAT_TAIL)[|d|..] == CONCAT_TAIL;
  }

  lemma Around(head: string, body: string, tail: string)
    ensures var s := head + body + tail;
      s[..|head|] == head && s[|head|..|s| - |tail|] == body && s[|s| - |tail|..] == tail
  {
  }

  /** The text of a split is none of the other filters. */
  lemma SplitHeadFirst(s: string)
    requires SPLIT_HEAD <= s
    ensures !(CONCAT_HEAD <= s) && s != "asetpts=PTS-STARTPTS" && s != "anullsink"
  {
    assert s[1] == SPLIT_HEAD[1] == 's' && s[4] == SPLIT_HEAD[4] == 't' && s[5] == SPLIT_HEAD[5] == 'b';
    assert CONCAT_HEAD[1] == 'o';
  }

  lemma MarksRead(marks: seq<nat>)
    ensures var body := Join(Literals(marks), "|");
      (if body == "" then Some([]) else ReadMillis(SplitChar(body, '|'))) == Some(marks)
  {
    hide Literals, ReadMillis, SplitChar, Join;
    MillisRead(marks);
    LiteralsLength(marks);
    if marks == [] {
      NothingJoined("|");
    } else {
      SplitJoin(Literals(marks), '|');
      JoinedIsText(marks);
    }
  }

  lemma SplitRead(marks: seq<nat>)
    ensures ReadFilter(FilterText(Split(marks))) == Some(Split(marks))
  {
    hide Literals, ReadMillis, SplitChar, Join;
    var head, body, s := SPLIT_HEAD, Join(Literals(marks), "|"), FilterText(Split(marks));
    assert s == head + body + "'";
    Around(head, body, "'");
    SplitHeadFirst(s);
    assert s[|s| - 1..] == "'" && s[|s| - 1] == s[|s| - 1..][0];
    MarksRead(marks);
  }

  lemma LiteralsLength(marks: seq<nat>)
    ensures |Literals(marks)| == |marks|
  {
  }

  lemma JoinedIsText(marks: seq<nat>)
    requires marks != []
    ensures Join(Literals(marks), "|") != ""
  {
    hide Literal;
    LiteralIsText(marks[0]);
  }

  lemma HeadAvoids()
    ensures '[' !in SPLIT_HEAD && ';' !in SPLIT_HEAD
  {
  }

  lemma SplitAvoids(marks: seq<nat>, c: char)
    requires c == '[' || c == ';'
    ensures c !in FilterText(Split(marks))
  {
    hide Literals, Join;
    HeadAvoids();
    MillisRead(marks);
    JoinAvoids(Literals(marks), "|", c);
    var head, body := SPLIT_HEAD, Join(Literals(marks), "|");
    assert FilterText(Split(marks)) == head + body + "'";
    ConcatAvoids(head, body, c);
    ConcatAvoids(head + body, "'", c);
  }

  lemma ConcatChars(n: nat)
    ensures '[' !in FilterText(Concat(n)) && ';' !in FilterText(Concat(n))
  {
    hide D.Digits;
    DigitsRead(n);
    assert FilterText(Concat(n)) == CONCAT_HEAD + D.Digits(n) + CONCAT_TAIL;
  }

  lemma FilterRead(f: Filter)
    ensures ReadFilter(FilterText(f)) == Some(f)
    ensures '[' !in FilterText(f) && ';' !in FilterText(f)
  {
    hide ReadFilter, FilterText;
    match f
    case Split(marks) =>
      SplitRead(marks);
      SplitAvoids(marks, '[');
      SplitAvoids(marks, ';');
    case Rebase => FixedRead();
    case Sink => FixedRead();
    case Concat(n) =>
      ConcatRead(n);
      ConcatChars(n);
  }

  lemma FilterNotEmpty(f: Filter)
    ensures FilterText(f) != ""
  {
  }

  lemma FixedRead()
    ensures ReadFilter(FilterText(Rebase)) == Some(Rebase)
    ensures ReadFilter(FilterText(Sink)) == Some(Sink)
    ensures forall c :: c in FilterText(Rebase) || c in FilterText(Sink) ==> c != '[' && c != ';'
  {
  }

  function Name(l: Label): string {
    match l
    case SourceAudio => "0:a"
    case Seg(i) => "aseg" + D.Digits(i)
    case Keep(i) => "akeep" + D.Digits(i)
    case Out => "a"
  }

  lemma NumberedRead(i: nat)
    ensures ReadLabel("aseg" + D.Digits(i)) == Some(Seg(i))
    ensures ReadLabel("akeep" + D.Digits(i)) == Some(Keep(i))
  {
    hide D.Digits, ReadNat;
    DigitsRead(i);
    var seg, keep := "aseg" + D.Digits(i), "akeep" + D.Digits(i);
    assert seg[0] == keep[0] == 'a' && seg[1] == 's' && keep[1] == 'k';
    assert seg[4..] == D.Digits(i) && keep[5..] == D.Digits(i);
  }

  lemma NumberedChars(i: nat)
    ensures forall c :: c in "aseg" + D.Digits(i) || c in "akeep" + D.Digits(i) ==> c != ']' && c != ';'
  {
    hide D.Digits;
    DigitsRead(i);
  }

  lemma FixedNamesRead()
    ensures ReadLabel("0:a") == Some(SourceAudio) && ReadLabel("a") == Some(Out)
  {
  }

  lemma NameRead(l: Label)
    ensures ReadLabel(Name(l)) == Some(l) && LabelText(l) == "[" + Name(l) + "]"
    ensures ']' !in Name(l) && ';' !in Name(l)
  {
    hide D.Digits, ReadLabel;
    FixedNamesRead();
    match l
    case Seg(i) =>
      NumberedRead(i);
      NumberedChars(i);
      assert LabelText(l) == "[" + Name(l) + "]";
    case Keep(i) =>
      NumberedRead(i);
      NumberedChars(i);
      assert LabelText(l) == "[" + Name(l) + "]";
    case _ =>
  }

  /** One link at the front is read, whatever comes after it. */
  lemma LabelRead(l: Label, rest: string)
    requires ReadLabels(rest).Some?
    ensures ReadLabels(LabelText(l) + rest) == Some(([l] + ReadLabels(rest).value.0, ReadLabels(rest).value.1))
  {
    hide Name, LabelText, ReadLabel;
    NameRead(l);
    var s := "[" + Name(l) + "]" + rest;
    IndexOfAfter("[" + Name(l), ']', rest);
    assert s[1..|Name(l)| + 1] == Name(l) && s[|Name(l)| + 2..] == rest;
  }

  lemma JoinCons(l: Label, ls: seq<Label>)
    ensures Join(LabelTexts([l] + ls), "") == LabelText(l) + Join(LabelTexts(ls), "")
  {
    hide Join, LabelText;
    var parts := LabelTexts(ls);
    assert LabelTexts([l] + ls) == [LabelText(l)] + parts;
    JoinOne(LabelText(l), "");
    if ls == [] {
      NothingJoined("");
      assert [LabelText(l)] + parts == [LabelText(l)] && LabelText(l) + "" == LabelText(l);
    } else {
      JoinSplit([LabelText(l)], parts, "");
      assert LabelText(l) + "" == LabelText(l);
    }
  }

  lemma {:induction false} LabelsRead(ls: seq<Label>, rest: string)
    requires rest == "" || rest[0] != '['
    ensures ReadLabels(Join(LabelTexts(ls), "") + rest) == Some((ls, rest))
    decreases |ls|
  {
    hide LabelText, LabelTexts, Join, Name, ReadLabel;
    if ls == [] {
      NoLabels();
      assert "" + rest == rest;
    } else {
      var first, later := LabelText(ls[0]), Join(LabelTexts(ls[1..]), "");
      assert ls == [ls[0]] + ls[1..];
      JoinCons(ls[0], ls[1..]);
      LabelsRead(ls[1..], rest);
      assert first + later + rest == first + (later + rest);
      hide ReadLabels;
      LabelRead(ls[0], later + rest);
    }
  }

  lemma {:induction false} LabelsShape(ls: seq<Label>)
    ensures var s := Join(LabelTexts(ls), "");
      ';' !in s && (if ls == [] then s == "" else s != "" && s[0] == '[')
    decreases |ls|
  {
    hide LabelText, LabelTexts, Join, Name, ReadLabel;
    NoLabels();
    if ls != [] {
      assert ls == [ls[0]] + ls[1..];
      JoinCons(ls[0], ls[1..]);
      LabelsShape(ls[1..]);
      NameRead(ls[0]);
      ConcatAvoids(LabelText(ls[0]), Join(LabelTexts(ls[1..]), ""), ';');
    }
  }

  lemma ChainRead(c: Chain)
    ensures ReadChain(ChainText(c)) == Some(c) && ';' !in ChainText(c)
  {
    hide FilterText, ReadFilter, ReadLabels, LabelTexts, Join, IndexOf;
    var ins, f, outs := Join(LabelTexts(c.inputs), ""), FilterText(c.filter), Join(LabelTexts(c.outputs), "");
    FilterRead(c.filter);
    FilterNotEmpty(c.filter);
    assert f[0] in f;
    assert ChainText(c) == ins + f + outs == ins + (f + outs);
    LabelsRead(c.inputs, f + outs);
    LabelsRead(c.outputs, "");
    LabelsShape(c.inputs);
    LabelsShape(c.outputs);
    assert outs + "" == outs;
    FilterEnds(f, outs);
    ConcatAvoids(ins, f, ';');
    ConcatAvoids(ins + f, outs, ';');
  }

  lemma NoLabels()
    ensures Join(LabelTexts([]), "") == ""
  {
    assert LabelTexts([]) == [];
    NothingJoined("");
  }

  lemma FilterEnds(f: string, outs: string)
    requires '[' !in f && (outs == "" || outs[0] == '[')
    ensures IndexOf(f + outs, '[') == |f| && (f + outs)[..|f|] == f && (f + outs)[|f|..] == outs
  {
    hide IndexOf;
    IndexOfPast(f, '[', outs);
  }

  lemma {:induction false} ChainsRead(g: seq<Chain>)
    ensures ReadChains(ChainTexts(g)) == Some(g)
    ensures forall p :: p in ChainTexts(g) ==> ';' !in p
    decreases |g|
  {
    hide ChainText, ReadChain;
    if g != [] {
      ChainRead(g[0]);
      ChainsRead(g[1..]);
      assert ChainTexts(g) == [ChainText(g[0])] + ChainTexts(g[1..]);
      assert g == [g[0]] + g[1..];
    }
  }

  /** Every non-empty graph reads back from its text, so no two graphs print alike. */
  lemma GraphRead(g: seq<Chain>)
    requires g != []
    ensures ReadGraph(GraphText(g)) == Some(g)
  {
    hide ChainText, ReadChain, ReadChains;
    ChainsRead(g);
    SplitJoin(ChainTexts(g), ';');
  }
}
