/** WebVTT timestamps: how the program prints and reads them. Times are in milliseconds. */
module VttTime {
  import opened Options
  import opened Text
  import D = Decimal

  const MAX_INT64: int := 0x7fff_ffff_ffff_ffff

  function Format(time: int): string {
    var t: nat := if time < 0 then 0 else time;
    var h, rest := t / 3600000, t % 3600000;
    var m, rest' := rest / 60000, rest % 60000;
    D.Padded(h, 2) + ":" + D.Padded(m, 2) + ":" + D.Padded(rest' / 1000, 2) + "." + D.Padded(rest' % 1000, 3)
  }

  /** strconv.Atoi: an optional sign, digits, and the range of a 64-bit int. */
  function Atoi(s: string): Option<int> {
    if s == "" then None
    else if s[0] == '-' then Digits64(s[1..], true)
    else if s[0] == '+' then Digits64(s[1..], false)
    else Digits64(s, false)
  }

  function Digits64(s: string, negative: bool): Option<int> {
    if s == "" || !D.AllDigits(s) then None
    else
      var magnitude: int := D.Value(s);
      var v := if negative then -magnitude else magnitude;
      if -MAX_INT64 - 1 <= v <= MAX_INT64 then Some(v) else None
  }

  /** Index of the last c in s, or -1. */
  function LastIndexOf(s: string, c: char): (i: int)
    ensures -1 <= i < |s| && (i >= 0 ==> s[i] == c)
  {
    if s == "" then -1
    else if s[|s| - 1] == c then |s| - 1
    else LastIndexOf(s[..|s| - 1], c)
  }

  /** Seconds may exceed 59 and minutes too; the milliseconds may carry a sign. */
  function Parse(s: string): Option<int> {
    var dot := LastIndexOf(s, '.');
    if dot < 0 || |s| - dot != 4 then None
    else match Atoi(s[dot + 1..])
      case None => None
      case Some(ms) =>
        var hms := SplitChar(s[..dot], ':');
        if |hms| == 3 then Combine(Atoi(hms[0]), Atoi(hms[1]), Atoi(hms[2]), ms)
        else if |hms| == 2 then Combine(Some(0), Atoi(hms[0]), Atoi(hms[1]), ms)
        else None
  }

  function Combine(h: Option<int>, m: Option<int>, sec: Option<int>, ms: int): Option<int> {
    if h.None? || m.None? || sec.None? || h.value < 0 || m.value < 0 || sec.value < 0 then None
    else Some(h.value * 3600000 + m.value * 60000 + sec.value * 1000 + ms)
  }

  // ----- reading what was printed

  lemma AtoiDigits(s: string)
    requires s != "" && D.AllDigits(s) && D.Value(s) <= MAX_INT64
    ensures Atoi(s) == Some(D.Value(s))
  {
    assert D.IsDigit(s[0]);
  }

  lemma DigitsAvoid(s: string, c: char)
    requires D.AllDigits(s) && !D.IsDigit(c)
    ensures c !in s
  {
  }

  lemma {:induction false} LastIndexOfAfter(a: string, c: char, b: string)
    requires c !in b
    ensures LastIndexOf(a + [c] + b, c) == |a|
    decreases |b|
  {
    var s := a + [c] + b;
    if b != "" {
      assert s[..|s| - 1] == a + [c] + b[..|b| - 1];
      LastIndexOfAfter(a, c, b[..|b| - 1]);
    }
  }

  lemma SplitsInThree(hh: string, mm: string, ss: string)
    requires D.AllDigits(hh) && D.AllDigits(mm) && D.AllDigits(ss)
    ensures SplitChar(hh + ":" + mm + ":" + ss, ':') == [hh, mm, ss]
  {
    DigitsAvoid(hh, ':');
    DigitsAvoid(mm, ':');
    DigitsAvoid(ss, ':');
    assert hh + ":" + mm + ":" + ss == hh + ":" + (mm + ":" + ss);
    SplitCharCons(hh, ':', mm + ":" + ss);
    SplitCharCons(mm, ':', ss);
    assert SplitChar(ss, ':') == [ss];
  }

  function Clock(hh: string, mm: string, ss: string, ms: string): string {
    hh + ":" + mm + ":" + ss + "." + ms
  }

  predicate Numeral(s: string) {
    s != "" && D.AllDigits(s) && D.Value(s) <= MAX_INT64
  }

  lemma ParseParts(front: string, hh: string, mm: string, ss: string, ms: string)
    requires Numeral(ms) && |ms| == 3 && SplitChar(front, ':') == [hh, mm, ss]
    ensures Parse(front + "." + ms) == Combine(Atoi(hh), Atoi(mm), Atoi(ss), D.Value(ms))
  {
    var s := front + "." + ms;
    DigitsAvoid(ms, '.');
    LastIndexOfAfter(front, '.', ms);
    assert s[|front| + 1..] == ms && s[..|front|] == front;
    AtoiDigits(ms);
  }

  /** Reading hours, minutes, seconds and milliseconds that are all plain digits. */
  lemma ParseClock(hh: string, mm: string, ss: string, ms: string)
    requires Numeral(hh) && Numeral(mm) && Numeral(ss) && Numeral(ms) && |ms| == 3
    ensures Parse(Clock(hh, mm, ss, ms)) == Combine(Some(D.Value(hh)), Some(D.Value(mm)), Some(D.Value(ss)), D.Value(ms))
  {
    SplitsInThree(hh, mm, ss);
    ParseParts(hh + ":" + mm + ":" + ss, hh, mm, ss, ms);
    AtoiDigits(hh);
    AtoiDigits(mm);
    AtoiDigits(ss);
  }

  /** The fields of a time. */
  lemma Fields(t: nat) returns (h: nat, m: nat, sec: nat, ms: nat)
    ensures m < 60 && sec < 60 && ms < 1000 && t == h * 3600000 + m * 60000 + sec * 1000 + ms
  {
    h, m, sec, ms := t / 3600000, (t / 60000) % 60, (t / 1000) % 60, t % 1000;
    assert t == 1000 * (t / 1000) + ms;
    assert t / 1000 == 60 * (t / 60000) + sec;
    assert t / 60000 == 60 * h + m;
  }

  /** How a time prints, with its fields. */
  lemma FormatClock(t: nat) returns (h: nat, m: nat, sec: nat, ms: nat)
    ensures m < 60 && sec < 60 && ms < 1000 && t == h * 3600000 + m * 60000 + sec * 1000 + ms
    ensures Format(t) == Clock(D.Padded(h, 2), D.Padded(m, 2), D.Padded(sec, 2), D.Padded(ms, 3))
  {
    h, m, sec, ms := Fields(t);
    FormatFields(h, m, sec, ms);
  }

  lemma FormatFields(h: nat, m: nat, sec: nat, ms: nat)
    requires m < 60 && sec < 60 && ms < 1000
    ensures Format(h * 3600000 + m * 60000 + sec * 1000 + ms) ==
            Clock(D.Padded(h, 2), D.Padded(m, 2), D.Padded(sec, 2), D.Padded(ms, 3))
  {
    var t := h * 3600000 + m * 60000 + sec * 1000 + ms;
    assert t / 3600000 == h && t % 3600000 == m * 60000 + sec * 1000 + ms;
    assert (t % 3600000) / 60000 == m && (t % 3600000) % 60000 == sec * 1000 + ms;
    assert (sec * 1000 + ms) / 1000 == sec && (sec * 1000 + ms) % 1000 == ms;
  }

  lemma PaddedNumeral(n: nat, width: nat)
    requires 1 <= width <= 3 && n <= MAX_INT64
    ensures Numeral(D.Padded(n, width)) && D.Value(D.Padded(n, width)) == n && |D.Padded(n, width)| >= width
    ensures (width == 2 && n < 100) || (width == 3 && n < 1000) ==> |D.Padded(n, width)| == width
  {
    assert D.Pow10(3) == 10 * D.Pow10(2) == 100 * D.Pow10(1) == 1000;
    D.PaddedValue(n, width);
    D.PaddedWidth(n, width);
  }

  lemma ParseTime(h: nat, m: nat, sec: nat, ms: nat)
    requires m < 60 && sec < 60 && ms < 1000 && h <= MAX_INT64
    ensures Parse(Clock(D.Padded(h, 2), D.Padded(m, 2), D.Padded(sec, 2), D.Padded(ms, 3))) ==
            Combine(Some(h), Some(m), Some(sec), ms)
  {
    PaddedNumeral(h, 2);
    PaddedNumeral(m, 2);
    PaddedNumeral(sec, 2);
    PaddedNumeral(ms, 3);
    ParseClock(D.Padded(h, 2), D.Padded(m, 2), D.Padded(sec, 2), D.Padded(ms, 3));
  }

  /** Reading a printed time gives the same millisecond, however many hours it has. */
  lemma ParseFormat(t: int)
    requires 0 <= t <= 0x7fff_ffff_ffff_ffff
    ensures Parse(Format(t)) == Some(t)
  {
    hide Format, Parse;
    var h, m, sec, ms := FormatClock(t);
    ParseTime(h, m, sec, ms);
  }

  // ----- canonical text

  /** Two digits of hours or more without a leading zero, minutes and seconds below sixty. */
  ghost predicate CanonicalFields(hh: string, mm: string, ss: string, ms: string) {
    && Numeral(hh) && Numeral(mm) && Numeral(ss) && Numeral(ms)
    && |hh| >= 2 && (|hh| > 2 ==> hh[0] != '0') && |mm| == 2 && |ss| == 2 && |ms| == 3
    && D.Value(mm) < 60 && D.Value(ss) < 60
  }

  ghost predicate Canonical(s: string) {
    exists hh, mm, ss, ms :: CanonicalFields(hh, mm, ss, ms) && s == Clock(hh, mm, ss, ms)
  }

  lemma {:induction false} ValueBelow(s: string)
    requires D.AllDigits(s)
    ensures D.Value(s) < D.Pow10(|s|)
    decreases |s|
  {
    if s != "" {
      ValueBelow(s[..|s| - 1]);
    }
  }

  lemma DigitCharValue(c: char)
    requires D.IsDigit(c)
    ensures D.DigitChar(D.DigitValue(c)) == c
  {
  }

  /** A numeral without a leading zero is what %d prints for its value. */
  lemma {:induction false} DigitsOfValue(s: string)
    requires D.AllDigits(s) && s != "" && (|s| > 1 ==> s[0] != '0')
    ensures D.Digits(D.Value(s)) == s
    ensures |s| > 1 ==> D.Value(s) >= 10
    decreases |s|
  {
    var front, c := s[..|s| - 1], s[|s| - 1];
    DigitCharValue(c);
    if front == "" {
      assert D.Value(s) == D.DigitValue(c);
      assert s == [c];
    } else {
      DigitsOfValue(front);
      if |front| == 1 {
        assert front[..0] == "";
        assert D.Value(front) == D.DigitValue(front[0]) > 0;
      }
      assert D.Value(s) / 10 == D.Value(front) && D.Value(s) % 10 == D.DigitValue(c);
      assert s == front + [c];
    }
  }

  /** A numeral of full width is what %0wd prints for its value. */
  lemma {:induction false} PaddedOfValue(s: string)
    requires D.AllDigits(s) && s != ""
    ensures D.Padded(D.Value(s), |s|) == s
    decreases |s|
  {
    if |s| == 1 || s[0] != '0' {
      DigitsOfValue(s);
    } else {
      var rest := s[1..];
      assert s == "0" + rest;
      D.LeadingZeros("0", rest);
      PaddedOfValue(rest);
      ValueBelow(rest);
      D.DigitsLength(D.Value(rest), |rest|);
      assert D.Zeros(|s| - |D.Digits(D.Value(s))|) == "0" + D.Zeros(|rest| - |D.Digits(D.Value(s))|);
    }
  }

  lemma HoursOfValue(hh: string)
    requires D.AllDigits(hh) && |hh| >= 2 && (|hh| > 2 ==> hh[0] != '0')
    ensures D.Padded(D.Value(hh), 2) == hh
  {
    if |hh| == 2 {
      PaddedOfValue(hh);
    } else {
      DigitsOfValue(hh);
    }
  }

  /** Printing what was read from canonical text gives the text back. */
  lemma FormatParse(s: string)
    requires Canonical(s)
    ensures Parse(s).Some? && Parse(s).value >= 0 && Format(Parse(s).value) == s
  {
    hide Format, Parse;
    var hh, mm, ss, ms :| CanonicalFields(hh, mm, ss, ms) && s == Clock(hh, mm, ss, ms);
    ValueBelow(ms);
    assert D.Pow10(3) == 10 * D.Pow10(2) == 100 * D.Pow10(1) == 1000;
    ParseClock(hh, mm, ss, ms);
    FormatFields(D.Value(hh), D.Value(mm), D.Value(ss), D.Value(ms));
    HoursOfValue(hh);
    PaddedOfValue(mm);
    PaddedOfValue(ss);
    PaddedOfValue(ms);
  }

  lemma TimeCanonical(h: nat, m: nat, sec: nat, ms: nat)
    requires m < 60 && sec < 60 && ms < 1000 && h <= MAX_INT64
    ensures Canonical(Clock(D.Padded(h, 2), D.Padded(m, 2), D.Padded(sec, 2), D.Padded(ms, 3)))
  {
    PaddedNumeral(h, 2);
    PaddedNumeral(m, 2);
    PaddedNumeral(sec, 2);
    PaddedNumeral(ms, 3);
    D.DigitsValue(h);
    var hh := D.Padded(h, 2);
    if |hh| > 2 {
      assert hh == D.Digits(h);
    }
    assert CanonicalFields(hh, D.Padded(m, 2), D.Padded(sec, 2), D.Padded(ms, 3));
  }

  lemma FormatCanonical(t: int)
    requires 0 <= t <= MAX_INT64
    ensures Canonical(Format(t))
  {
    var h, m, sec, ms := FormatClock(t);
    TimeCanonical(h, m, sec, ms);
  }

  /** Text with minutes or seconds past 59 is normalised without moving the instant it names. */
  lemma FormatNormalises(s: string)
    requires Parse(s).Some? && 0 <= Parse(s).value <= MAX_INT64
    ensures Canonical(Format(Parse(s).value))
    ensures Parse(Format(Parse(s).value)) == Parse(s)
  {
    FormatCanonical(Parse(s).value);
    ParseFormat(Parse(s).value);
  }

  // ----- everything the reader accepts

  /** s is an integer as Go writes and reads it, and v its value. */
  predicate Writes(s: string, v: int) {
    && -MAX_INT64 - 1 <= v <= MAX_INT64 && s != ""
    && (if s[0] == '-' then s[1..] != "" && D.AllDigits(s[1..]) && v == -(D.Value(s[1..]) as int)
        else if s[0] == '+' then s[1..] != "" && D.AllDigits(s[1..]) && v == D.Value(s[1..])
        else D.AllDigits(s) && v == D.Value(s))
  }

  lemma AtoiExactly(s: string, v: int)
    ensures Atoi(s) == Some(v) <==> Writes(s, v)
  {
  }

  lemma WritesAvoids(s: string, v: int, c: char)
    requires Writes(s, v) && (c == ':' || c == '.')
    ensures c !in s
  {
    hide D.Value;
    if s[0] == '-' || s[0] == '+' {
      assert s == [s[0]] + s[1..];
      DigitsAvoid(s[1..], c);
    } else {
      DigitsAvoid(s, c);
    }
  }

  /** The texts of the fields, and what they write. */
  datatype Fieldwise = Fieldwise(hh: string, mm: string, ss: string, ms: string, h: int, m: int, sec: int, k: int)

  /** Hours, minutes, seconds and milliseconds, with their weights. */
  predicate IsThree(f: Fieldwise, s: string, t: int) {
    && Writes(f.hh, f.h) && Writes(f.mm, f.m) && Writes(f.ss, f.sec) && Writes(f.ms, f.k)
    && f.h >= 0 && f.m >= 0 && f.sec >= 0 && |f.ms| == 3
    && s == f.hh + ":" + f.mm + ":" + f.ss + "." + f.ms && t == 3600000 * f.h + 60000 * f.m + 1000 * f.sec + f.k
  }

  /** Minutes, seconds and milliseconds. */
  predicate IsTwo(f: Fieldwise, s: string, t: int) {
    && Writes(f.mm, f.m) && Writes(f.ss, f.sec) && Writes(f.ms, f.k)
    && f.m >= 0 && f.sec >= 0 && |f.ms| == 3
    && s == f.mm + ":" + f.ss + "." + f.ms && t == 60000 * f.m + 1000 * f.sec + f.k
  }

  ghost predicate ThreeFields(s: string, t: int) {
    exists f :: IsThree(f, s, t)
  }

  ghost predicate TwoFields(s: string, t: int) {
    exists f :: IsTwo(f, s, t)
  }

  lemma SplitTwo(mm: string, ss: string)
    requires ':' !in mm && ':' !in ss
    ensures SplitChar(mm + ":" + ss, ':') == [mm, ss]
  {
    SplitCharCons(mm, ':', ss);
    SplitCharWhole(ss, ':');
  }

  lemma SplitThree(hh: string, mm: string, ss: string)
    requires ':' !in hh && ':' !in mm && ':' !in ss
    ensures SplitChar(hh + ":" + mm + ":" + ss, ':') == [hh, mm, ss]
  {
    assert hh + ":" + mm + ":" + ss == hh + ":" + (mm + ":" + ss);
    SplitCharCons(hh, ':', mm + ":" + ss);
    SplitTwo(mm, ss);
  }

  /** The time before the milliseconds, and the milliseconds. */
  lemma ParseFront(front: string, ms: string, k: int)
    requires Writes(ms, k) && |ms| == 3
    ensures Parse(front + "." + ms) ==
            var hms := SplitChar(front, ':');
            if |hms| == 3 then Combine(Atoi(hms[0]), Atoi(hms[1]), Atoi(hms[2]), k)
            else if |hms| == 2 then Combine(Some(0), Atoi(hms[0]), Atoi(hms[1]), k)
            else None
  {
    hide SplitChar, Combine, Atoi;
    var s := front + "." + ms;
    WritesAvoids(ms, k, '.');
    LastIndexOfAfter(front, '.', ms);
    assert s[|front| + 1..] == ms && s[..|front|] == front;
    AtoiExactly(ms, k);
  }

  lemma ThreeFieldsRead(hh: string, mm: string, ss: string, ms: string, h: int, m: int, sec: int, k: int)
    requires Writes(hh, h) && Writes(mm, m) && Writes(ss, sec) && Writes(ms, k) && |ms| == 3
    requires h >= 0 && m >= 0 && sec >= 0
    ensures Parse(hh + ":" + mm + ":" + ss + "." + ms) == Some(3600000 * h + 60000 * m + 1000 * sec + k)
  {
    hide Parse, SplitChar, Atoi, Writes;
    WritesAvoids(hh, h, ':');
    WritesAvoids(mm, m, ':');
    WritesAvoids(ss, sec, ':');
    SplitThree(hh, mm, ss);
    ParseFront(hh + ":" + mm + ":" + ss, ms, k);
    AtoiExactly(hh, h);
    AtoiExactly(mm, m);
    AtoiExactly(ss, sec);
  }

  lemma TwoFieldsRead(mm: string, ss: string, ms: string, m: int, sec: int, k: int)
    requires Writes(mm, m) && Writes(ss, sec) && Writes(ms, k) && |ms| == 3
    requires m >= 0 && sec >= 0
    ensures Parse(mm + ":" + ss + "." + ms) == Some(60000 * m + 1000 * sec + k)
  {
    hide Parse, SplitChar, Atoi, Writes;
    WritesAvoids(mm, m, ':');
    WritesAvoids(ss, sec, ':');
    SplitTwo(mm, ss);
    ParseFront(mm + ":" + ss, ms, k);
    AtoiExactly(mm, m);
    AtoiExactly(ss, sec);
  }

  lemma JoinThree(a: string, b: string, c: string)
    ensures Join([a, b, c], ":") == a + ":" + b + ":" + c && Join([a, b], ":") == a + ":" + b
  {
    hide Join;
    JoinOne(a, ":");
    JoinOne(b, ":");
    JoinOne(c, ":");
    JoinSplit([a], [b], ":");
    JoinSplit([b], [c], ":");
    JoinSplit([a], [b, c], ":");
    assert [a] + [b, c] == [a, b, c] && [b] + [c] == [b, c] && [a] + [b] == [a, b];
    assert a + ":" + b + ":" + c == a + ":" + (b + ":" + c);
  }

  lemma ThreeAccepted(s: string, t: int)
    requires ThreeFields(s, t)
    ensures Parse(s) == Some(t)
  {
    hide Parse, Writes;
    var f :| IsThree(f, s, t);
    ThreeFieldsRead(f.hh, f.mm, f.ss, f.ms, f.h, f.m, f.sec, f.k);
  }

  lemma TwoAccepted(s: string, t: int)
    requires TwoFields(s, t)
    ensures Parse(s) == Some(t)
  {
    hide Parse, Writes;
    var f :| IsTwo(f, s, t);
    TwoFieldsRead(f.mm, f.ss, f.ms, f.m, f.sec, f.k);
  }

  /** What is accepted, and as what: two or three fields of non-negative integers, however large, and
      three characters of milliseconds. Everything else is refused. */
  lemma ParseExactly(s: string, t: int)
    ensures Parse(s) == Some(t) <==> ThreeFields(s, t) || TwoFields(s, t)
  {
    hide Parse, ThreeFields, TwoFields;
    if ThreeFields(s, t) {
      ThreeAccepted(s, t);
    } else if TwoFields(s, t) {
      TwoAccepted(s, t);
    } else if Parse(s) == Some(t) {
      AcceptedHasFields(s, t);
    }
  }

  lemma AcceptedHasFields(s: string, t: int)
    requires Parse(s) == Some(t)
    ensures ThreeFields(s, t) || TwoFields(s, t)
  {
    hide SplitChar, Atoi, Writes, LastIndexOf, Join;
    var dot := LastIndexOf(s, '.');
    var ms, front := s[dot + 1..], s[..dot];
    var hms := SplitChar(front, ':');
    var k := Atoi(ms).value;
    AtoiExactly(ms, k);
    SplitCharJoin(front, ':');
    assert s == front + "." + ms;
    if |hms| == 3 {
      var h, m, sec := Atoi(hms[0]).value, Atoi(hms[1]).value, Atoi(hms[2]).value;
      assert hms == [hms[0], hms[1], hms[2]];
      JoinThree(hms[0], hms[1], hms[2]);
      AtoiExactly(hms[0], h);
      AtoiExactly(hms[1], m);
      AtoiExactly(hms[2], sec);
      assert IsThree(Fieldwise(hms[0], hms[1], hms[2], ms, h, m, sec, k), s, t);
    } else {
      var m, sec := Atoi(hms[0]).value, Atoi(hms[1]).value;
      assert hms == [hms[0], hms[1]];
      JoinThree(hms[0], hms[1], "");
      AtoiExactly(hms[0], m);
      AtoiExactly(hms[1], sec);
      assert IsTwo(Fieldwise("", hms[0], hms[1], ms, 0, m, sec, k), s, t);
    }
  }
}
