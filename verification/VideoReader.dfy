/** Reading a chain of video filters back, from its first link to its last: which filters there
    are, with which arguments, and what they do to the time of a frame. */
module VideoReader {
  import opened Bounds
  import opened Options
  import opened Text
  import opened FilterExpr
  import AudioText
  import D = Decimal

  datatype Filter =
    | SetPts(time: Expr)
    | Select(keep: Expr)
    | Fps(rate: nat)
    | Scale(width: Expr, height: Expr, options: seq<string>)

  datatype Chain = Chain(input: string, filters: seq<Filter>, output: string)

  // ----- cutting text outside quotes

  /** Index of the first sep that is not between quotes, or the length of s. */
  function Outside(s: string, sep: char, quoted: bool): (i: nat)
    ensures i <= |s|
  {
    if s == "" || (s[0] == sep && !quoted) then 0
    else 1 + Outside(s[1..], sep, if s[0] == '\'' then !quoted else quoted)
  }

  function SplitOutside(s: string, sep: char): (parts: seq<string>)
    ensures parts != []
    decreases |s|
  {
    var i := Outside(s, sep, false);
    if i == |s| then [s] else [s[..i]] + SplitOutside(s[i + 1..], sep)
  }

  /** An argument, without its quotes if it has any. */
  function Unquote(s: string): Option<string> {
    if '\'' !in s then Some(s)
    else if |s| >= 2 && s[0] == '\'' && s[|s| - 1] == '\'' && '\'' !in s[1..|s| - 1] then Some(s[1..|s| - 1])
    else None
  }

  // ----- the reader

  function ReadExpr(s: string): Option<Expr> {
    match Unquote(s)
    case None => None
    case Some(text) => Parse(text)
  }

  function ReadFilter(s: string): Option<Filter> {
    var eq := IndexOf(s, '=');
    if eq == |s| then None
    else ReadNamed(s[..eq], s[eq + 1..])
  }

  function ReadNamed(name: string, arg: string): Option<Filter> {
    if name == "setpts" then
      match ReadExpr(arg) case Some(e) => Some(SetPts(e)) case None => None
    else if name == "select" then
      match ReadExpr(arg) case Some(e) => Some(Select(e)) case None => None
    else if name == "fps" then
      match AudioText.ReadNat(arg) case Some(n) => Some(Fps(n)) case None => None
    else if name == "scale" then
      var parts := SplitOutside(arg, ':');
      if |parts| < 2 then None
      else
        var w, h := ReadExpr(parts[0]), ReadExpr(parts[1]);
        if w.Some? && h.Some? then Some(Scale(w.value, h.value, parts[2..])) else None
    else None
  }

  function ReadFilters(parts: seq<string>): Option<seq<Filter>> {
    if parts == [] then Some([])
    else
      var first, rest := ReadFilter(parts[0]), ReadFilters(parts[1..]);
      if first.Some? && rest.Some? then Some([first.value] + rest.value) else None
  }

  /** The whole chain: one link, the filters, one link, and nothing else. */
  function ReadChain(s: string): Option<Chain> {
    if s == "" || s[0] != '[' then None
    else
      var close := IndexOf(s, ']');
      if close == |s| then None
      else
        var body := s[close + 1..];
        var open := IndexOf(body, '[');
        if open == |body| then None
        else
          var tail := body[open + 1..];
          if tail == "" || IndexOf(tail, ']') != |tail| - 1 then None
          else match ReadFilters(SplitOutside(body[..open], ','))
            case None => None
            case Some(fs) => Some(Chain(s[1..close], fs, tail[..|tail| - 1]))
  }

  // ----- what a chain does to a frame

  /** Timestamp of a frame after the filters, or nothing if it is dropped; start is the timestamp
      of the first frame on the link. Changing the frame rate or the size leaves times alone. */
  function Shown(fs: seq<Filter>, pts: real, start: real, tb: real): Option<real> {
    if fs == [] then Some(pts)
    else match fs[0]
      case SetPts(e) => Shown(fs[1..], Eval(e, FrameEnv(pts, start, tb)), Eval(e, FrameEnv(start, start, tb)), tb)
      case Select(e) =>
        if Eval(e, FrameEnv(pts, start, tb)) != 0.0 then Shown(fs[1..], pts, start, tb) else None
      case Fps(_) => Shown(fs[1..], pts, start, tb)
      case Scale(_, _, _) => Shown(fs[1..], pts, start, tb)
  }

  function FrameEnv(pts: real, start: real, tb: real): Env {
    map["PTS" := pts, "STARTPTS" := start, "TB" := tb, "T" := pts * tb, "t" := pts * tb]
  }

  // ----- text that is one piece

  /** No sep outside quotes in a, and its quotes are closed. */
  ghost predicate Whole(a: string, sep: char) {
    forall rest: string {:trigger Outside(a + rest, sep, false)} ::
      Outside(a + rest, sep, false) == |a| + Outside(rest, sep, false)
  }

  lemma {:induction false} OutsidePlain(a: string, sep: char, rest: string)
    requires '\'' !in a && sep !in a
    ensures Outside(a + rest, sep, false) == |a| + Outside(rest, sep, false)
    decreases |a|
  {
    if a == "" {
      assert a + rest == rest;
    } else {
      assert (a + rest)[1..] == a[1..] + rest;
      OutsidePlain(a[1..], sep, rest);
    }
  }

  lemma {:induction false} OutsideQuoted(a: string, sep: char, rest: string)
    requires '\'' !in a
    ensures Outside(a + "'" + rest, sep, true) == |a| + 1 + Outside(rest, sep, false)
    decreases |a|
  {
    var s := a + "'" + rest;
    if a == "" {
      assert s == "'" + rest && s[1..] == rest;
    } else {
      assert s[1..] == a[1..] + "'" + rest;
      OutsideQuoted(a[1..], sep, rest);
    }
  }

  lemma WholePlain(a: string, sep: char)
    requires '\'' !in a && sep !in a
    ensures Whole(a, sep)
  {
    forall rest: string ensures Outside(a + rest, sep, false) == |a| + Outside(rest, sep, false) {
      OutsidePlain(a, sep, rest);
    }
  }

  lemma WholeQuoted(a: string, sep: char)
    requires '\'' !in a && sep != '\''
    ensures Whole("'" + a + "'", sep)
  {
    var q := "'" + a + "'";
    forall rest: string ensures Outside(q + rest, sep, false) == |q| + Outside(rest, sep, false) {
      assert (q + rest)[1..] == a + "'" + rest && (q + rest)[0] == '\'';
      OutsideQuoted(a, sep, rest);
    }
  }

  lemma WholeConcat(a: string, b: string, sep: char)
    requires Whole(a, sep) && Whole(b, sep)
    ensures Whole(a + b, sep)
  {
    forall rest: string ensures Outside(a + b + rest, sep, false) == |a + b| + Outside(rest, sep, false) {
      assert a + b + rest == a + (b + rest);
    }
  }

  lemma SplitOutsideCons(a: string, sep: char, rest: string)
    requires Whole(a, sep) && sep != '\''
    ensures SplitOutside(a + [sep] + rest, sep) == [a] + SplitOutside(rest, sep)
  {
    var s := a + [sep] + rest;
    assert s == a + ([sep] + rest);
    assert Outside(s, sep, false) == |a| by {
      assert Outside([sep] + rest, sep, false) == 0;
    }
    assert s[..|a|] == a && s[|a| + 1..] == rest;
  }

  lemma SplitOutsideWhole(a: string, sep: char)
    requires Whole(a, sep)
    ensures SplitOutside(a, sep) == [a]
  {
    assert a + "" == a;
    assert Outside(a + "", sep, false) == |a| + Outside("", sep, false);
  }

  // ----- reading filters that were printed

  lemma NamedRead(name: string, arg: string)
    requires '=' !in name
    ensures ReadFilter(name + "=" + arg) == ReadNamed(name, arg)
  {
    hide ReadNamed, IndexOf;
    var s := name + "=" + arg;
    IndexOfAfter(name, '=', arg);
    assert s[..|name|] == name && s[|name| + 1..] == arg;
  }

  lemma QuotedRead(text: string)
    requires '\'' !in text
    ensures ReadExpr("'" + text + "'") == Parse(text)
  {
    hide Parse;
    var s := "'" + text + "'";
    assert s[0] == '\'' && s[|s| - 1] == '\'' && s[1..|s| - 1] == text;
  }

  /** A size limit: the given number, or the source's size if that is smaller. */
  lemma LimitRead(n: nat, name: string, text: string)
    requires IsName(name) && text == "min(" + D.Digits(n) + "," + name + ")"
    ensures Parse(text) == Some(Call("min", [Num(n as real), Ident(name)]))
  {
    hide IsSum, IsTerm, IsFactor, Parse, D.Digits;
    var args, es := [D.Digits(n), name], [Num(n as real), Ident(name)];
    IntegerIsFactor(n);
    IdentIsFactor(name);
    FactorIsTerm(args[0], es[0]);
    FactorIsTerm(args[1], es[1]);
    TermIsSum(args[0], es[0]);
    TermIsSum(args[1], es[1]);
    CallIsFactor("min", args, es);
    assert args[1..] == [name];
    assert JoinArgs([name]) == name;
    assert JoinArgs(args) == D.Digits(n) + "," + name;
    assert text == "min" + "(" + JoinArgs(args) + ")";
    FactorIsTerm(text, Call("min", es));
    TermIsSum(text, Call("min", es));
    SumParses(text, Call("min", es));
  }
}
