/** The fragment of ffmpeg's expression language that the filter strings use: its
    abstract syntax, its concrete syntax as a recursive-descent parser with the usual
    precedence (call and parentheses, then * and /, then + and -, all left associative),
    and its meaning. */
module FilterExpr {
  import opened Bounds
  import opened Options
  import opened Text
  import D = Decimal

  datatype Expr =
    | Num(value: real)
    | Ident(name: string)
    | Call(fn: string, args: seq<Expr>)
    | Add(left: Expr, right: Expr)
    | Sub(left: Expr, right: Expr)
    | Mul(left: Expr, right: Expr)
    | Div(left: Expr, right: Expr)

  // ----- meaning

  type Env = map<string, real>

  function Truth(b: bool): real { if b then 1.0 else 0.0 }

  function Eval(e: Expr, env: Env): real {
    match e
    case Num(v) => v
    case Ident(x) => if x in env then env[x] else 0.0
    case Call(f, args) =>
      if f == "between" && |args| == 3 then
        Truth(Eval(args[1], env) <= Eval(args[0], env) <= Eval(args[2], env))
      else if f == "gte" && |args| == 2 then
        Truth(Eval(args[0], env) >= Eval(args[1], env))
      else if f == "not" && |args| == 1 then
        Truth(Eval(args[0], env) == 0.0)
      else if f == "min" && |args| == 2 then
        Least(Eval(args[0], env), Eval(args[1], env))
      else 0.0
    case Add(l, r) => Eval(l, env) + Eval(r, env)
    case Sub(l, r) => Eval(l, env) - Eval(r, env)
    case Mul(l, r) => Eval(l, env) * Eval(r, env)
    case Div(l, r) => var d := Eval(r, env); if d == 0.0 then 0.0 else Eval(l, env) / d
  }

  // ----- nesting, as libavutil counts it against MAX_DEPTH: every operator and every call adds one level

  function Depth(e: Expr): nat {
    match e
    case Num(_) => 0
    case Ident(_) => 0
    case Call(_, args) => 1 + DepthOfAll(args)
    case Add(l, r) => 1 + Max(Depth(l), Depth(r))
    case Sub(l, r) => 1 + Max(Depth(l), Depth(r))
    case Mul(l, r) => 1 + Max(Depth(l), Depth(r))
    case Div(l, r) => 1 + Max(Depth(l), Depth(r))
  }

  function DepthOfAll(es: seq<Expr>): nat {
    if es == [] then 0 else Max(Depth(es[0]), DepthOfAll(es[1..]))
  }

  // ----- concrete syntax

  /** Length of the longest prefix of letters. */
  function LetterSpan(s: string): (n: nat)
    ensures n <= |s|
  {
    if s != "" && IsLetter(s[0]) then 1 + LetterSpan(s[1..]) else 0
  }

  /** The digits after the point. */
  function Fraction(digits: string): real
    requires D.AllDigits(digits)
    decreases |digits|
  {
    if digits == "" then 0.0 else (D.DigitValue(digits[0]) as real + Fraction(digits[1..])) / 10.0
  }

  /** An optional point and the digits after it. */
  function ReadFraction(s: string): (p: (real, string))
    ensures |p.1| <= |s|
  {
    if s != "" && s[0] == '.' then
      var k := D.DigitSpan(s[1..]);
      (Fraction(s[1..][..k]), s[1..][k..])
    else (0.0, s)
  }

  function ParseNumber(s: string): (p: (Expr, string))
    requires s != "" && D.IsDigit(s[0])
    ensures |p.1| < |s|
  {
    var n := D.DigitSpan(s);
    var (f, rest) := ReadFraction(s[n..]);
    (Num(D.Value(s[..n]) as real + f), rest)
  }

  function ParseFactor(s: string): (p: Option<(Expr, string)>)
    ensures p.Some? ==> |p.value.1| < |s|
    decreases |s|, 1
  {
    if s == "" then None
    else if D.IsDigit(s[0]) then Some(ParseNumber(s))
    else if s[0] == '(' then
      match ParseSum(s[1..])
      case None => None
      case Some((e, rest)) =>
        if rest != "" && rest[0] == ')' then Some((e, rest[1..])) else None
    else if IsLetter(s[0]) then
      var n := LetterSpan(s);
      var rest := s[n..];
      if rest != "" && rest[0] == '(' then
        match ParseArgs(rest[1..])
        case None => None
        case Some((args, rest')) => Some((Call(s[..n], args), rest'))
      else
        Some((Ident(s[..n]), rest))
    else None
  }

  /** Comma-separated arguments up to and including the closing parenthesis. */
  function ParseArgs(s: string): (p: Option<(seq<Expr>, string)>)
    ensures p.Some? ==> |p.value.1| < |s|
    decreases |s|, 4
  {
    match ParseSum(s)
    case None => None
    case Some((e, rest)) =>
      if rest != "" && rest[0] == ')' then Some(([e], rest[1..]))
      else if rest != "" && rest[0] == ',' then
        match ParseArgs(rest[1..])
        case None => None
        case Some((es, rest')) => Some(([e] + es, rest'))
      else None
  }

  function ParseTerm(s: string): (p: Option<(Expr, string)>)
    ensures p.Some? ==> |p.value.1| < |s|
    decreases |s|, 2
  {
    match ParseFactor(s)
    case None => None
    case Some((e, rest)) => TermTail(e, rest)
  }

  function TermTail(acc: Expr, s: string): (p: Option<(Expr, string)>)
    ensures p.Some? ==> |p.value.1| <= |s|
    decreases |s|, 0
  {
    if s != "" && (s[0] == '*' || s[0] == '/') then
      match ParseFactor(s[1..])
      case None => None
      case Some((e, rest)) => TermTail(if s[0] == '*' then Mul(acc, e) else Div(acc, e), rest)
    else
      Some((acc, s))
  }

  function ParseSum(s: string): (p: Option<(Expr, string)>)
    ensures p.Some? ==> |p.value.1| < |s|
    decreases |s|, 3
  {
    match ParseTerm(s)
    case None => None
    case Some((e, rest)) => SumTail(e, rest)
  }

  function SumTail(acc: Expr, s: string): (p: Option<(Expr, string)>)
    ensures p.Some? ==> |p.value.1| <= |s|
    decreases |s|, 0
  {
    if s != "" && (s[0] == '+' || s[0] == '-') then
      match ParseTerm(s[1..])
      case None => None
      case Some((e, rest)) => SumTail(if s[0] == '+' then Add(acc, e) else Sub(acc, e), rest)
    else
      Some((acc, s))
  }

  /** A whole expression: nothing may be left over. */
  function Parse(s: string): Option<Expr> {
    match ParseSum(s)
    case None => None
    case Some((e, rest)) => if rest == "" then Some(e) else None
  }

  // ----- strings that parse as one unit whatever follows them

  /** What may follow a complete operand. */
  predicate Boundary(s: string) {
    s == "" || s[0] in "+-*/),"
  }

  ghost predicate IsFactor(s: string, e: Expr) {
    forall rest: string {:trigger ParseFactor(s + rest)} :: Boundary(rest) ==>
      ParseFactor(s + rest) == Some((e, rest))
  }

  /** s reads as the left operand e of whatever product continues it. */
  ghost predicate IsTerm(s: string, e: Expr) {
    forall rest: string {:trigger ParseTerm(s + rest)} :: Boundary(rest) ==>
      ParseTerm(s + rest) == TermTail(e, rest)
  }

  /** s reads as the left operand e of whatever sum continues it. */
  ghost predicate IsSum(s: string, e: Expr) {
    forall rest: string {:trigger ParseSum(s + rest)} ::
      Boundary(rest) && (rest != "" ==> rest[0] != '*' && rest[0] != '/') ==>
      ParseSum(s + rest) == SumTail(e, rest)
  }

  lemma FactorIsTerm(s: string, e: Expr)
    requires IsFactor(s, e)
    ensures IsTerm(s, e)
  {
    forall rest: string | Boundary(rest)
      ensures ParseTerm(s + rest) == TermTail(e, rest)
    {
      assert ParseFactor(s + rest) == Some((e, rest));
    }
  }

  lemma TermIsSum(s: string, e: Expr)
    requires IsTerm(s, e)
    ensures IsSum(s, e)
  {
    forall rest: string | Boundary(rest) && (rest != "" ==> rest[0] != '*' && rest[0] != '/')
      ensures ParseSum(s + rest) == SumTail(e, rest)
    {
      assert ParseTerm(s + rest) == TermTail(e, rest);
    }
  }

  lemma MulIsTerm(s: string, e: Expr, s': string, e': Expr)
    requires IsTerm(s, e) && IsFactor(s', e')
    ensures IsTerm(s + "*" + s', Mul(e, e'))
  {
    forall rest: string | Boundary(rest)
      ensures ParseTerm(s + "*" + s' + rest) == TermTail(Mul(e, e'), rest)
    {
      var tail := "*" + (s' + rest);
      assert s + "*" + s' + rest == s + tail;
      assert tail[1..] == s' + rest;
      assert ParseTerm(s + tail) == TermTail(e, tail);
      assert ParseFactor(s' + rest) == Some((e', rest));
    }
  }

  lemma DivIsTerm(s: string, e: Expr, s': string, e': Expr)
    requires IsTerm(s, e) && IsFactor(s', e')
    ensures IsTerm(s + "/" + s', Div(e, e'))
  {
    forall rest: string | Boundary(rest)
      ensures ParseTerm(s + "/" + s' + rest) == TermTail(Div(e, e'), rest)
    {
      var tail := "/" + (s' + rest);
      assert s + "/" + s' + rest == s + tail;
      assert tail[1..] == s' + rest;
      assert ParseTerm(s + tail) == TermTail(e, tail);
      assert ParseFactor(s' + rest) == Some((e', rest));
    }
  }

  lemma AddIsSum(s: string, e: Expr, s': string, e': Expr)
    requires IsSum(s, e) && IsTerm(s', e')
    ensures IsSum(s + "+" + s', Add(e, e'))
  {
    forall rest: string | Boundary(rest) && (rest != "" ==> rest[0] != '*' && rest[0] != '/')
      ensures ParseSum(s + "+" + s' + rest) == SumTail(Add(e, e'), rest)
    {
      var tail := "+" + (s' + rest);
      assert s + "+" + s' + rest == s + tail;
      assert tail[1..] == s' + rest;
      assert ParseSum(s + tail) == SumTail(e, tail);
      assert ParseTerm(s' + rest) == TermTail(e', rest) == Some((e', rest));
    }
  }

  lemma SubIsSum(s: string, e: Expr, s': string, e': Expr)
    requires IsSum(s, e) && IsTerm(s', e')
    ensures IsSum(s + "-" + s', Sub(e, e'))
  {
    forall rest: string | Boundary(rest) && (rest != "" ==> rest[0] != '*' && rest[0] != '/')
      ensures ParseSum(s + "-" + s' + rest) == SumTail(Sub(e, e'), rest)
    {
      var tail := "-" + (s' + rest);
      assert s + "-" + s' + rest == s + tail;
      assert tail[1..] == s' + rest;
      assert ParseSum(s + tail) == SumTail(e, tail);
      assert ParseTerm(s' + rest) == TermTail(e', rest) == Some((e', rest));
    }
  }

  lemma ParenIsFactor(s: string, e: Expr)
    requires IsSum(s, e)
    ensures IsFactor("(" + s + ")", e)
  {
    forall rest: string | Boundary(rest)
      ensures ParseFactor("(" + s + ")" + rest) == Some((e, rest))
    {
      var tail := ")" + rest;
      assert ("(" + s + ")" + rest)[1..] == s + tail;
      assert tail[1..] == rest;
      assert ParseSum(s + tail) == SumTail(e, tail) == Some((e, tail));
    }
  }

  lemma SumParses(s: string, e: Expr)
    requires IsSum(s, e)
    ensures Parse(s) == Some(e)
  {
    assert s + "" == s;
    assert ParseSum(s + "") == SumTail(e, "");
  }

  predicate IsName(x: string) {
    x != "" && forall i :: 0 <= i < |x| ==> IsLetter(x[i])
  }

  lemma {:induction false} NameSpan(x: string, rest: string)
    requires forall i :: 0 <= i < |x| ==> IsLetter(x[i])
    requires rest == "" || !IsLetter(rest[0])
    ensures LetterSpan(x + rest) == |x|
    decreases |x|
  {
    if x == "" {
      assert x + rest == rest;
    } else {
      assert (x + rest)[1..] == x[1..] + rest;
      NameSpan(x[1..], rest);
    }
  }

  lemma IdentIsFactor(x: string)
    requires IsName(x)
    ensures IsFactor(x, Ident(x))
  {
    forall rest: string | Boundary(rest)
      ensures ParseFactor(x + rest) == Some((Ident(x), rest))
    {
      NameSpan(x, rest);
      assert (x + rest)[..|x|] == x && (x + rest)[|x|..] == rest;
    }
  }

  function JoinArgs(ss: seq<string>): string
    requires ss != []
  {
    if |ss| == 1 then ss[0] else ss[0] + "," + JoinArgs(ss[1..])
  }

  lemma {:induction false} ArgsParse(ss: seq<string>, es: seq<Expr>, rest: string)
    requires |ss| == |es| > 0
    requires forall i :: 0 <= i < |ss| ==> IsSum(ss[i], es[i])
    ensures ParseArgs(JoinArgs(ss) + ")" + rest) == Some((es, rest))
    decreases |ss|
  {
    if |ss| == 1 {
      var tail := ")" + rest;
      assert JoinArgs(ss) + ")" + rest == ss[0] + tail;
      assert tail[1..] == rest;
      assert ParseSum(ss[0] + tail) == SumTail(es[0], tail) == Some((es[0], tail));
      assert es == [es[0]];
    } else {
      var tail := "," + (JoinArgs(ss[1..]) + ")" + rest);
      assert JoinArgs(ss) + ")" + rest == ss[0] + tail;
      assert tail[1..] == JoinArgs(ss[1..]) + ")" + rest;
      assert ParseSum(ss[0] + tail) == SumTail(es[0], tail) == Some((es[0], tail));
      ArgsParse(ss[1..], es[1..], rest);
      assert es == [es[0]] + es[1..];
    }
  }

  /** A name, an opening parenthesis and arguments that parse make a call. */
  lemma CallReads(f: string, inner: string, args: seq<Expr>, rest: string)
    requires IsName(f) && ParseArgs(inner) == Some((args, rest))
    ensures ParseFactor(f + ("(" + inner)) == Some((Call(f, args), rest))
  {
    hide ParseArgs, ParseNumber, ParseSum, LetterSpan;
    var tail := "(" + inner;
    var s := f + tail;
    NameSpan(f, tail);
    assert s[..|f|] == f && s[|f|..] == tail && tail[1..] == inner;
    assert s[0] == f[0] && IsLetter(s[0]);
  }

  lemma CallIsFactor(f: string, ss: seq<string>, es: seq<Expr>)
    requires IsName(f) && |ss| == |es| > 0
    requires forall i :: 0 <= i < |ss| ==> IsSum(ss[i], es[i])
    ensures IsFactor(f + "(" + JoinArgs(ss) + ")", Call(f, es))
  {
    hide IsSum, IsName, ParseFactor, ParseArgs, JoinArgs;
    forall rest: string | Boundary(rest)
      ensures ParseFactor(f + "(" + JoinArgs(ss) + ")" + rest) == Some((Call(f, es), rest))
    {
      var inner := JoinArgs(ss) + ")" + rest;
      ArgsParse(ss, es, rest);
      CallReads(f, inner, es, rest);
      assert f + "(" + JoinArgs(ss) + ")" + rest == f + ("(" + inner);
    }
  }

  // ----- millisecond literals

  /** %.3f of a non-negative time that is ms milliseconds after rounding. */
  function Literal(ms: nat): string {
    D.Digits(ms / 1000) + "." + D.Padded(ms % 1000, 3)
  }

  function Seconds(ms: int): real {
    ms as real / 1000.0
  }

  lemma LiteralParts(ms: nat)
    ensures var whole, frac := D.Digits(ms / 1000), D.Padded(ms % 1000, 3);
      && D.AllDigits(whole) && whole != "" && D.AllDigits(frac)
      && D.Value(whole) as real + Fraction(frac) == Seconds(ms)
  {
    hide D.Digits, D.Padded, Fraction, D.Value;
    D.DigitsValue(ms / 1000);
    assert D.Pow10(3) == 10 * D.Pow10(2) == 100 * D.Pow10(1) == 1000;
    D.PaddedValue(ms % 1000, 3);
    D.PaddedWidth(ms % 1000, 3);
    ThreeDigits(D.Padded(ms % 1000, 3));
    MilliParts(ms);
  }

  lemma LiteralIsFactor(ms: nat)
    ensures IsFactor(Literal(ms), Num(Seconds(ms)))
  {
    hide D.Digits, D.Padded, Fraction, D.Value, ParseNumber, Seconds;
    var whole, frac := D.Digits(ms / 1000), D.Padded(ms % 1000, 3);
    LiteralParts(ms);
    forall rest: string | Boundary(rest)
      ensures ParseFactor(Literal(ms) + rest) == Some((Num(Seconds(ms)), rest))
    {
      var s := Literal(ms) + rest;
      assert s == whole + "." + frac + rest;
      assert s[0] == whole[0] && D.IsDigit(s[0]);
      NumberRead(s, whole, frac, rest);
    }
  }

  lemma IntegerIsFactor(n: nat)
    ensures IsFactor(D.Digits(n), Num(n as real))
  {
    hide D.Digits, D.Value;
    D.DigitsValue(n);
    var s := D.Digits(n);
    forall rest: string | Boundary(rest)
      ensures ParseFactor(s + rest) == Some((Num(n as real), rest))
    {
      D.DigitsSpan(s, rest);
      assert (s + rest)[..|s|] == s && (s + rest)[|s|..] == rest && (s + rest)[0] == s[0];
      assert ReadFraction(rest) == (0.0, rest);
    }
  }

  lemma ThreeDigits(f: string)
    requires D.AllDigits(f) && |f| == 3
    ensures Fraction(f) == D.Value(f) as real / 1000.0
  {
    var a, b, c := D.DigitValue(f[0]), D.DigitValue(f[1]), D.DigitValue(f[2]);
    assert f[1..][1..] == f[2..] && f[2..][1..] == "";
    assert Fraction(f[2..]) == c as real / 10.0;
    assert Fraction(f[1..]) == (b as real + c as real / 10.0) / 10.0;
    assert f[..2][..1] == f[..1] && f[..1][..0] == "";
    assert D.Value(f[..1]) == a;
    assert D.Value(f[..2]) == 10 * a + b;
  }

  lemma FractionRead(frac: string, rest: string)
    requires D.AllDigits(frac) && Boundary(rest)
    ensures ReadFraction("." + (frac + rest)) == (Fraction(frac), rest)
  {
    var s := "." + (frac + rest);
    D.DigitsSpan(frac, rest);
    assert s[1..] == frac + rest;
    assert (frac + rest)[..|frac|] == frac && (frac + rest)[|frac|..] == rest;
  }

  lemma NumberRead(s: string, whole: string, frac: string, rest: string)
    requires D.AllDigits(whole) && D.AllDigits(frac) && Boundary(rest)
    requires s == whole + "." + frac + rest && s != "" && D.IsDigit(s[0])
    ensures ParseNumber(s) == (Num(D.Value(whole) as real + Fraction(frac)), rest)
  {
    hide D.Value, Fraction;
    var tail := "." + (frac + rest);
    assert s == whole + tail;
    D.DigitsSpan(whole, tail);
    assert s[..|whole|] == whole && s[|whole|..] == tail;
    FractionRead(frac, rest);
  }

  lemma MilliParts(ms: nat)
    ensures (ms / 1000) as real + (ms % 1000) as real / 1000.0 == Seconds(ms)
  {
    assert ms == 1000 * (ms / 1000) + ms % 1000;
    assert ms as real == 1000.0 * (ms / 1000) as real + (ms % 1000) as real;
  }
}
