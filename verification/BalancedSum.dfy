/** balancedSum: joining terms with '+' as a balanced tree, so that the number of terms
    the API allows stays within the nesting limit of ffmpeg's expression parser. */
module BalancedSum {
  import opened Options
  import opened FilterExpr

  /** The string the program prints. */
  function Balanced(parts: seq<string>): string {
    match |parts|
    case 0 => "0"
    case 1 => parts[0]
    case _ =>
      var mid := |parts| / 2;
      "(" + Balanced(parts[..mid]) + "+" + Balanced(parts[mid..]) + ")"
  }

  /** The expression that string stands for. */
  function Tree(terms: seq<Expr>): Expr {
    match |terms|
    case 0 => Num(0.0)
    case 1 => terms[0]
    case _ =>
      var mid := |terms| / 2;
      Add(Tree(terms[..mid]), Tree(terms[mid..]))
  }

  /** What every reader expects of a sum: the terms added up in order. */
  function FlatSum(terms: seq<Expr>, env: Env): real {
    if terms == [] then 0.0 else Eval(terms[0], env) + FlatSum(terms[1..], env)
  }

  ghost predicate Reads(parts: seq<string>, terms: seq<Expr>) {
    |parts| == |terms| && forall i :: 0 <= i < |parts| ==> IsTerm(parts[i], terms[i])
  }

  /** The printed sum is one operand, whatever expression it is spliced into: parenthesised
      for two or more terms, and for a single term no looser than a product. */
  lemma {:induction false} BalancedReads(parts: seq<string>, terms: seq<Expr>)
    requires Reads(parts, terms)
    ensures IsTerm(Balanced(parts), Tree(terms))
    ensures |parts| >= 2 ==> IsFactor(Balanced(parts), Tree(terms))
    decreases |parts|
  {
    if |parts| == 0 {
      ZeroIsFactor();
      FactorIsTerm("0", Num(0.0));
    } else if |parts| >= 2 {
      var mid := |parts| / 2;
      BalancedReads(parts[..mid], terms[..mid]);
      BalancedReads(parts[mid..], terms[mid..]);
      var l, r := Balanced(parts[..mid]), Balanced(parts[mid..]);
      TermIsSum(l, Tree(terms[..mid]));
      AddIsSum(l, Tree(terms[..mid]), r, Tree(terms[mid..]));
      ParenIsFactor(l + "+" + r, Tree(terms));
      assert "(" + (l + "+" + r) + ")" == Balanced(parts);
      FactorIsTerm(Balanced(parts), Tree(terms));
    }
  }

  lemma ZeroIsFactor()
    ensures IsFactor("0", Num(0.0))
  {
    forall rest: string | Boundary(rest)
      ensures ParseFactor("0" + rest) == Some((Num(0.0), rest))
    {
      D.DigitsSpan("0", rest);
      assert ("0" + rest)[..1] == "0" && ("0" + rest)[1..] == rest;
      assert "0"[..0] == "";
      assert D.Value("0") == D.Value("") * 10 + 0;
    }
  }

  lemma {:induction false} FlatSumSplit(a: seq<Expr>, b: seq<Expr>, env: Env)
    ensures FlatSum(a + b, env) == FlatSum(a, env) + FlatSum(b, env)
    decreases |a|
  {
    if a == [] {
      assert a + b == b;
    } else {
      assert (a + b)[1..] == a[1..] + b;
      FlatSumSplit(a[1..], b, env);
    }
  }

  lemma {:induction false} TreeValue(terms: seq<Expr>, env: Env)
    ensures Eval(Tree(terms), env) == FlatSum(terms, env)
    decreases |terms|
  {
    if |terms| >= 2 {
      var mid := |terms| / 2;
      TreeValue(terms[..mid], env);
      TreeValue(terms[mid..], env);
      FlatSumSplit(terms[..mid], terms[mid..], env);
      assert terms[..mid] + terms[mid..] == terms;
    } else if |terms| == 1 {
      assert FlatSum(terms[1..], env) == 0.0;
    }
  }

  /** The printed string parses, to an expression whose value is the flat sum in order. */
  lemma BalancedMeansFlatSum(parts: seq<string>, terms: seq<Expr>, env: Env)
    requires Reads(parts, terms)
    ensures Parse(Balanced(parts)) == Some(Tree(terms))
    ensures Eval(Tree(terms), env) == FlatSum(terms, env)
  {
    BalancedReads(parts, terms);
    TermIsSum(Balanced(parts), Tree(terms));
    SumParses(Balanced(parts), Tree(terms));
    TreeValue(terms, env);
  }

  // ----- depth

  /** The least k with n <= 2^k. */
  function CeilLog2(n: nat): nat {
    if n <= 1 then 0 else 1 + CeilLog2((n + 1) / 2)
  }

  function Pow2(k: nat): nat {
    if k == 0 then 1 else 2 * Pow2(k - 1)
  }

  lemma {:induction false} CeilLog2Exact(n: nat)
    requires n >= 1
    ensures n <= Pow2(CeilLog2(n))
    ensures CeilLog2(n) > 0 ==> Pow2(CeilLog2(n) - 1) < n
  {
    if n >= 2 {
      CeilLog2Exact((n + 1) / 2);
    }
  }

  lemma {:induction false} CeilLog2Monotone(m: nat, n: nat)
    requires m <= n
    ensures CeilLog2(m) <= CeilLog2(n)
  {
    if m >= 2 {
      CeilLog2Monotone((m + 1) / 2, (n + 1) / 2);
    }
  }

  /** For terms that all nest d deep, n of them nest exactly ceil(log2 n) deeper. */
  lemma {:induction false} TreeDepth(terms: seq<Expr>, d: nat)
    requires |terms| >= 1
    requires forall i :: 0 <= i < |terms| ==> Depth(terms[i]) == d
    ensures Depth(Tree(terms)) == CeilLog2(|terms|) + d
    decreases |terms|
  {
    if |terms| >= 2 {
      var mid := |terms| / 2;
      TreeDepth(terms[..mid], d);
      TreeDepth(terms[mid..], d);
      CeilLog2Monotone(mid, |terms| - mid);
      assert |terms| - mid == (|terms| + 1) / 2;
    }
  }

  // ----- the flat chain that the tree replaces

  function Chain(parts: seq<string>): string
    requires parts != []
  {
    if |parts| == 1 then parts[0] else Chain(parts[..|parts| - 1]) + "+" + parts[|parts| - 1]
  }

  function ChainTree(terms: seq<Expr>): Expr
    requires terms != []
  {
    if |terms| == 1 then terms[0] else Add(ChainTree(terms[..|terms| - 1]), terms[|terms| - 1])
  }

  lemma {:induction false} ChainReads(parts: seq<string>, terms: seq<Expr>)
    requires parts != [] && Reads(parts, terms)
    ensures IsSum(Chain(parts), ChainTree(terms))
    decreases |parts|
  {
    var n := |parts| - 1;
    if n == 0 {
      TermIsSum(parts[0], terms[0]);
    } else {
      ChainReads(parts[..n], terms[..n]);
      AddIsSum(Chain(parts[..n]), ChainTree(terms[..n]), parts[n], terms[n]);
    }
  }

  lemma {:induction false} ChainDepth(terms: seq<Expr>, d: nat)
    requires terms != []
    requires forall i :: 0 <= i < |terms| ==> Depth(terms[i]) == d
    ensures Depth(ChainTree(terms)) == |terms| - 1 + d
    decreases |terms|
  {
    var n := |terms| - 1;
    if n > 0 {
      ChainDepth(terms[..n], d);
    }
  }

  /** Joining the same terms as a+b+c nests one level per term, so it passes 100 levels
      at 102 terms, where the balanced tree needs seven. */
  lemma ChainNestsLinearly(parts: seq<string>, terms: seq<Expr>, d: nat)
    requires parts != [] && Reads(parts, terms)
    requires forall i :: 0 <= i < |terms| ==> Depth(terms[i]) == d
    ensures Parse(Chain(parts)) == Some(ChainTree(terms))
    ensures Depth(ChainTree(terms)) == |parts| - 1 + d
    ensures |parts| >= 102 ==> Depth(ChainTree(terms)) > 100
  {
    ChainReads(parts, terms);
    SumParses(Chain(parts), ChainTree(terms));
    ChainDepth(terms, d);
  }
}
