/** String helpers of Go's strings package that several modules use. */
module Text {

  /** \s of Go's regular expressions. */
  predicate IsBlank(c: char) {
    c in "\t\n\r \U{000C}"
  }

  predicate IsLetter(c: char) {
    'a' <= c <= 'z' || 'A' <= c <= 'Z'
  }

  function Join(parts: seq<string>, sep: string): string {
    match |parts|
    case 0 => ""
    case 1 => parts[0]
    case _ => parts[0] + sep + Join(parts[1..], sep)
  }

  lemma {:induction false} JoinSplit(a: seq<string>, b: seq<string>, sep: string)
    requires a != [] && b != []
    ensures Join(a + b, sep) == Join(a, sep) + sep + Join(b, sep)
    decreases |a|
  {
    if |a| == 1 {
      assert (a + b)[1..] == b;
    } else {
      assert (a + b)[1..] == a[1..] + b;
      JoinSplit(a[1..], b, sep);
    }
  }

  /** Index of the first c in s, or the length of s. */
  function IndexOf(s: string, c: char): (i: nat)
    ensures i <= |s| && c !in s[..i] && (i < |s| ==> s[i] == c)
  {
    if s == "" || s[0] == c then 0 else 1 + IndexOf(s[1..], c)
  }

  /** strings.Split by a single character. */
  function SplitChar(s: string, c: char): (parts: seq<string>)
    ensures parts != []
    decreases |s|
  {
    var i := IndexOf(s, c);
    if i == |s| then [s] else [s[..i]] + SplitChar(s[i + 1..], c)
  }

  lemma {:induction false} IndexOfMissing(s: string, c: char)
    requires c !in s
    ensures IndexOf(s, c) == |s|
    decreases |s|
  {
    if s != "" {
      IndexOfMissing(s[1..], c);
    }
  }

  lemma SplitCharWhole(s: string, c: char)
    requires c !in s
    ensures SplitChar(s, c) == [s]
  {
    IndexOfMissing(s, c);
  }

  /** Past text without c, whatever follows either starts with c or is nothing. */
  lemma {:induction false} IndexOfPast(a: string, c: char, rest: string)
    requires c !in a && (rest == "" || rest[0] == c)
    ensures IndexOf(a + rest, c) == |a|
    decreases |a|
  {
    if a == "" {
      assert a + rest == rest;
    } else {
      assert (a + rest)[1..] == a[1..] + rest;
      IndexOfPast(a[1..], c, rest);
    }
  }

  lemma {:induction false} IndexOfAfter(a: string, c: char, rest: string)
    requires c !in a
    ensures IndexOf(a + [c] + rest, c) == |a|
    decreases |a|
  {
    if a != "" {
      assert (a + [c] + rest)[1..] == a[1..] + [c] + rest;
      IndexOfAfter(a[1..], c, rest);
    }
  }

  lemma SplitCharCons(a: string, c: char, rest: string)
    requires c !in a
    ensures SplitChar(a + [c] + rest, c) == [a] + SplitChar(rest, c)
  {
    IndexOfAfter(a, c, rest);
    var s := a + [c] + rest;
    assert s[..|a|] == a && s[|a| + 1..] == rest;
  }

  /** Joining what was split gives the text back. */
  lemma {:induction false} SplitCharJoin(s: string, c: char)
    ensures Join(SplitChar(s, c), [c]) == s
    decreases |s|
  {
    hide Join, IndexOf;
    var i := IndexOf(s, c);
    if i < |s| {
      var front, later := s[..i], SplitChar(s[i + 1..], c);
      SplitCharJoin(s[i + 1..], c);
      JoinSplit([front], later, [c]);
      JoinOne(front, [c]);
      assert s == front + [c] + s[i + 1..];
    } else {
      JoinOne(s, [c]);
    }
  }

  lemma NothingJoined(sep: string)
    ensures Join([], sep) == ""
  {
  }

  lemma JoinOne(s: string, sep: string)
    ensures Join([s], sep) == s
  {
  }

  /** Splitting what was joined gives the parts back, when none of them holds the separator. */
  lemma {:induction false} SplitJoin(parts: seq<string>, c: char)
    requires parts != [] && forall p :: p in parts ==> c !in p
    ensures SplitChar(Join(parts, [c]), c) == parts
    decreases |parts|
  {
    if |parts| == 1 {
      assert parts[0] in parts && parts == [parts[0]];
      SplitCharWhole(parts[0], c);
    } else {
      assert parts[0] in parts && parts == [parts[0]] + parts[1..];
      SplitCharCons(parts[0], c, Join(parts[1..], [c]));
      SplitJoin(parts[1..], c);
    }
  }

  lemma {:induction false} JoinAvoids(parts: seq<string>, sep: string, c: char)
    requires c !in sep && forall p :: p in parts ==> c !in p
    ensures c !in Join(parts, sep)
    decreases |parts|
  {
    if |parts| >= 2 {
      JoinAvoids(parts[1..], sep, c);
    }
  }

  lemma ConcatAvoids(a: string, b: string, c: char)
    requires c !in a && c !in b
    ensures c !in a + b
  {
  }
}
