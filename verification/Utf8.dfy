/** Truncating text on bytes without breaking UTF-8, as RFC 3629 defines it in section 4. */
module Utf8 {

  newtype byte = b: int | 0 <= b < 256

  const MAX_NAME_LENGTH: nat := 100
  const MAX_MESSAGE_LENGTH: nat := 2000

  predicate Tail(b: byte) { 0x80 <= b <= 0xBF }

  /** Length of the character at the start of s, by the grammar of section 4; 0 if there is none. */
  function RuneLength(s: seq<byte>): (n: nat)
    ensures n <= |s| && n <= 4
  {
    if s == [] then 0
    else if s[0] <= 0x7F then 1
    else if |s| >= 2 && 0xC2 <= s[0] <= 0xDF && Tail(s[1]) then 2
    else if |s| >= 3 && Three(s[0], s[1]) && Tail(s[2]) then 3
    else if |s| >= 4 && Four(s[0], s[1]) && Tail(s[2]) && Tail(s[3]) then 4
    else 0
  }

  predicate Three(a: byte, b: byte) {
    || (a == 0xE0 && 0xA0 <= b <= 0xBF)
    || ((0xE1 <= a <= 0xEC || 0xEE <= a <= 0xEF) && Tail(b))
    || (a == 0xED && 0x80 <= b <= 0x9F)
  }

  predicate Four(a: byte, b: byte) {
    || (a == 0xF0 && 0x90 <= b <= 0xBF)
    || (0xF1 <= a <= 0xF3 && Tail(b))
    || (a == 0xF4 && 0x80 <= b <= 0x8F)
  }

  predicate Valid(s: seq<byte>) {
    s == [] || (RuneLength(s) > 0 && Valid(s[RuneLength(s)..]))
  }

  /** A character is recognised the same way whatever follows it. */
  lemma RuneLengthLocal(s: seq<byte>, t: seq<byte>)
    requires RuneLength(s) > 0 && |t| >= RuneLength(s) && t[..RuneLength(s)] == s[..RuneLength(s)]
    ensures RuneLength(t) == RuneLength(s)
  {
    var n := RuneLength(s);
    assert forall i :: 0 <= i < n ==> t[i] == t[..n][i] == s[..n][i] == s[i];
  }

  lemma RuneThenValid(s: seq<byte>, rest: seq<byte>)
    requires RuneLength(s) > 0 && Valid(rest)
    ensures Valid(s[..RuneLength(s)] + rest)
  {
    hide Tail, Three, Four;
    var n := RuneLength(s);
    var t := s[..n] + rest;
    assert t[..n] == s[..n];
    RuneLengthLocal(s, t);
    assert t[n..] == rest;
  }

  // ----- the encoder of section 3

  /** Code points that are characters: no surrogates, none past the end of Unicode. */
  predicate Scalar(cp: nat) {
    cp < 0xD800 || 0xE000 <= cp <= 0x10FFFF
  }

  function Encode(cp: nat): seq<byte>
    requires Scalar(cp)
  {
    if cp < 0x80 then [cp as byte]
    else if cp < 0x800 then [(0xC0 + cp / 64) as byte, (0x80 + cp % 64) as byte]
    else if cp < 0x10000 then [(0xE0 + cp / 4096) as byte, (0x80 + cp / 64 % 64) as byte, (0x80 + cp % 64) as byte]
    else [(0xF0 + cp / 262144) as byte, (0x80 + cp / 4096 % 64) as byte, (0x80 + cp / 64 % 64) as byte, (0x80 + cp % 64) as byte]
  }

  ghost predicate Scalars(cps: seq<nat>) {
    forall cp :: cp in cps ==> Scalar(cp)
  }

  function EncodeAll(cps: seq<nat>): seq<byte>
    requires forall cp :: cp in cps ==> Scalar(cp)
  {
    if cps == [] then [] else
      assert cps[0] in cps && forall cp :: cp in cps[1..] ==> cp in cps;
      Encode(cps[0]) + EncodeAll(cps[1..])
  }

  lemma TwoEncoded(cp: nat, rest: seq<byte>)
    requires 0x80 <= cp < 0x800
    ensures RuneLength(Encode(cp) + rest) == 2 == |Encode(cp)|
  {
    var s := Encode(cp) + rest;
    assert s[0] as int == 0xC0 + cp / 64 && s[1] as int == 0x80 + cp % 64;
    assert 2 <= cp / 64 < 32;
  }

  lemma ThreeEncoded(cp: nat, rest: seq<byte>)
    requires 0x800 <= cp < 0x10000 && Scalar(cp)
    ensures RuneLength(Encode(cp) + rest) == 3 == |Encode(cp)|
  {
    var s := Encode(cp) + rest;
    var x, xy := cp / 4096, cp / 64;
    assert xy / 64 == x && xy % 64 == xy - 64 * x;
    assert s[0] as int == 0xE0 + x && s[1] as int == 0x80 + xy % 64 && s[2] as int == 0x80 + cp % 64;
    assert x == 0 ==> xy >= 32;
    assert x == 13 ==> cp < 0xD800 && xy < 864;
    assert Three(s[0], s[1]) && Tail(s[2]);
  }

  lemma FourEncoded(cp: nat, rest: seq<byte>)
    requires 0x10000 <= cp <= 0x10FFFF
    ensures RuneLength(Encode(cp) + rest) == 4 == |Encode(cp)|
  {
    var s := Encode(cp) + rest;
    var w, wx := cp / 262144, cp / 4096;
    assert wx / 64 == w && wx % 64 == wx - 64 * w && 16 <= wx <= 271;
    assert s[0] as int == 0xF0 + w && s[1] as int == 0x80 + wx % 64;
    assert s[2] as int == 0x80 + cp / 64 % 64 && s[3] as int == 0x80 + cp % 64;
    assert Four(s[0], s[1]) && Tail(s[2]) && Tail(s[3]);
  }

  lemma EncodedRune(cp: nat, rest: seq<byte>)
    requires Scalar(cp)
    ensures RuneLength(Encode(cp) + rest) == |Encode(cp)| > 0
  {
    if cp >= 0x10000 {
      FourEncoded(cp, rest);
    } else if cp >= 0x800 {
      ThreeEncoded(cp, rest);
    } else if cp >= 0x80 {
      TwoEncoded(cp, rest);
    }
  }

  lemma Sixes(x: nat, y: nat)
    requires y < 64
    ensures (64 * x + y) / 64 == x && (64 * x + y) % 64 == y
  {
  }

  /** The code point of a character of two bytes, of three, and of four. */
  lemma TwoBytes(a: byte, b: byte) returns (cp: nat)
    requires 0xC2 <= a <= 0xDF && Tail(b)
    ensures Scalar(cp) && Encode(cp) == [a, b]
  {
    cp := 64 * (a as int - 0xC0) + (b as int - 0x80);
    Sixes(a as int - 0xC0, b as int - 0x80);
  }

  lemma ThreeBytes(a: byte, b: byte, c: byte) returns (cp: nat)
    requires Three(a, b) && Tail(c)
    ensures Scalar(cp) && Encode(cp) == [a, b, c]
  {
    var x, y, z := a as int - 0xE0, b as int - 0x80, c as int - 0x80;
    var xy: nat := 64 * x + y;
    cp := 64 * xy + z;
    Sixes(x, y);
    Sixes(xy, z);
    assert cp / 4096 == x by { assert 0 <= 64 * y + z < 4096; }
    assert cp == 4096 * x + 64 * y + z;
  }

  lemma FourBytes(a: byte, b: byte, c: byte, d: byte) returns (cp: nat)
    requires Four(a, b) && Tail(c) && Tail(d)
    ensures Scalar(cp) && Encode(cp) == [a, b, c, d]
  {
    var w, x, y, z := a as int - 0xF0, b as int - 0x80, c as int - 0x80, d as int - 0x80;
    var wx: nat := 64 * w + x;
    var wxy: nat := 64 * wx + y;
    cp := 64 * wxy + z;
    Sixes(w, x);
    Sixes(wx, y);
    Sixes(wxy, z);
    assert cp == 4096 * wx + (64 * y + z) && 0 <= 64 * y + z < 4096;
    assert cp / 4096 == wx;
    assert cp == 262144 * w + (4096 * x + 64 * y + z) && 0 <= 4096 * x + 64 * y + z < 262144;
    assert cp / 262144 == w;
  }

  lemma RuneEncodes(s: seq<byte>) returns (cp: nat)
    requires RuneLength(s) > 0
    ensures Scalar(cp) && Encode(cp) == s[..RuneLength(s)]
  {
    hide Three, Four, Tail, Scalar, Encode;
    var n := RuneLength(s);
    if n == 1 {
      OneByte(s[0]);
      cp := s[0] as int;
    } else if n == 2 {
      cp := TwoBytes(s[0], s[1]);
    } else if n == 3 {
      cp := ThreeBytes(s[0], s[1], s[2]);
    } else {
      cp := FourBytes(s[0], s[1], s[2], s[3]);
    }
  }

  lemma OneByte(a: byte)
    requires a <= 0x7F
    ensures Scalar(a as int) && Encode(a as int) == [a]
  {
  }

  lemma {:induction false} EncodedIsValid(cps: seq<nat>)
    requires Scalars(cps)
    ensures Valid(EncodeAll(cps))
    decreases |cps|
  {
    hide RuneLength, Encode;
    if cps != [] {
      assert cps[0] in cps && Scalars(cps[1..]);
      EncodedIsValid(cps[1..]);
      var first, rest := Encode(cps[0]), EncodeAll(cps[1..]);
      EncodedRune(cps[0], rest);
      assert (first + rest)[|first|..] == rest;
    }
  }

  lemma {:induction false} ValidIsEncoded(s: seq<byte>) returns (cps: seq<nat>)
    requires Valid(s)
    ensures Scalars(cps) && EncodeAll(cps) == s
    decreases |s|
  {
    hide RuneLength, Encode;
    if s == [] {
      cps := [];
    } else {
      var cp := RuneEncodes(s);
      var rest := ValidIsEncoded(s[RuneLength(s)..]);
      cps := [cp] + rest;
      assert cps[1..] == rest;
      assert s == s[..RuneLength(s)] + s[RuneLength(s)..];
    }
  }

  /** Text is valid exactly when it is the encoding of some characters. */
  lemma ValidExactly(s: seq<byte>)
    ensures Valid(s) <==> exists cps: seq<nat> :: Scalars(cps) && EncodeAll(cps) == s
  {
    hide Valid, EncodeAll;
    if Valid(s) {
      var cps := ValidIsEncoded(s);
    }
    if cps: seq<nat> :| Scalars(cps) && EncodeAll(cps) == s {
      EncodedIsValid(cps);
    }
  }

  /** Valid text has a character boundary within three bytes before any point. */
  lemma {:induction false} BoundaryNear(s: seq<byte>, n: nat) returns (k: nat)
    requires Valid(s) && n <= |s|
    ensures n - 3 <= k <= n && Valid(s[..k])
    decreases |s|
  {
    var l := RuneLength(s);
    if s == [] || l > n {
      k := 0;
    } else {
      var k' := BoundaryNear(s[l..], n - l);
      k := l + k';
      assert s[..k] == s[..l] + s[l..][..k'];
      RuneThenValid(s, s[l..][..k']);
    }
  }

  /** Display names from an identity provider. */
  method ClampName(name: seq<byte>) returns (b: seq<byte>)
    ensures |name| <= 100 ==> b == name
    ensures |name| > 100 ==>
      && |b| <= 100 && b == name[..|b|] && Valid(b)
      && forall k :: |b| < k <= 100 ==> !Valid(name[..k])
    ensures |name| > 100 && Valid(name) ==> 97 <= |b|
  {
    if |name| <= MAX_NAME_LENGTH {
      return name;
    }
    b := name[..MAX_NAME_LENGTH];
    while |b| > 0 && !Valid(b)
      invariant |b| <= MAX_NAME_LENGTH && b == name[..|b|]
      invariant forall k :: |b| < k <= MAX_NAME_LENGTH ==> !Valid(name[..k])
    {
      b := b[..|b| - 1];
    }
    if Valid(name) {
      var k := BoundaryNear(name, MAX_NAME_LENGTH);
    }
  }

  // ----- error messages

  /** strings.ToValidUTF8(s, ""): every byte that starts no character is dropped. */
  function DropInvalid(s: seq<byte>): (r: seq<byte>)
    ensures |r| <= |s|
  {
    if s == [] then []
    else if RuneLength(s) > 0 then s[..RuneLength(s)] + DropInvalid(s[RuneLength(s)..])
    else DropInvalid(s[1..])
  }

  function DropNul(s: seq<byte>): (r: seq<byte>)
    ensures |r| <= |s| && 0 !in r
  {
    if s == [] then [] else (if s[0] == 0 then [] else [s[0]]) + DropNul(s[1..])
  }

  lemma {:induction false} DropInvalidValid(s: seq<byte>)
    ensures Valid(DropInvalid(s))
    decreases |s|
  {
    if s != [] {
      if RuneLength(s) > 0 {
        DropInvalidValid(s[RuneLength(s)..]);
        RuneThenValid(s, DropInvalid(s[RuneLength(s)..]));
      } else {
        DropInvalidValid(s[1..]);
      }
    }
  }

  lemma {:induction false} DropNulConcat(a: seq<byte>, b: seq<byte>)
    ensures DropNul(a + b) == DropNul(a) + DropNul(b)
    decreases |a|
  {
    if a == [] {
      assert a + b == b;
    } else {
      assert (a + b)[1..] == a[1..] + b;
      DropNulConcat(a[1..], b);
      var first := if a[0] == 0 then [] else [a[0]];
      assert first + (DropNul(a[1..]) + DropNul(b)) == (first + DropNul(a[1..])) + DropNul(b);
    }
  }

  lemma {:induction false} NoNulKept(s: seq<byte>)
    requires 0 !in s
    ensures DropNul(s) == s
    decreases |s|
  {
    if s != [] {
      NoNulKept(s[1..]);
      assert s == [s[0]] + s[1..];
    }
  }

  /** A character other than the zero byte holds no zero byte. */
  lemma RuneHasNoNul(s: seq<byte>)
    requires RuneLength(s) > 0 && s[0] != 0
    ensures DropNul(s[..RuneLength(s)]) == s[..RuneLength(s)]
  {
    hide DropNul;
    NoNulKept(s[..RuneLength(s)]);
  }

  /** A zero byte is a character of its own, so taking it out breaks no other. */
  lemma {:induction false} DropNulValid(s: seq<byte>)
    requires Valid(s)
    ensures Valid(DropNul(s))
    decreases |s|
  {
    if s != [] {
      var n := RuneLength(s);
      assert s[0] == 0 ==> n == 1;
      hide RuneLength, DropNul;
      DropNulValid(s[n..]);
      if s[0] == 0 {
        NulDropped(s);
      } else {
        assert s == s[..n] + s[n..];
        DropNulConcat(s[..n], s[n..]);
        RuneHasNoNul(s);
        RuneThenValid(s, DropNul(s[n..]));
      }
    }
  }

  lemma NulDropped(s: seq<byte>)
    requires s != [] && s[0] == 0
    ensures DropNul(s) == DropNul(s[1..])
  {
    assert DropNul(s) == [] + DropNul(s[1..]);
  }

  lemma {:induction false} ValidKept(s: seq<byte>)
    requires Valid(s)
    ensures DropInvalid(s) == s
    decreases |s|
  {
    hide RuneLength;
    if s != [] {
      ValidKept(s[RuneLength(s)..]);
      assert s == s[..RuneLength(s)] + s[RuneLength(s)..];
    }
  }

  /** Valid text survives in front of whatever follows it. */
  lemma {:induction false} ValidPrefixKept(a: seq<byte>, b: seq<byte>)
    requires Valid(a)
    ensures DropInvalid(a + b) == a + DropInvalid(b)
    decreases |a|
  {
    hide RuneLength, DropInvalid;
    if a == [] {
      assert a + b == b && [] + DropInvalid(b) == DropInvalid(b);
    } else {
      var first, rest := a[..RuneLength(a)], a[RuneLength(a)..];
      RuneFirst(a, b);
      ValidPrefixKept(rest, b);
      assert first + (rest + DropInvalid(b)) == (first + rest) + DropInvalid(b);
      assert a == first + rest;
    }
  }

  lemma RuneFirst(a: seq<byte>, b: seq<byte>)
    requires RuneLength(a) > 0
    ensures DropInvalid(a + b) == a[..RuneLength(a)] + DropInvalid(a[RuneLength(a)..] + b)
  {
    hide RuneLength;
    var n := RuneLength(a);
    assert (a + b)[..n] == a[..n] && (a + b)[n..] == a[n..] + b;
    RuneLengthLocal(a, a + b);
  }

  lemma OneByteDropped(p: seq<byte>)
    requires p != [] && RuneLength(p) == 0
    ensures DropInvalid(p) == DropInvalid(p[1..])
  {
  }

  /** Bytes that only continue a character are all dropped when none starts one. */
  lemma {:induction false} TailsDropped(p: seq<byte>)
    requires forall b :: b in p ==> Tail(b)
    ensures DropInvalid(p) == []
    decreases |p|
  {
    if p != [] {
      assert Tail(p[0]);
      OneByteDropped(p);
      TailsDropped(p[1..]);
    }
  }

  /** A character cut short leaves nothing behind. */
  lemma BrokenRuneDropped(s: seq<byte>, n: nat)
    requires n < RuneLength(s)
    ensures DropInvalid(s[..n]) == []
  {
    hide DropInvalid;
    var p := s[..n];
    if n == 0 {
      TailsDropped(p);
    } else {
      assert p[0] == s[0] && RuneLength(p) == 0;
      OneByteDropped(p);
      forall b | b in p[1..] ensures Tail(b) {
        var i :| 0 <= i < n - 1 && p[1..][i] == b;
        assert b == s[i + 1];
      }
      TailsDropped(p[1..]);
    }
  }

  /** Cutting valid text anywhere and dropping what is broken leaves a prefix of it that is
      at most three bytes shorter than the cut. */
  lemma {:induction false} CutLeavesPrefix(s: seq<byte>, n: nat) returns (k: nat)
    requires Valid(s) && n <= |s|
    ensures n - 3 <= k <= n && DropInvalid(s[..n]) == s[..k]
    decreases |s|
  {
    hide RuneLength, DropInvalid;
    var l := RuneLength(s);
    if s == [] || l > n {
      k := 0;
      BrokenOrNothing(s, n);
    } else {
      var k' := CutLeavesPrefix(s[l..], n - l);
      k := l + k';
      SliceSplit(s, l, n);
      SliceSplit(s, l, k);
      WholeRuneKept(s, s[l..][..n - l]);
    }
  }

  lemma SliceSplit(s: seq<byte>, l: nat, n: nat)
    requires l <= n <= |s|
    ensures s[..n] == s[..l] + s[l..][..n - l]
  {
  }

  lemma WholeRuneKept(s: seq<byte>, later: seq<byte>)
    requires RuneLength(s) > 0
    ensures DropInvalid(s[..RuneLength(s)] + later) == s[..RuneLength(s)] + DropInvalid(later)
  {
    hide RuneLength, DropInvalid;
    var first := s[..RuneLength(s)];
    RuneLengthLocal(s, first);
    RuneFirst(first, later);
    assert first[..|first|] == first && first[|first|..] + later == later;
  }

  lemma BrokenOrNothing(s: seq<byte>, n: nat)
    requires n <= |s| && (s == [] || n < RuneLength(s))
    ensures DropInvalid(s[..n]) == []
  {
    if s != [] {
      BrokenRuneDropped(s, n);
    }
  }

  /** The message stored with a failed transcode. */
  method StoredMessage(cause: seq<byte>) returns (msg: seq<byte>)
    ensures Valid(msg) && 0 !in msg && |msg| <= 2000
    ensures msg == DropNul(DropInvalid(if |cause| > 2000 then cause[..2000] else cause))
    ensures Valid(cause) && 0 !in cause ==>
      if |cause| <= 2000 then msg == cause else 1997 <= |msg| && msg == cause[..|msg|]
  {
    msg := cause;
    if |msg| > MAX_MESSAGE_LENGTH {
      msg := msg[..MAX_MESSAGE_LENGTH];
    }
    DropInvalidValid(msg);
    DropNulValid(DropInvalid(msg));
    if Valid(cause) && 0 !in cause {
      if |cause| <= MAX_MESSAGE_LENGTH {
        ValidKept(cause);
        NoNulKept(cause);
      } else {
        var k := CutLeavesPrefix(cause, MAX_MESSAGE_LENGTH);
        NoNulKept(cause[..k]);
      }
    }
    msg := DropNul(DropInvalid(msg));
  }
}
