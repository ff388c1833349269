/**
 Capping condition messages at a byte length without cutting a character in two
 (internal/controller/route_status.go). Messages are byte strings; well-formed
 UTF-8 is as in section 4 of RFC 3629.
 */
module Utf8Truncation {

  newtype Byte = x: int | 0 <= x < 0x100

  const MARKER: seq<Byte> := [0x2E, 0x2E, 0x2E]

  // ---------------------------------------------------------------- well-formed UTF-8

  predicate Tail(b: Byte)
  {
    0x80 <= b <= 0xBF
  }

  /** The range of the second byte depends on the first. */
  predicate SecondByte(first: Byte, b: Byte)
  {
    if first == 0xE0 then 0xA0 <= b <= 0xBF
    else if first == 0xED then 0x80 <= b <= 0x9F
    else if first == 0xF0 then 0x90 <= b <= 0xBF
    else if first == 0xF4 then 0x80 <= b <= 0x8F
    else Tail(b)
  }

  /** The length of the character that a first byte announces, 0 when no character starts with it. */
  function Announced(first: Byte): (n: nat)
    ensures n <= 4
    ensures n > 0 ==> !Tail(first)
  {
    if first <= 0x7F then 1
    else if 0xC2 <= first <= 0xDF then 2
    else if 0xE0 <= first <= 0xEF then 3
    else if 0xF0 <= first <= 0xF4 then 4
    else 0
  }

  /** `s` starts with a well-formed character. */
  predicate StartsWithChar(s: seq<Byte>)
  {
    && s != []
    && var n := Announced(s[0]);
       && 0 < n <= |s|
       && (n > 1 ==> SecondByte(s[0], s[1]))
       && (n > 2 ==> Tail(s[2]))
       && (n > 3 ==> Tail(s[3]))
  }

  predicate Valid(s: seq<Byte>)
  {
    s == [] || (StartsWithChar(s) && Valid(s[Announced(s[0])..]))
  }

  // ---------------------------------------------------------------- characters and their numbers

  /** A character number that UTF-8 can encode: no surrogate, at most 0x10FFFF. */
  predicate Scalar(n: int)
  {
    0 <= n <= 0x10FFFF && !(0xD800 <= n <= 0xDFFF)
  }

  /** The octets of a character number, as the table in section 3 of RFC 3629 has them. */
  function Encode(n: int): (s: seq<Byte>)
    requires Scalar(n)
    ensures s != []
  {
    if n <= 0x7F then [n as Byte]
    else if n <= 0x7FF then [(0xC0 + n / 64) as Byte, (0x80 + n % 64) as Byte]
    else if n <= 0xFFFF then [(0xE0 + n / 4096) as Byte, (0x80 + n / 64 % 64) as Byte, (0x80 + n % 64) as Byte]
    else [(0xF0 + n / 262144) as Byte, (0x80 + n / 4096 % 64) as Byte, (0x80 + n / 64 % 64) as Byte, (0x80 + n % 64) as Byte]
  }

  /** The number that the first character of `s` spells. */
  function Decode(s: seq<Byte>): int
    requires StartsWithChar(s)
  {
    var n := Announced(s[0]);
    if n == 1 then s[0] as int
    else if n == 2 then (s[0] as int - 0xC0) * 64 + (s[1] as int - 0x80)
    else if n == 3 then (s[0] as int - 0xE0) * 4096 + (s[1] as int - 0x80) * 64 + (s[2] as int - 0x80)
    else (s[0] as int - 0xF0) * 262144 + (s[1] as int - 0x80) * 4096 + (s[2] as int - 0x80) * 64 + (s[3] as int - 0x80)
  }

  lemma Digits(a: int, b: int, n: int)
    requires 0 <= b < 64 && n == a * 64 + b
    ensures n / 64 == a && n % 64 == b
  {
  }

  /** Every character number has a well-formed encoding that spells it. */
  lemma EncodeWellFormed(n: int)
    requires Scalar(n)
    ensures StartsWithChar(Encode(n)) && Announced(Encode(n)[0]) == |Encode(n)| && Decode(Encode(n)) == n
  {
    var a, b := n / 64, n / 4096;
    assert n == a * 64 + n % 64 && a == b * 64 + a % 64 && b == b / 64 * 64 + b % 64;
    assert n / 4096 == a / 64 && n / 262144 == b / 64;
  }

  lemma DecodeThree(x: int, y: int, z: int, n: int)
    requires 0 <= y < 64 && 0 <= z < 64 && n == x * 4096 + y * 64 + z
    ensures n / 4096 == x && n / 64 % 64 == y && n % 64 == z && n / 64 == x * 64 + y
  {
    Digits(x * 64 + y, z, n);
    Digits(x, y, x * 64 + y);
  }

  lemma DecodeFour(x: nat, y: nat, z: nat, w: nat, n: nat)
    requires y < 64 && z < 64 && w < 64 && n == ((x * 64 + y) * 64 + z) * 64 + w
    ensures n / 262144 == x && n / 4096 % 64 == y && n / 64 % 64 == z && n % 64 == w
  {
    Digits((x * 64 + y) * 64 + z, w, n);
    DecodeThree(x, y, z, n / 64);
    assert n / 4096 == n / 64 / 64 && n / 262144 == n / 64 / 4096;
  }

  /** Every well-formed character is the encoding of a character number. */
  lemma WellFormedEncodes(s: seq<Byte>)
    requires StartsWithChar(s)
    ensures Scalar(Decode(s)) && Encode(Decode(s)) == s[..Announced(s[0])]
  {
    var k, n := Announced(s[0]), Decode(s);
    if k == 1 {
      assert s[..1] == [s[0]];
    } else if k == 2 {
      Digits(s[0] as int - 0xC0, s[1] as int - 0x80, n);
      assert s[..2] == [s[0], s[1]];
    } else if k == 3 {
      DecodeThree(s[0] as int - 0xE0, s[1] as int - 0x80, s[2] as int - 0x80, n);
      assert s[..3] == [s[0], s[1], s[2]];
    } else {
      DecodeFour(s[0] as int - 0xF0, s[1] as int - 0x80, s[2] as int - 0x80, s[3] as int - 0x80, n);
      assert s[..4] == [s[0], s[1], s[2], s[3]];
    }
  }

  /** Well-formed text is exactly a sequence of encoded character numbers. */
  ghost predicate Spells(s: seq<Byte>, ns: seq<int>)
  {
    if ns == [] then s == []
    else Scalar(ns[0]) && Encode(ns[0]) <= s && Spells(s[|Encode(ns[0])|..], ns[1..])
  }

  lemma {:induction false} ValidSpells(s: seq<Byte>) returns (ns: seq<int>)
    requires Valid(s)
    ensures Spells(s, ns)
    decreases |s|
  {
    if s == [] {
      ns := [];
    } else {
      WellFormedEncodes(s);
      var rest := ValidSpells(s[Announced(s[0])..]);
      ns := [Decode(s)] + rest;
      assert ns[1..] == rest;
    }
  }

  lemma {:induction false} SpelledIsValid(s: seq<Byte>, ns: seq<int>)
    requires Spells(s, ns)
    ensures Valid(s)
    decreases ns
  {
    if ns == [] {
    } else {
      var e := Encode(ns[0]);
      EncodeWellFormed(ns[0]);
      SpelledIsValid(s[|e|..], ns[1..]);
      assert forall i :: 0 <= i < |e| ==> s[i] == e[i];
    }
  }

  // ---------------------------------------------------------------- truncation

  /** A byte that can start a character: Go's utf8.RuneStart. */
  predicate RuneStart(b: Byte)
  {
    !Tail(b)
  }

  /** The last place at or before `c` where a character starts, or the beginning. */
  function Cut(msg: seq<Byte>, c: nat): (k: nat)
    requires c < |msg|
    ensures k <= c
  {
    if c == 0 || RuneStart(msg[c]) then c else Cut(msg, c - 1)
  }

  function Truncated(msg: seq<Byte>, maxLen: int): seq<Byte>
  {
    if |msg| <= maxLen then msg
    else if maxLen <= |MARKER| then MARKER
    else msg[..Cut(msg, maxLen - |MARKER|)] + MARKER
  }

  method TruncateUTF8(msg: seq<Byte>, maxLen: int) returns (r: seq<Byte>)
    ensures r == Truncated(msg, maxLen)
  {
    if |msg| <= maxLen {
      return msg;
    }
    if maxLen <= |MARKER| {
      return MARKER;
    }
    var cut := maxLen - |MARKER|;
    while cut > 0 && !RuneStart(msg[cut])
      invariant 0 <= cut < |msg|
      invariant Cut(msg, cut) == Cut(msg, maxLen - |MARKER|)
    {
      cut := cut - 1;
    }
    return msg[..cut] + MARKER;
  }

  // ---------------------------------------------------------------- character boundaries

  lemma {:induction false} ValidConcat(a: seq<Byte>, b: seq<Byte>)
    requires Valid(a) && Valid(b)
    ensures Valid(a + b)
  {
    if a == [] {
      assert a + b == b;
    } else {
      var n := Announced(a[0]);
      assert (a + b)[n..] == a[n..] + b;
      ValidConcat(a[n..], b);
    }
  }

  /** What follows a well-formed prefix of a well-formed text is well-formed. */
  lemma {:induction false} ValidRest(a: seq<Byte>, b: seq<Byte>)
    requires Valid(a) && Valid(a + b)
    ensures Valid(b)
  {
    if a == [] {
      assert a + b == b;
    } else {
      var n := Announced(a[0]);
      assert (a + b)[n..] == a[n..] + b;
      ValidRest(a[n..], b);
    }
  }

  lemma CharBytes(s: seq<Byte>, i: nat)
    requires StartsWithChar(s) && 0 < i < Announced(s[0])
    ensures Tail(s[i])
  {
  }

  lemma FrontValid(s: seq<Byte>, n: nat, k: nat)
    requires StartsWithChar(s) && n == Announced(s[0]) && n <= k <= |s| && Valid(s[n..k])
    ensures Valid(s[..k])
  {
    var front := s[..k];
    assert front[n..] == s[n..k];
  }

  /** The character that holds the byte at `c`. */
  lemma {:induction false} CharHolding(s: seq<Byte>, c: nat) returns (k: nat)
    requires Valid(s) && c < |s|
    ensures k <= c && Valid(s[..k]) && Valid(s[k..]) && StartsWithChar(s[k..]) && c < k + Announced(s[k])
    decreases |s|
  {
    var n := Announced(s[0]);
    if c < n {
      k := 0;
      assert s[0..] == s;
    } else {
      var rest := s[n..];
      var j := CharHolding(rest, c - n);
      k := n + j;
      assert s[k..] == rest[j..];
      assert s[n..k] == rest[..j];
      FrontValid(s, n, k);
    }
  }

  /** Backing up from inside a character reaches its first byte. */
  lemma {:induction false} CutWithin(s: seq<Byte>, k: nat, c: nat)
    requires k <= c < |s| && StartsWithChar(s[k..]) && c < k + Announced(s[k])
    ensures Cut(s, c) == k
    decreases c
  {
    if k < c {
      CharBytes(s[k..], c - k);
      assert s[k..][c - k] == s[c];
      CutWithin(s, k, c - 1);
    }
  }

  lemma CutOnBoundary(s: seq<Byte>, c: nat) returns (k: nat)
    requires Valid(s) && c < |s|
    ensures k == Cut(s, c) && c - k <= 3 && Valid(s[..k]) && Valid(s[k..])
    ensures StartsWithChar(s[k..]) && c < k + Announced(s[k])
  {
    k := CharHolding(s, c);
    CutWithin(s, k, c);
  }

  // ---------------------------------------------------------------- what truncation promises

  lemma AsciiValid(b: Byte)
    requires b <= 0x7F
    ensures Valid([b])
  {
    assert [b][1..] == [];
  }

  lemma MarkerValid()
    ensures Valid(MARKER)
  {
    AsciiValid(0x2E);
    ValidConcat([0x2E], [0x2E]);
    ValidConcat([0x2E, 0x2E], [0x2E]);
    assert MARKER == [0x2E, 0x2E] + [0x2E];
  }

  lemma {:induction false} CutValid(msg: seq<Byte>, c: nat)
    requires Valid(msg) && c < |msg|
    ensures Valid(msg[..Cut(msg, c)] + MARKER)
  {
    var k := CutOnBoundary(msg, c);
    MarkerValid();
    ValidConcat(msg[..k], MARKER);
  }

  /** Well-formed text stays well-formed. */
  lemma {:induction false} TruncationValid(msg: seq<Byte>, maxLen: int)
    requires Valid(msg)
    ensures Valid(Truncated(msg, maxLen))
  {
    var r := Truncated(msg, maxLen);
    assert Valid(r) by {
      if |msg| > maxLen {
        if maxLen <= |MARKER| {
          MarkerValid();
        } else {
          CutValid(msg, maxLen - |MARKER|);
        }
      }
    }
  }

  /** The result fits exactly when the text already did or the cap has room for the marker. */
  lemma TruncationFitsIff(msg: seq<Byte>, maxLen: int)
    ensures |Truncated(msg, maxLen)| <= maxLen <==> |msg| <= maxLen || maxLen >= |MARKER|
  {
    if |msg| > maxLen > |MARKER| {
      assert |msg[..Cut(msg, maxLen - |MARKER|)] + MARKER| == Cut(msg, maxLen - |MARKER|) + |MARKER|;
    }
  }

  /** No well-formed prefix ends inside the character at `k`. */
  lemma {:induction false} NoBoundaryInside(s: seq<Byte>, k: nat, p: seq<Byte>)
    requires p <= s && k < |p| && Valid(s[..k]) && Valid(p) && StartsWithChar(s[k..])
    ensures |p| >= k + Announced(s[k])
  {
    var rest := p[k..];
    assert s[..k] + rest == p;
    ValidRest(s[..k], rest);
    assert rest[0] == s[k];
  }

  lemma {:induction false} CutLongest(s: seq<Byte>, c: nat, p: seq<Byte>)
    requires Valid(s) && c < |s| && p <= s && Valid(p) && |p| <= c
    ensures |p| <= Cut(s, c)
  {
    var k := CutOnBoundary(s, c);
    if |p| > k {
      NoBoundaryInside(s, k, p);
    }
  }

  lemma CutKeeps(msg: seq<Byte>, c: nat) returns (kept: seq<Byte>)
    requires Valid(msg) && c < |msg|
    ensures kept == msg[..Cut(msg, c)] && Valid(kept) && c - 3 <= |kept| <= c
  {
    var k := CutOnBoundary(msg, c);
    kept := msg[..k];
  }

  /** A cut text is a well-formed prefix and the marker; at most three bytes of the cap stay unused. */
  lemma TruncationIsPrefix(msg: seq<Byte>, maxLen: int) returns (kept: seq<Byte>)
    requires Valid(msg) && |msg| > maxLen > |MARKER|
    ensures Truncated(msg, maxLen) == kept + [0x2E, 0x2E, 0x2E] && kept <= msg && Valid(kept)
    ensures maxLen - 3 <= |Truncated(msg, maxLen)| <= maxLen
  {
    kept := CutKeeps(msg, maxLen - |MARKER|);
  }

  lemma {:induction false} TruncatedLength(msg: seq<Byte>, maxLen: int)
    requires |msg| > maxLen > |MARKER|
    ensures |Truncated(msg, maxLen)| == Cut(msg, maxLen - |MARKER|) + |MARKER|
  {
  }

  /** No well-formed prefix that leaves room for the marker is longer than the one kept. */
  lemma {:induction false} TruncationLongest(msg: seq<Byte>, maxLen: int, p: seq<Byte>)
    requires Valid(msg) && |msg| > maxLen > |MARKER|
    requires p <= msg && Valid(p) && |p + MARKER| <= maxLen
    ensures |p + MARKER| <= |Truncated(msg, maxLen)|
  {
    assert |p + MARKER| == |p| + |MARKER|;
    CutLongest(msg, maxLen - |MARKER|, p);
    TruncatedLength(msg, maxLen);
  }
}
