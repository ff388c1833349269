/** String order, separators and decimal printing, as Go's strings, cmp and strconv packages provide them. */
module Strings {
  import opened Lists

  predicate HasPrefix(s: string, t: string)
  {
    |t| <= |s| && s[..|t|] == t
  }

  predicate HasSuffix(s: string, t: string)
  {
    IsTail(s, t)
  }

  // ---------------------------------------------------------------- order

  predicate Leq(a: string, b: string)
  {
    a == [] || (b != [] && (a[0] < b[0] || (a[0] == b[0] && Leq(a[1..], b[1..]))))
  }

  predicate Less(a: string, b: string)
  {
    Leq(a, b) && a != b
  }

  lemma {:induction false} LeqTotal(a: string, b: string)
    ensures Leq(a, b) || Leq(b, a)
  {
    if a != [] && b != [] {
      LeqTotal(a[1..], b[1..]);
    }
  }

  lemma {:induction false} LeqAntisymmetric(a: string, b: string)
    requires Leq(a, b) && Leq(b, a)
    ensures a == b
  {
    if a != [] && b != [] {
      LeqAntisymmetric(a[1..], b[1..]);
      assert a == [a[0]] + a[1..] && b == [b[0]] + b[1..];
    }
  }

  lemma {:induction false} LeqTransitive(a: string, b: string, c: string)
    requires Leq(a, b) && Leq(b, c)
    ensures Leq(a, c)
  {
    if a != [] && a[0] == b[0] == c[0] {
      LeqTransitive(a[1..], b[1..], c[1..]);
    }
  }

  /** Byte by byte: a prefix comes first, otherwise the first difference decides. */
  lemma {:induction false} LeqIsLexicographic(a: string, b: string)
    ensures Leq(a, b) <==> a <= b || exists k :: FirstDifference(a, b, k) && a[k] < b[k]
  {
    if a == [] || b == [] {
    } else if a[0] == b[0] {
      var x, y := a[1..], b[1..];
      LeqIsLexicographic(x, y);
      assert a == [a[0]] + x && b == [b[0]] + y;
      if k :| FirstDifference(x, y, k) && x[k] < y[k] {
        DifferenceBehind(a, b, k);
      }
      if k :| FirstDifference(a, b, k) && a[k] < b[k] {
        DifferenceBehind(a, b, k - 1);
      }
    } else {
      assert FirstDifference(a, b, 0);
      forall k | 0 < k <= |a| && k <= |b| ensures a[..k] != b[..k] {
        assert a[..k][0] != b[..k][0];
      }
    }
  }

  lemma DifferenceBehind(a: string, b: string, k: nat)
    requires a != [] && b != [] && a[0] == b[0]
    ensures FirstDifference(a, b, k + 1) <==> FirstDifference(a[1..], b[1..], k)
  {
    var x, y := a[1..], b[1..];
    if k < |x| && k < |y| {
      assert a[..k + 1] == [a[0]] + x[..k] && b[..k + 1] == [b[0]] + y[..k];
      assert x[..k] == a[..k + 1][1..] && y[..k] == b[..k + 1][1..];
    }
  }

  predicate FirstDifference(a: string, b: string, k: int)
  {
    0 <= k < |a| && k < |b| && a[..k] == b[..k] && a[k] != b[k]
  }

  lemma LeqIsOrder()
    ensures Preorder(Leq)
    ensures forall a, b :: Leq(a, b) && Leq(b, a) ==> a == b
  {
    forall a, b ensures Leq(a, b) || Leq(b, a) { LeqTotal(a, b); }
    forall a, b | Leq(a, b) && Leq(b, a) ensures a == b { LeqAntisymmetric(a, b); }
    forall a, b, c | Leq(a, b) && Leq(b, c) ensures Leq(a, c) { LeqTransitive(a, b, c); }
  }

  /** slices.Sort on strings. */
  function SortStrings(s: seq<string>): (r: seq<string>)
    ensures Sorted(r, Leq) && multiset(r) == multiset(s)
  {
    LeqIsOrder();
    SortSorted(s, Leq);
    SortMultiset(s, Leq);
    SortBy(s, Leq)
  }

  /** The sorted listing of a collection of strings does not depend on how it was enumerated. */
  lemma SortStringsPermuted(a: seq<string>, b: seq<string>)
    requires multiset(a) == multiset(b)
    ensures SortStrings(a) == SortStrings(b)
  {
    LeqIsOrder();
    SortPermuted(a, b, Leq);
  }

  predicate Ascending(s: seq<string>)
  {
    forall i, j :: 0 <= i < j < |s| ==> Less(s[i], s[j])
  }

  lemma SortDistinctAscends(s: seq<string>)
    requires Distinct(s)
    ensures Ascending(SortStrings(s))
    ensures forall x :: x in SortStrings(s) <==> x in s
  {
    var r := SortStrings(s);
    SameMembers(r, s);
    forall x ensures multiset(r)[x] <= 1 {
      DistinctCountsOnce(s, x);
    }
    forall i, j | 0 <= i < j < |r| ensures Less(r[i], r[j]) {
      CountedOnce(r, i, j);
    }
  }

  // ---------------------------------------------------------------- separators

  /** Position of the first `c` from `i` on, or the length when there is none. */
  function IndexFrom(s: string, c: char, i: nat): (k: nat)
    requires i <= |s|
    ensures i <= k <= |s|
    ensures forall j :: i <= j < k ==> s[j] != c
    ensures k < |s| ==> s[k] == c
    decreases |s| - i
  {
    if i == |s| || s[i] == c then i else IndexFrom(s, c, i + 1)
  }

  function IndexOf(s: string, c: char): (k: nat)
    ensures k <= |s|
    ensures c !in s[..k]
    ensures k < |s| ==> s[k] == c
  {
    IndexFrom(s, c, 0)
  }

  lemma IndexOfCut(x: string, c: char, rest: string)
    requires c !in x
    ensures IndexOf(x, c) == |x|
    ensures IndexOf(x + [c] + rest, c) == |x|
  {
    var s := x + [c] + rest;
    assert s[..|x|] == x && s[|x|] == c;
  }

  function Join(parts: seq<string>, sep: char): (r: string)
  {
    if |parts| == 0 then ""
    else if |parts| == 1 then parts[0]
    else parts[0] + [sep] + Join(parts[1..], sep)
  }

  lemma {:induction false} JoinCons(x: string, rest: seq<string>, sep: char)
    requires rest != []
    ensures Join([x] + rest, sep) == x + [sep] + Join(rest, sep)
  {
    assert ([x] + rest)[1..] == rest;
  }

  function Split(s: string, sep: char): (r: seq<string>)
    ensures r != []
    decreases |s|
  {
    var k := IndexOf(s, sep);
    if k == |s| then [s] else [s[..k]] + Split(s[k + 1..], sep)
  }

  /** Splitting undoes joining, for parts free of the separator. */
  lemma {:induction false} SplitJoin(parts: seq<string>, sep: char)
    requires parts != []
    requires forall p :: p in parts ==> sep !in p
    ensures Split(Join(parts, sep), sep) == parts
  {
    assert parts[0] in parts;
    if |parts| == 1 {
      IndexOfCut(parts[0], sep, "");
      assert parts == [parts[0]];
    } else {
      var tail := Join(parts[1..], sep);
      IndexOfCut(parts[0], sep, tail);
      var s := parts[0] + [sep] + tail;
      assert s[..|parts[0]|] == parts[0] && s[|parts[0]| + 1..] == tail;
      SplitJoin(parts[1..], sep);
      assert parts == [parts[0]] + parts[1..];
    }
  }

  /** A text cut at its first separator has only one reading. */
  lemma CutUnique(x: string, y: string, sep: char, u: string, v: string)
    requires sep !in x && sep !in y
    requires x + [sep] + u == y + [sep] + v
    ensures x == y && u == v
  {
    IndexOfCut(x, sep, u);
    IndexOfCut(y, sep, v);
    var s := x + [sep] + u;
    assert x == s[..|x|] && y == (y + [sep] + v)[..|y|];
    assert u == s[|x| + 1..] && v == (y + [sep] + v)[|y| + 1..];
  }

  // ---------------------------------------------------------------- decimal

  const DIGITS: string := "0123456789"

  function NatText(n: nat): (r: string)
    ensures r != [] && forall c :: c in r ==> c in DIGITS
  {
    var d := DIGITS[n % 10];
    assert d in DIGITS;
    if n < 10 then [d] else NatText(n / 10) + [d]
  }

  /** strconv.FormatInt(n, 10). */
  function IntText(n: int): (r: string)
    ensures r != [] && forall c :: c in r ==> c in DIGITS || c == '-'
  {
    if n < 0 then "-" + NatText(-n) else NatText(n)
  }

  /** The number a decimal text spells. */
  function Value(text: string): nat
    requires forall c :: c in text ==> c in DIGITS
  {
    if text == [] then 0 else 10 * Value(text[..|text| - 1]) + DigitValue(text[|text| - 1])
  }

  function DigitValue(c: char): (d: nat)
    requires c in DIGITS
    ensures d < 10
  {
    c as int - '0' as int
  }

  lemma {:induction false} NatTextSpells(n: nat)
    ensures Value(NatText(n)) == n
    ensures n > 0 ==> NatText(n)[0] != '0'
  {
    var s, d := NatText(n), DIGITS[n % 10];
    assert DigitValue(d) == n % 10;
    if n < 10 {
      assert s[..0] == [];
    } else {
      NatTextSpells(n / 10);
      assert s[..|s| - 1] == NatText(n / 10);
    }
  }

  lemma {:induction false} NatTextInjective(a: nat, b: nat)
    requires NatText(a) == NatText(b)
    ensures a == b
  {
    var s, t := NatText(a), NatText(b);
    assert s[|s| - 1] == DIGITS[a % 10] && t[|t| - 1] == DIGITS[b % 10];
    assert a % 10 == b % 10;
    if a >= 10 && b >= 10 {
      assert NatText(a / 10) == s[..|s| - 1] && NatText(b / 10) == t[..|t| - 1];
      NatTextInjective(a / 10, b / 10);
    }
  }

  lemma SignFirst(n: int)
    ensures IntText(n)[0] == '-' <==> n < 0
  {
    if n >= 0 {
      assert NatText(n)[0] in NatText(n);
    }
  }

  lemma IntTextInjective(a: int, b: int)
    requires IntText(a) == IntText(b)
    ensures a == b
  {
    SignFirst(a);
    SignFirst(b);
    if a < 0 && b < 0 {
      assert NatText(-a) == IntText(a)[1..] && NatText(-b) == IntText(b)[1..];
      NatTextInjective(-a, -b);
    } else if a >= 0 && b >= 0 {
      NatTextInjective(a, b);
    }
  }
}
