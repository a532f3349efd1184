/** Python's order on tuples and text, and the text helpers every script shares. */
module Text {

  /** Lexicographic order, element by element, as Python compares tuples and `str`. */
  predicate Before<T>(a: seq<T>, b: seq<T>, rank: T -> int) {
    b != [] && (a == [] ||
                rank(a[0]) < rank(b[0]) ||
                (rank(a[0]) == rank(b[0]) && Before(a[1..], b[1..], rank)))
  }

  function IntRank(n: int): int { n }

  function CharRank(c: char): int { c as int }

  /** `a <= b` on text, by code point. */
  predicate TextLe(a: string, b: string) {
    !Before(b, a, CharRank)
  }

  lemma {:induction false} BeforeIrreflexive<T>(a: seq<T>, rank: T -> int)
    ensures !Before(a, a, rank)
  {
    if a != [] {
      BeforeIrreflexive(a[1..], rank);
    }
  }

  lemma {:induction false} BeforeTransitive<T>(a: seq<T>, b: seq<T>, c: seq<T>, rank: T -> int)
    requires Before(a, b, rank) && Before(b, c, rank)
    ensures Before(a, c, rank)
  {
    if a != [] && rank(a[0]) == rank(b[0]) == rank(c[0]) {
      BeforeTransitive(a[1..], b[1..], c[1..], rank);
    }
  }

  /** The order is total as soon as distinct elements have distinct ranks. */
  lemma {:induction false} BeforeTotal<T(!new)>(a: seq<T>, b: seq<T>, rank: T -> int)
    requires forall x, y :: rank(x) == rank(y) ==> x == y
    ensures a == b || Before(a, b, rank) || Before(b, a, rank)
  {
    if a != [] && b != [] && rank(a[0]) == rank(b[0]) {
      BeforeTotal(a[1..], b[1..], rank);
      assert a == [a[0]] + a[1..] && b == [b[0]] + b[1..];
    }
  }

  lemma {:induction false} ProperPrefixBefore<T>(a: seq<T>, b: seq<T>, rank: T -> int)
    requires b != []
    ensures Before(a, a + b, rank)
  {
    if a != [] {
      ProperPrefixBefore(a[1..], b, rank);
      assert (a + b)[1..] == a[1..] + b;
    }
  }

  lemma {:induction false} CommonPrefix<T>(p: seq<T>, a: seq<T>, b: seq<T>, rank: T -> int)
    ensures Before(p + a, p + b, rank) <==> Before(a, b, rank)
  {
    if p == [] {
      assert p + a == a && p + b == b;
    } else {
      assert (p + a)[1..] == p[1..] + a && (p + b)[1..] == p[1..] + b;
      CommonPrefix(p[1..], a, b, rank);
    }
  }

  lemma TextLeTotalOrder(a: string, b: string, c: string)
    ensures TextLe(a, b) || TextLe(b, a)
    ensures TextLe(a, b) && TextLe(b, a) ==> a == b
    ensures TextLe(a, b) && TextLe(b, c) ==> TextLe(a, c)
  {
    BeforeTotal(a, b, CharRank);
    BeforeTotal(b, c, CharRank);
    BeforeTotal(a, c, CharRank);
    if Before(a, b, CharRank) && Before(b, a, CharRank) {
      BeforeTransitive(a, b, a, CharRank);
      BeforeIrreflexive(a, CharRank);
    }
    if TextLe(a, b) && TextLe(b, c) && Before(c, a, CharRank) {
      if a != b {
        BeforeTransitive(c, a, b, CharRank);
      }
    }
  }

  // ---------- Decimal text ----------

  predicate IsDigit(c: char) { '0' <= c <= '9' }

  predicate AllDigits(s: string) {
    forall i | 0 <= i < |s| :: IsDigit(s[i])
  }

  function Digit(d: nat): (c: char)
    requires d < 10
    ensures IsDigit(c)
  {
    ('0' as int + d) as char
  }

  /** `str(n)` of a natural number. */
  function Decimal(n: nat): (s: string)
    ensures s != [] && AllDigits(s)
  {
    if n < 10 then [Digit(n)] else Decimal(n / 10) + [Digit(n % 10)]
  }

  /** `int(s)` of a run of digits. */
  function DigitsValue(s: string): nat
    requires AllDigits(s)
  {
    if s == [] then 0
    else
      var last := s[|s| - 1];
      10 * DigitsValue(s[..|s| - 1]) + (last as int - '0' as int)
  }

  /** Reading back what was written, and writing no superfluous zero. */
  lemma {:induction false} DecimalRoundTrip(n: nat)
    ensures DigitsValue(Decimal(n)) == n
    ensures Decimal(n)[0] == '0' ==> n == 0
    ensures n == 0 ==> Decimal(n) == "0"
  {
    if n >= 10 {
      DecimalRoundTrip(n / 10);
      var front := Decimal(n / 10);
      assert (front + [Digit(n % 10)])[..|front|] == front;
    }
  }

  lemma DecimalInjective(a: nat, b: nat)
    requires Decimal(a) == Decimal(b)
    ensures a == b
  {
    DecimalRoundTrip(a);
    DecimalRoundTrip(b);
  }

  /** `f"{n:02d}"`. */
  function Pad2(n: nat): (s: string)
    ensures s != [] && AllDigits(s)
  {
    if n < 10 then "0" + Decimal(n) else Decimal(n)
  }

  lemma Pad2Start(n: nat)
    ensures Pad2(n)[0] == '0' <==> n < 10
  {
    DecimalRoundTrip(n);
  }

  lemma Pad2Injective(a: nat, b: nat)
    requires Pad2(a) == Pad2(b)
    ensures a == b
  {
    Pad2Start(a);
    Pad2Start(b);
    DecimalRoundTrip(a);
    DecimalRoundTrip(b);
    if a < 10 {
      assert Decimal(a) == Pad2(a)[1..] && Decimal(b) == Pad2(b)[1..];
    }
  }
}
