/** Byte-wise text order and decimal digits: how Go compares strings, how the
    hub's text columns are compared, and how numbers are printed and read. */
module Text {

  /** Strict byte-wise order: the order of Go's `<` on strings. */
  predicate Less(a: string, b: string) {
    b != "" && (a == "" || a[0] < b[0] || (a[0] == b[0] && Less(a[1..], b[1..])))
  }

  predicate AtMost(a: string, b: string) {
    !Less(b, a)
  }

  lemma {:induction false} LessIrreflexive(a: string)
    ensures !Less(a, a)
  {
    if a != "" {
      LessIrreflexive(a[1..]);
    }
  }

  lemma {:induction false} LessTransitive(a: string, b: string, c: string)
    requires Less(a, b) && Less(b, c)
    ensures Less(a, c)
  {
    if a != "" && a[0] == b[0] && b[0] == c[0] {
      LessTransitive(a[1..], b[1..], c[1..]);
    }
  }

  lemma {:induction false} LessTotal(a: string, b: string)
    ensures Less(a, b) || a == b || Less(b, a)
  {
    if a != "" && b != "" && a[0] == b[0] {
      LessTotal(a[1..], b[1..]);
      assert a == [a[0]] + a[1..] && b == [b[0]] + b[1..];
    }
  }

  /** The order facts that sorting and comparing need, in one place. */
  lemma OrderFacts(a: string, b: string, c: string)
    ensures !Less(a, a)
    ensures !(Less(a, b) && Less(b, a))
    ensures Less(a, b) || a == b || Less(b, a)
    ensures Less(a, b) && Less(b, c) ==> Less(a, c)
    ensures AtMost(a, b) && AtMost(b, c) ==> AtMost(a, c)
    ensures AtMost(a, b) && AtMost(b, a) ==> a == b
  {
    LessIrreflexive(a);
    LessTotal(a, b);
    LessTotal(b, c);
    if Less(a, b) && Less(b, a) {
      LessTransitive(a, b, a);
    }
    if Less(a, b) && Less(b, c) {
      LessTransitive(a, b, c);
    }
    if AtMost(a, b) && AtMost(b, c) && Less(c, a) {
      if Less(a, b) {
        LessTransitive(c, a, b);
      }
    }
  }

  /** A shared beginning does not affect the comparison. */
  lemma {:induction false} LessAfterPrefix(p: string, a: string, b: string)
    ensures Less(p + a, p + b) <==> Less(a, b)
  {
    if p == "" {
      assert p + a == a && p + b == b;
    } else {
      LessAfterPrefix(p[1..], a, b);
      assert (p + a)[1..] == p[1..] + a && (p + b)[1..] == p[1..] + b;
    }
  }

  /** When neither text begins with the other, whatever follows is irrelevant. */
  lemma {:induction false} LessIgnoresTail(a: string, b: string, u: string, v: string)
    requires !(a <= b) && !(b <= a)
    ensures Less(a + u, b + v) <==> Less(a, b)
  {
    assert a != "" && b != "";
    assert (a + u)[0] == a[0] && (b + v)[0] == b[0];
    if a[0] == b[0] {
      assert a == [a[0]] + a[1..] && b == [b[0]] + b[1..];
      LessIgnoresTail(a[1..], b[1..], u, v);
      assert (a + u)[1..] == a[1..] + u && (b + v)[1..] == b[1..] + v;
    }
  }

  /** Fixed-width fields compare one after the other. */
  lemma LessByField(a: string, b: string, u: string, v: string)
    requires |a| == |b|
    ensures Less(a + u, b + v) <==> Less(a, b) || (a == b && Less(u, v))
  {
    if a == b {
      LessAfterPrefix(a, u, v);
      LessIrreflexive(a);
    } else {
        LessIgnoresTail(a, b, u, v);
    }
  }

  /** Ascending texts are determined by which texts they are. */
  lemma {:induction false} SameMembersSameOrder(a: seq<string>, b: seq<string>)
    requires forall i, j :: 0 <= i < j < |a| ==> Less(a[i], a[j])
    requires forall i, j :: 0 <= i < j < |b| ==> Less(b[i], b[j])
    requires forall n :: n in a <==> n in b
    ensures a == b
  {
    if a == [] {
      assert forall i :: 0 <= i < |b| ==> b[i] in b;
    } else {
      assert a[0] in b && b[0] in a;
      var i :| 0 <= i < |b| && b[i] == a[0];
      var j :| 0 <= j < |a| && a[j] == b[0];
      OrderFacts(a[0], b[0], "");
      assert i == 0 && j == 0;
      var x, y := a[1..], b[1..];
      forall n ensures n in x <==> n in y {
        LessIrreflexive(a[0]);
        if n in x {
          var k :| 0 <= k < |x| && x[k] == n;
          assert a[k + 1] == n && n in a && Less(a[0], n) && n != b[0];
        }
        if n in y {
          var k :| 0 <= k < |y| && y[k] == n;
          assert b[k + 1] == n && n in b && Less(b[0], n) && n != a[0];
        }
      }
      SameMembersSameOrder(x, y);
      assert a == [a[0]] + x && b == [b[0]] + y;
    }
  }

  predicate Contains(s: string, sub: string) {
    sub <= s || (s != "" && Contains(s[1..], sub))
  }

  // ---- decimal digits ----

  predicate IsDigit(c: char) {
    '0' <= c <= '9'
  }

  predicate AllDigits(s: string) {
    forall i :: 0 <= i < |s| ==> IsDigit(s[i])
  }

  function Digit(d: nat): (c: char)
    requires d < 10
    ensures IsDigit(c) && (c as int) - ('0' as int) == d
  {
    ('0' as int + d) as char
  }

  function DigitValue(c: char): (d: nat)
    requires IsDigit(c)
    ensures d < 10 && Digit(d) == c
  {
    (c as int) - ('0' as int)
  }

  function Pow10(w: nat): (r: nat)
    ensures r >= 1
  {
    if w == 0 then 1 else 10 * Pow10(w - 1)
  }

  /** The number a digit string denotes. */
  function Value(s: string): nat
    requires AllDigits(s)
  {
    if s == "" then 0 else 10 * Value(s[..|s| - 1]) + DigitValue(s[|s| - 1])
  }

  /** n in exactly w digits, zero padded; the high digits are lost when n has more. */
  function Pad(n: nat, w: nat): (s: string)
    ensures |s| == w && AllDigits(s)
  {
    if w == 0 then "" else Pad(n / 10, w - 1) + [Digit(n % 10)]
  }

  /** How many digits n has. */
  function Width(n: nat): (w: nat)
    ensures w >= 1 && n < Pow10(w) && (w > 1 ==> Pow10(w - 1) <= n)
  {
    if n < 10 then assert Pow10(1) == 10; 1 else Width(n / 10) + 1
  }

  /** n printed in decimal. */
  function Decimal(n: nat): (s: string)
    ensures s != "" && AllDigits(s)
  {
    Pad(n, Width(n))
  }

  /** Go's %0*d: at least w digits, more when n needs them. */
  function ZeroPadded(n: nat, w: nat): (s: string)
    ensures AllDigits(s) && |s| >= w
  {
    if n < Pow10(w) then Pad(n, w) else (WideNumber(n, w); Decimal(n))
  }

  lemma {:induction false} PowMonotone(v: nat, w: nat)
    requires v <= w
    ensures Pow10(v) <= Pow10(w)
  {
    if v < w {
      PowMonotone(v, w - 1);
    }
  }

  lemma WideNumber(n: nat, w: nat)
    requires Pow10(w) <= n
    ensures Width(n) > w
  {
    if Width(n) <= w {
      PowMonotone(Width(n), w);
    }
  }

  lemma {:induction false} ValueBound(s: string)
    requires AllDigits(s)
    ensures Value(s) < Pow10(|s|)
  {
    if s != "" {
      ValueBound(s[..|s| - 1]);
    }
  }

  /** Reading what was printed gives the number back. */
  lemma {:induction false} ValueOfPad(n: nat, w: nat)
    requires n < Pow10(w)
    ensures Value(Pad(n, w)) == n
  {
    if w > 0 {
      ValueOfPad(n / 10, w - 1);
      var s := Pad(n, w);
      assert s[..|s| - 1] == Pad(n / 10, w - 1);
    }
  }

  lemma PadSnoc(n: nat, w: nat)
    ensures Pad(n, w + 1) == Pad(n / 10, w) + [Digit(n % 10)]
  {
  }

  lemma TenTimes(n: nat, d: nat)
    requires d < 10
    ensures (10 * n + d) / 10 == n && (10 * n + d) % 10 == d
  {
  }

  lemma ValueSnoc(s: string, c: char)
    requires AllDigits(s) && IsDigit(c)
    ensures AllDigits(s + [c]) && Value(s + [c]) == 10 * Value(s) + DigitValue(c)
  {
    assert (s + [c])[..|s|] == s;
  }

  /** Printing what was read gives the digits back. */
  lemma {:induction false} PadOfValue(s: string)
    requires AllDigits(s)
    ensures Pad(Value(s), |s|) == s
  {
    if s == "" {
      PadNothing(Value(s));
    } else {
      var init, c := s[..|s| - 1], s[|s| - 1];
      assert AllDigits(init) && IsDigit(c);
      PadOfValue(init);
      hide AllDigits, Pad, Value, DigitValue, Digit;
      ValueSnoc(init, c);
      TenTimes(Value(init), DigitValue(c));
      PadSnoc(10 * Value(init) + DigitValue(c), |init|);
      assert s == init + [c];
    }
  }

  lemma PadNothing(n: nat)
    ensures Pad(n, 0) == ""
  {
  }

  lemma OneDigit(c: char, d: char)
    requires IsDigit(c) && IsDigit(d)
    ensures Less([c], [d]) <==> DigitValue(c) < DigitValue(d)
    ensures c == d <==> DigitValue(c) == DigitValue(d)
  {
  }

  lemma LastDigit(m: nat, c: nat, n: nat, d: nat)
    requires c < 10 && d < 10
    ensures 10 * m + c < 10 * n + d <==> m < n || (m == n && c < d)
  {
  }

  /** Digit strings of one width are equal when they denote the same number. */
  lemma SameNumber(a: string, b: string)
    requires |a| == |b| && AllDigits(a) && AllDigits(b)
    ensures a == b <==> Value(a) == Value(b)
  {
    PadOfValue(a);
    PadOfValue(b);
  }

  lemma NothingLess(a: string, b: string)
    requires a == "" && b == ""
    ensures !Less(a, b) && Value(a) == Value(b) == 0
  {
  }

  /** On digit strings of one width, text order is numeric order. */
  lemma {:induction false} DigitOrder(a: string, b: string)
    requires |a| == |b| && AllDigits(a) && AllDigits(b)
    ensures Less(a, b) <==> Value(a) < Value(b)
  {
    if a == "" {
      NothingLess(a, b);
    } else {
      var n := |a| - 1;
      var x, y := a[..n], b[..n];
      assert Value(a) == 10 * Value(x) + DigitValue(a[n]) && Value(b) == 10 * Value(y) + DigitValue(b[n]);
      hide Less, Value, DigitValue;
      DigitOrder(x, y);
      SameNumber(x, y);
      assert a == x + [a[n]] && b == y + [b[n]];
      LessByField(x, y, [a[n]], [b[n]]);
      OneDigit(a[n], b[n]);
      LastDigit(Value(x), DigitValue(a[n]), Value(y), DigitValue(b[n]));
    }
  }

  lemma PadOrder(m: nat, n: nat, w: nat)
    requires m < Pow10(w) && n < Pow10(w)
    ensures Less(Pad(m, w), Pad(n, w)) <==> m < n
    ensures Pad(m, w) == Pad(n, w) <==> m == n
  {
    ValueOfPad(m, w);
    ValueOfPad(n, w);
    DigitOrder(Pad(m, w), Pad(n, w));
  }
}
