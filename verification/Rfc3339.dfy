/** The hub stores every instant as RFC3339Nano text in UTC and compares the
    texts. This module states exactly when that agrees with time order. */
module Rfc3339 {
  import opened Text

  datatype Civil = Civil(year: nat, month: nat, day: nat, hour: nat, minute: nat, second: nat, nano: nat)

  /** UTC instants whose year has four digits, which is all RFC 3339 can write. */
  type Instant = t: Civil |
    && t.year < 10000 && t.month < 100 && t.day < 100
    && t.hour < 100 && t.minute < 100 && t.second < 100 && t.nano < 1_000_000_000
    witness Civil(1, 1, 1, 0, 0, 0, 0)

  predicate SameSecond(a: Instant, b: Instant) {
    && a.year == b.year && a.month == b.month && a.day == b.day
    && a.hour == b.hour && a.minute == b.minute && a.second == b.second
  }

  predicate SecondBefore(a: Instant, b: Instant) {
    || a.year < b.year
    || (a.year == b.year && (|| a.month < b.month
    || (a.month == b.month && (|| a.day < b.day
    || (a.day == b.day && (|| a.hour < b.hour
    || (a.hour == b.hour && (|| a.minute < b.minute
    || (a.minute == b.minute && a.second < b.second)))))))))
  }

  /** Go's Time.Before. */
  predicate Before(a: Instant, b: Instant) {
    SecondBefore(a, b) || (SameSecond(a, b) && a.nano < b.nano)
  }

  /** Strips the zeros RFC3339Nano drops. */
  function TrimZeros(s: string): (r: string)
    ensures |r| <= |s| && r == s[..|r|]
    ensures r != "" ==> r[|r| - 1] != '0'
    ensures forall i :: |r| <= i < |s| ==> s[i] == '0'
  {
    if s != "" && s[|s| - 1] == '0' then TrimZeros(s[..|s| - 1]) else s
  }

  /** The fractional digits that are printed. */
  function Fraction(t: Instant): string {
    TrimZeros(Pad(t.nano, 9))
  }

  /** A number printed in a fixed width, then a separator. */
  datatype Field = Field(n: nat, width: nat, sep: string)

  function Join(fields: seq<Field>, i: nat): string
    requires i <= |fields|
    decreases |fields| - i
  {
    if i == |fields| then "" else Pad(fields[i].n, fields[i].width) + (fields[i].sep + Join(fields, i + 1))
  }

  function ClockFields(t: Instant): seq<Field> {
    [Field(t.year, 4, "-"), Field(t.month, 2, "-"), Field(t.day, 2, "T"),
     Field(t.hour, 2, ":"), Field(t.minute, 2, ":"), Field(t.second, 2, "")]
  }

  function Clock(t: Instant): string {
    Join(ClockFields(t), 0)
  }

  /** The printed fraction and the zone. */
  function Tail(t: Instant): string {
    (if Fraction(t) == "" then "" else "." + Fraction(t)) + "Z"
  }

  /** Format(time.RFC3339Nano) of a UTC time. */
  function Stamp(t: Instant): string {
    Clock(t) + Tail(t)
  }

  /** The pairs whose texts sort against time: the earlier instant prints a
      proper prefix of the later one's fractional digits within one second. */
  predicate Inverted(a: Instant, b: Instant) {
    Before(a, b) && SameSecond(a, b) && Fraction(a) < Fraction(b)
  }

  /** Layouts that differ only in their numbers, all of which fit. */
  ghost predicate SameLayout(a: seq<Field>, b: seq<Field>) {
    && |a| == |b|
    && forall i :: 0 <= i < |a| ==>
         && a[i].width == b[i].width && a[i].sep == b[i].sep
         && a[i].n < Pow10(a[i].width) && b[i].n < Pow10(b[i].width)
  }

  ghost predicate FieldsBefore(a: seq<Field>, b: seq<Field>, i: nat)
    requires i <= |a| == |b|
    decreases |a| - i
  {
    i < |a| && (a[i].n < b[i].n || (a[i].n == b[i].n && FieldsBefore(a, b, i + 1)))
  }

  ghost predicate SameFields(a: seq<Field>, b: seq<Field>, i: nat)
    requires i <= |a| == |b|
    decreases |a| - i
  {
    i < |a| ==> a[i].n == b[i].n && SameFields(a, b, i + 1)
  }

  /** Joined fields compare like the numbers in them, first field first. */
  lemma {:induction false} JoinOrder(a: seq<Field>, b: seq<Field>, i: nat)
    requires SameLayout(a, b) && i <= |a|
    ensures |Join(a, i)| == |Join(b, i)|
    ensures Less(Join(a, i), Join(b, i)) <==> FieldsBefore(a, b, i)
    ensures Join(a, i) == Join(b, i) <==> SameFields(a, b, i)
    decreases |a| - i
  {
    if i < |a| {
      var (x, y) := (a[i], b[i]);
      var (u, v) := (Join(a, i + 1), Join(b, i + 1));
      JoinOrder(a, b, i + 1);
      PadOrder(x.n, y.n, x.width);
      LessByField(Pad(x.n, x.width), Pad(y.n, y.width), x.sep + u, y.sep + v);
      LessAfterPrefix(x.sep, u, v);
      hide Less;
      if Join(a, i) == Join(b, i) {
        assert Join(a, i)[..x.width] == Pad(x.n, x.width) && Join(b, i)[..x.width] == Pad(y.n, x.width);
        assert Join(a, i)[x.width + |x.sep|..] == u && Join(b, i)[x.width + |x.sep|..] == v;
      }
    }
  }

  lemma ClockOrder(a: Instant, b: Instant)
    ensures |Clock(a)| == |Clock(b)|
    ensures Less(Clock(a), Clock(b)) <==> SecondBefore(a, b)
    ensures Clock(a) == Clock(b) <==> SameSecond(a, b)
  {
    var f, g := ClockFields(a), ClockFields(b);
    assert Pow10(1) == 10 && Pow10(2) == 100 && Pow10(3) == 1000 && Pow10(4) == 10000;
    JoinOrder(f, g, 0);
    hide Join;
    assert FieldsBefore(f, g, 5) == (a.second < b.second);
    assert FieldsBefore(f, g, 4) == (a.minute < b.minute || (a.minute == b.minute && FieldsBefore(f, g, 5)));
    assert FieldsBefore(f, g, 2) == (a.day < b.day || (a.day == b.day && FieldsBefore(f, g, 3)));
    assert SameFields(f, g, 5) == (a.second == b.second);
    assert SameFields(f, g, 4) == (a.minute == b.minute && a.second == b.second);
    assert SameFields(f, g, 2) == (a.day == b.day && a.hour == b.hour && SameFields(f, g, 4));
  }

  /** The nine nanosecond digits are the printed ones followed by zeros. */
  lemma FractionDigits(t: Instant)
    ensures |Fraction(t)| <= 9
    ensures AllDigits(Fraction(t))
    ensures Pad(t.nano, 9) == Fraction(t) + Pad(t.nano, 9)[|Fraction(t)|..]
    ensures AllZeros(Pad(t.nano, 9)[|Fraction(t)|..])
  {
  }

  predicate AllZeros(s: string) {
    forall i :: 0 <= i < |s| ==> s[i] == '0'
  }

  lemma {:induction false} ZerosLeast(z: string, s: string)
    requires AllZeros(z) && AllDigits(s) && |z| == |s|
    ensures !Less(s, z)
    ensures Less(z, s) <==> z != s
  {
    if z != "" {
      ZerosLeast(z[1..], s[1..]);
      assert z == [z[0]] + z[1..] && s == [s[0]] + s[1..];
    }
  }

  lemma NanoOrder(a: Instant, b: Instant)
    ensures Less(Pad(a.nano, 9), Pad(b.nano, 9)) <==> a.nano < b.nano
  {
    assert Pow10(3) == 1000 && Pow10(6) == 1000 * Pow10(3) && Pow10(9) == 1000 * Pow10(6);
    PadOrder(a.nano, b.nano, 9);
  }

  /** A longer fraction that extends a shorter one is the larger number. */
  lemma ExtensionIsLater(a: Instant, b: Instant)
    requires Fraction(a) < Fraction(b)
    ensures a.nano < b.nano
  {
    var fa, fb := Fraction(a), Fraction(b);
    var pa, pb := Pad(a.nano, 9), Pad(b.nano, 9);
    FractionDigits(a);
    FractionDigits(b);
    var k := |fa|;
    assert pb[..k] == fa && pa[..k] == fa;
    assert pb[|fb| - 1] == fb[|fb| - 1] != '0';
    ZerosLeast(pa[k..], pb[k..]);
    assert pb[k..][|fb| - 1 - k] != '0';
    assert pa == fa + pa[k..] && pb == fa + pb[k..];
    LessAfterPrefix(fa, pa[k..], pb[k..]);
    NanoOrder(a, b);
  }

  /** Within a second the text order follows the first differing digit; when
      there is none the shorter text is the greater one. */
  lemma FractionOrder(a: Instant, b: Instant)
    requires a.nano < b.nano
    ensures Fraction(a) != Fraction(b)
    ensures Less(Tail(a), Tail(b)) <==> !(Fraction(a) < Fraction(b))
  {
    var fa, fb := Fraction(a), Fraction(b);
    var pa, pb := Pad(a.nano, 9), Pad(b.nano, 9);
    FractionDigits(a);
    FractionDigits(b);
    NanoOrder(a, b);
    if fa == fb {
      assert pa[|fa|..] == pb[|fb|..];
      LessIrreflexive(pa);
      assert false;
    } else if fb < fa {
      ExtensionIsLater(b, a);
      assert false;
    } else if fa < fb {
      ShorterIsGreater(a, b);
    } else {
      LessIgnoresTail(fa, fb, pa[|fa|..], pb[|fb|..]);
      assert fa != "" && fb != "";
      LessIgnoresTail(fa, fb, "Z", "Z");
      LessAfterPrefix(".", fa + "Z", fb + "Z");
      assert "." + fa + "Z" == "." + (fa + "Z") && "." + fb + "Z" == "." + (fb + "Z");
    }
  }

  lemma ShorterIsGreater(a: Instant, b: Instant)
    requires Fraction(a) < Fraction(b)
    ensures !Less(Tail(a), Tail(b))
  {
    var fa, fb := Fraction(a), Fraction(b);
    FractionDigits(b);
    if fa == "" {
      assert Tail(a)[0] == 'Z' && Tail(b)[0] == '.';
    } else {
      var rest := fb[|fa|..];
      assert Tail(a) == ("." + fa) + "Z";
      assert Tail(b) == ("." + fa) + (rest + "Z");
      LessAfterPrefix("." + fa, "Z", rest + "Z");
      assert rest[0] == fb[|fa|];
    }
  }

  /** Text order against time order, exactly: for an earlier and a later
      instant the texts are in order if and only if the pair is not Inverted,
      and otherwise they are in the opposite order. */
  lemma StampOrder(a: Instant, b: Instant)
    requires Before(a, b)
    ensures Less(Stamp(a), Stamp(b)) <==> !Inverted(a, b)
    ensures Less(Stamp(b), Stamp(a)) <==> Inverted(a, b)
  {
    ClockOrder(a, b);
    LessByField(Clock(a), Clock(b), Tail(a), Tail(b));
    if SameSecond(a, b) {
      FractionOrder(a, b);
      LessIrreflexive(Clock(a));
    }
    StampInjective(a, b);
    OrderFacts(Stamp(a), Stamp(b), "");
  }

  /** Different instants have different texts. */
  lemma StampInjective(a: Instant, b: Instant)
    ensures Stamp(a) == Stamp(b) <==> a == b
  {
    if Stamp(a) == Stamp(b) {
      ClockOrder(a, b);
      var w := |Clock(a)|;
      assert Stamp(a)[..w] == Clock(a) && Stamp(b)[..w] == Clock(b);
      assert Tail(a) == Stamp(a)[w..] && Tail(b) == Stamp(b)[w..];
      assert Fraction(a) == (if |Tail(a)| == 1 then "" else Tail(a)[1..|Tail(a)| - 1]);
      assert Fraction(b) == (if |Tail(b)| == 1 then "" else Tail(b)[1..|Tail(b)| - 1]);
      if a.nano < b.nano {
        FractionOrder(a, b);
      } else if b.nano < a.nano {
        FractionOrder(b, a);
      }
    }
  }

  /** Time order is total on instants. */
  lemma TimeTotal(a: Instant, b: Instant)
    ensures Before(a, b) || a == b || Before(b, a)
    ensures !(Before(a, b) && Before(b, a)) && !Before(a, a)
  {
  }

  /** Fractions of one width never clash. */
  lemma EqualWidthNeverInverted(a: Instant, b: Instant)
    requires |Fraction(a)| == |Fraction(b)|
    ensures !Inverted(a, b)
  {
  }

  /** Half past the second prints after .51 and a whole second prints last. */
  lemma InversionsExist()
    ensures var whole := Civil(2026, 10, 14, 9, 30, 5, 0);
            var half := Civil(2026, 10, 14, 9, 30, 5, 500_000_000);
            var later := Civil(2026, 10, 14, 9, 30, 5, 510_000_000);
            && Inverted(whole, half) && Inverted(half, later) && Inverted(whole, later)
            && Less(Stamp(later), Stamp(half)) && Less(Stamp(half), Stamp(whole))
  {
    var whole: Instant := Civil(2026, 10, 14, 9, 30, 5, 0);
    var half: Instant := Civil(2026, 10, 14, 9, 30, 5, 500_000_000);
    var later: Instant := Civil(2026, 10, 14, 9, 30, 5, 510_000_000);
    var p7 := Pow10(7);
    assert p7 == 10_000_000 && Pow10(8) == 10 * p7;
    assert Value("5") == 5 by { assert "5"[..0] == ""; }
    assert Value("51") == 51 by { assert "51"[..1] == "5"; }
    FractionIs("", 9, whole);
    FractionIs("5", 8, half);
    FractionIs("51", 7, later);
    StampOrder(whole, half);
    StampOrder(half, later);
    StampOrder(whole, later);
  }

  /** The printed fraction of digits followed by k zeros. */
  lemma FractionIs(digits: string, k: nat, t: Instant)
    requires AllDigits(digits) && |digits| + k == 9 && t.nano == Value(digits) * Pow10(k)
    requires digits == "" || digits[|digits| - 1] != '0'
    ensures Fraction(t) == digits
  {
    PadOfValue(digits);
    var zeros := PadZeros(Value(digits), |digits|, k);
    assert zeros == seq(k, i => '0');
    TrimTail(digits, k);
  }

  lemma {:induction false} PadZeros(n: nat, w: nat, k: nat) returns (s: string)
    ensures |s| == k && AllZeros(s)
    ensures Pad(n * Pow10(k), w + k) == Pad(n, w) + s
  {
    if k == 0 {
      s := "";
    } else {
      var t := PadZeros(n, w, k - 1);
      s := t + ['0'];
      assert n * Pow10(k) == 10 * (n * Pow10(k - 1));
      assert (n * Pow10(k)) / 10 == n * Pow10(k - 1);
      assert Digit(0) == '0';
    }
  }

  lemma {:induction false} TrimTail(p: string, k: nat)
    ensures TrimZeros(p + seq(k, i => '0')) == TrimZeros(p)
  {
    var s := p + seq(k, i => '0');
    if k == 0 {
      assert s == p;
    } else {
      TrimTail(p, k - 1);
      assert s[..|s| - 1] == p + seq(k - 1, i => '0');
    }
  }
}
