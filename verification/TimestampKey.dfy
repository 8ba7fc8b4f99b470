/**
 The event log stores its times as text and compares them as text. When does the
 order of the texts agree with the order of the times? The layout drops trailing
 zeros of the fraction, so not always; section 5.1 of RFC 3339 asks for equal
 numbers of fraction digits.
 */
module TimestampKey {
  /** A UTC time with a four-digit year. */
  datatype Utc = Utc(year: nat, month: nat, day: nat, hour: nat, minute: nat, second: nat, nanos: nat)

  predicate Valid(t: Utc) {
    && t.year < 10000 && t.month < 100 && t.day < 100
    && t.hour < 100 && t.minute < 100 && t.second < 100 && t.nanos < 1_000_000_000
  }

  // --- Texts -------------------------------------------------------------------

  /** Bytewise order. */
  predicate Less(a: string, b: string) {
    if |b| == 0 then false
    else if |a| == 0 then true
    else if a[0] != b[0] then a[0] < b[0]
    else Less(a[1..], b[1..])
  }

  lemma {:induction false} LessConcat(a: string, b: string, x: string, y: string)
    requires |a| == |b|
    ensures Less(a + x, b + y) <==> if a == b then Less(x, y) else Less(a, b)
  {
    if |a| == 0 {
      assert a + x == x && b + y == y;
    } else {
      LessConcat(a[1..], b[1..], x, y);
      assert (a + x)[1..] == a[1..] + x && (b + y)[1..] == b[1..] + y;
      assert a == [a[0]] + a[1..] && b == [b[0]] + b[1..];
    }
  }

  lemma HeadOrder(c: char, d: char, x: string, y: string)
    ensures Less([c] + x, [d] + y) <==> if c == d then Less(x, y) else c < d
    ensures [c] + x == [d] + y <==> c == d && x == y
  {
    var a, b := [c] + x, [d] + y;
    assert a[0] == c && b[0] == d && a[1..] == x && b[1..] == y;
  }

  lemma {:induction false} LessTotal(a: string, b: string)
    ensures !(Less(a, b) && Less(b, a))
    ensures a == b || Less(a, b) || Less(b, a)
    ensures !Less(a, a)
  {
    if |a| > 0 && |b| > 0 {
      LessTotal(a[1..], b[1..]);
      assert a == [a[0]] + a[1..] && b == [b[0]] + b[1..];
    }
    if |a| > 0 {
      LessTotal(a[1..], a[1..]);
    }
  }

  lemma {:induction false} LessTransitive(a: string, b: string, c: string)
    requires Less(a, b) && Less(b, c)
    ensures Less(a, c)
  {
    if |a| > 0 && a[0] == b[0] == c[0] {
      LessTransitive(a[1..], b[1..], c[1..]);
    }
  }

  // --- Numbers of fixed width -----------------------------------------------------

  function Digit(d: nat): char
    requires d < 10
  {
    ['0', '1', '2', '3', '4', '5', '6', '7', '8', '9'][d]
  }

  function Pow10(w: nat): nat {
    if w == 0 then 1 else 10 * Pow10(w - 1)
  }

  function Digits(n: nat, width: nat): (s: string)
    ensures |s| == width
    ensures forall i :: 0 <= i < width ==> '0' <= s[i] <= '9'
  {
    if width == 0 then "" else Digits(n / 10, width - 1) + [Digit(n % 10)]
  }

  lemma DigitOrder(p: nat, q: nat)
    requires p < 10 && q < 10
    ensures Less([Digit(p)], [Digit(q)]) <==> p < q
    ensures Digit(p) == Digit(q) <==> p == q
  {
  }

  lemma DivModOrder(n: nat, m: nat)
    ensures n < m <==> n / 10 < m / 10 || (n / 10 == m / 10 && n % 10 < m % 10)
    ensures n == m <==> n / 10 == m / 10 && n % 10 == m % 10
  {
  }

  lemma {:induction false} DigitsOrder(n: nat, m: nat, width: nat)
    requires n < Pow10(width) && m < Pow10(width)
    ensures Less(Digits(n, width), Digits(m, width)) <==> n < m
    ensures Digits(n, width) == Digits(m, width) <==> n == m
  {
    if width > 0 {
      var a, b := Digits(n / 10, width - 1), Digits(m / 10, width - 1);
      DigitsOrder(n / 10, m / 10, width - 1);
      DivModOrder(n, m);
      DigitOrder(n % 10, m % 10);
      LessConcat(a, b, [Digit(n % 10)], [Digit(m % 10)]);
      hide Less, Digit;
      var c, d := a + [Digit(n % 10)], b + [Digit(m % 10)];
      assert c[..width - 1] == a && d[..width - 1] == b;
      assert c[width - 1] == Digit(n % 10) && d[width - 1] == Digit(m % 10);
    }
  }

  // --- The fraction -----------------------------------------------------------------

  function TrimZeros(s: string): string {
    if |s| > 0 && s[|s| - 1] == '0' then TrimZeros(s[..|s| - 1]) else s
  }

  function Zeros(n: nat): string {
    if n == 0 then "" else "0" + Zeros(n - 1)
  }

  /** The fraction digits that are written. */
  function Fraction(t: Utc): string {
    TrimZeros(Digits(t.nanos, 9))
  }

  predicate AllDigits(s: string) {
    forall i :: 0 <= i < |s| ==> '0' <= s[i] <= '9'
  }

  predicate Trimmed(s: string) {
    AllDigits(s) && (|s| > 0 ==> s[|s| - 1] != '0')
  }

  lemma {:induction false} ZerosSnoc(n: nat)
    ensures Zeros(n) + "0" == "0" + Zeros(n)
  {
    if n > 0 {
      ZerosSnoc(n - 1);
      assert Zeros(n) + "0" == "0" + (Zeros(n - 1) + "0");
    }
  }

  lemma {:induction false} TrimPads(s: string)
    requires AllDigits(s)
    ensures Trimmed(TrimZeros(s)) && |TrimZeros(s)| <= |s|
    ensures s == TrimZeros(s) + Zeros(|s| - |TrimZeros(s)|)
  {
    if |s| > 0 && s[|s| - 1] == '0' {
      var before := s[..|s| - 1];
      TrimPads(before);
      var n := |before| - |TrimZeros(before)|;
      ZerosSnoc(n);
      assert s == before + "0";
      assert s == TrimZeros(before) + (Zeros(n) + "0");
    }
  }

  lemma {:induction false} ZeroTrimmed(width: nat)
    ensures TrimZeros(Digits(0, width)) == ""
  {
    if width > 0 {
      ZeroTrimmed(width - 1);
      assert Digits(0, width)[..width - 1] == Digits(0, width - 1);
    }
  }

  lemma {:induction false} PadOrder(u: string, v: string, k: nat, m: nat)
    requires Trimmed(u) && Trimmed(v) && |u| + k == |v| + m
    ensures Less(u + Zeros(k), v + Zeros(m)) <==> Less(u, v)
    ensures u + Zeros(k) == v + Zeros(m) <==> u == v
    decreases |u| + k
  {
    if |u| > 0 && |v| > 0 {
      Peel(u, Zeros(k));
      Peel(v, Zeros(m));
      PadOrder(u[1..], v[1..], k, m);
      HeadOrder(u[0], v[0], u[1..] + Zeros(k), v[1..] + Zeros(m));
      HeadOrder(u[0], v[0], u[1..], v[1..]);
    } else if |u| > 0 {
      PadOrderEmpty(u, k, m);
    } else if |v| > 0 {
      PadOrderEmpty(v, m, k);
    } else {
      LessTotal(u + Zeros(k), v + Zeros(m));
    }
  }

  // A padded number that is not zero sorts after the zero of the same width.
  lemma {:induction false} PadOrderEmpty(u: string, k: nat, m: nat)
    requires Trimmed(u) && |u| > 0 && |u| + k == m
    ensures Less("" + Zeros(m), u + Zeros(k)) && !Less(u + Zeros(k), "" + Zeros(m)) && u + Zeros(k) != "" + Zeros(m)
  {
    assert "" + Zeros(m) == Zeros(m) == ['0'] + Zeros(m - 1);
    Peel(u, Zeros(k));
    HeadOrder('0', u[0], Zeros(m - 1), u[1..] + Zeros(k));
    HeadOrder(u[0], '0', u[1..] + Zeros(k), Zeros(m - 1));
    if |u| > 1 {
      PadOrderEmpty(u[1..], k, m - 1);
      assert "" + Zeros(m - 1) == Zeros(m - 1);
    }
  }

  lemma Peel(u: string, x: string)
    requires |u| > 0
    ensures u == [u[0]] + u[1..] && u + x == [u[0]] + (u[1..] + x)
  {
  }

  lemma TrimOrder(x: string, y: string)
    requires AllDigits(x) && AllDigits(y) && |x| == |y|
    ensures Less(TrimZeros(x), TrimZeros(y)) <==> Less(x, y)
    ensures TrimZeros(x) == TrimZeros(y) <==> x == y
  {
    hide *;
    var u, v := TrimZeros(x), TrimZeros(y);
    TrimPads(x);
    TrimPads(y);
    PadOrder(u, v, |x| - |u|, |y| - |v|);
    assert x == u + Zeros(|x| - |u|) && y == v + Zeros(|y| - |v|);
  }

  lemma TrimmedOrder(n: nat, m: nat, width: nat)
    requires n < Pow10(width) && m < Pow10(width)
    ensures var u, v := TrimZeros(Digits(n, width)), TrimZeros(Digits(m, width));
            (Less(u, v) <==> n < m) && (u == v <==> n == m)
  {
    hide Less, TrimZeros;
    DigitsOrder(n, m, width);
    TrimOrder(Digits(n, width), Digits(m, width));
  }

  /** Without the final Z the written fractions order as the nanoseconds do. */
  lemma FractionOrder(a: Utc, b: Utc)
    requires Valid(a) && Valid(b)
    ensures Less(Fraction(a), Fraction(b)) <==> a.nanos < b.nanos
    ensures Fraction(a) == Fraction(b) <==> a.nanos == b.nanos
  {
    PowersOfTen();
    hide Less, TrimZeros, Digits, Pow10;
    TrimmedOrder(a.nanos, b.nanos, 9);
  }

  lemma PowersOfTen()
    ensures Pow10(2) == 100 && Pow10(4) == 10_000 && Pow10(9) == 1_000_000_000
  {
    assert Pow10(6) == 1_000_000;
  }

  /** The final Z sorts after every digit, so a fraction that continues another sorts before it. */
  lemma {:induction false} EndOrder(u: string, v: string)
    requires AllDigits(u) && AllDigits(v) && u != v
    ensures Less(u + "Z", v + "Z") <==> if u <= v then false else if v <= u then true else Less(u, v)
  {
    if |u| > 0 && |v| > 0 {
      assert (u + "Z")[1..] == u[1..] + "Z" && (v + "Z")[1..] == v[1..] + "Z";
      assert u == [u[0]] + u[1..] && v == [v[0]] + v[1..];
      if u[0] == v[0] {
        EndOrder(u[1..], v[1..]);
        assert u <= v <==> u[1..] <= v[1..];
        assert v <= u <==> v[1..] <= u[1..];
      }
    }
  }

  // --- The key ------------------------------------------------------------------------

  /** A number of fixed width and the separator after it. */
  datatype Field = Field(value: nat, width: nat, sep: string)

  function Fields(t: Utc): seq<Field> {
    [Field(t.year, 4, "-"), Field(t.month, 2, "-"), Field(t.day, 2, "T"),
     Field(t.hour, 2, ":"), Field(t.minute, 2, ":"), Field(t.second, 2, "")]
  }

  function Render(fs: seq<Field>, tail: string): string {
    if |fs| == 0 then tail else Digits(fs[0].value, fs[0].width) + (fs[0].sep + Render(fs[1..], tail))
  }

  function Rest(t: Utc): string {
    (if Fraction(t) == "" then "" else "." + Fraction(t)) + "Z"
  }

  /** time.RFC3339Nano. */
  function Key(t: Utc): string {
    Render(Fields(t), Rest(t))
  }

  predicate SameSecond(a: Utc, b: Utc) {
    a.(nanos := 0) == b.(nanos := 0)
  }

  /** The order of the times down to the second. */
  predicate FieldsBefore(fs: seq<Field>, gs: seq<Field>) {
    |fs| > 0 && |gs| > 0 &&
    if fs[0].value != gs[0].value then fs[0].value < gs[0].value else FieldsBefore(fs[1..], gs[1..])
  }

  /** The order of the times: the first component that differs decides. */
  predicate Before(a: Utc, b: Utc) {
    if a.year != b.year then a.year < b.year
    else if a.month != b.month then a.month < b.month
    else if a.day != b.day then a.day < b.day
    else if a.hour != b.hour then a.hour < b.hour
    else if a.minute != b.minute then a.minute < b.minute
    else if a.second != b.second then a.second < b.second
    else a.nanos < b.nanos
  }

  lemma FieldsBeforeIff(a: Utc, b: Utc)
    requires !SameSecond(a, b)
    ensures FieldsBefore(Fields(a), Fields(b)) <==> Before(a, b)
  {
    var fs, gs := Fields(a), Fields(b);
    FieldsBeforeFrom(fs, gs, 5);
    FieldsBeforeFrom(fs, gs, 4);
    FieldsBeforeFrom(fs, gs, 3);
    FieldsBeforeFrom(fs, gs, 2);
    FieldsBeforeFrom(fs, gs, 1);
    FieldsBeforeFrom(fs, gs, 0);
    hide FieldsBefore;
    assert fs[0..] == fs && gs[0..] == gs && fs[6..] == [] && gs[6..] == [];
  }

  lemma FieldsBeforeFrom(fs: seq<Field>, gs: seq<Field>, i: nat)
    requires |fs| == |gs| && i < |fs|
    ensures FieldsBefore(fs[i..], gs[i..]) <==>
            if fs[i].value != gs[i].value then fs[i].value < gs[i].value else FieldsBefore(fs[i + 1..], gs[i + 1..])
    ensures !FieldsBefore([], [])
  {
    assert fs[i..][1..] == fs[i + 1..] && gs[i..][1..] == gs[i + 1..];
  }

  // One more field in front of a text.
  lemma FieldOrder(n: nat, m: nat, width: nat, x: string, y: string)
    requires n < Pow10(width) && m < Pow10(width)
    ensures Less(Digits(n, width) + x, Digits(m, width) + y) <==> if n == m then Less(x, y) else n < m
  {
    DigitsOrder(n, m, width);
    LessConcat(Digits(n, width), Digits(m, width), x, y);
  }

  lemma SeparatorOrder(sep: string, x: string, y: string)
    ensures Less(sep + x, sep + y) <==> Less(x, y)
  {
    LessConcat(sep, sep, x, y);
  }

  lemma {:induction false} RenderOrder(fs: seq<Field>, gs: seq<Field>, x: string, y: string)
    requires |fs| == |gs|
    requires forall i :: 0 <= i < |fs| ==>
                           fs[i].width == gs[i].width && fs[i].sep == gs[i].sep
                           && fs[i].value < Pow10(fs[i].width) && gs[i].value < Pow10(gs[i].width)
    ensures Less(Render(fs, x), Render(gs, y)) <==> if fs == gs then Less(x, y) else FieldsBefore(fs, gs)
  {
    if |fs| > 0 {
      var a, b := Render(fs[1..], x), Render(gs[1..], y);
      RenderOrder(fs[1..], gs[1..], x, y);
      SeparatorOrder(fs[0].sep, a, b);
      hide Less, Digits;
      FieldOrder(fs[0].value, gs[0].value, fs[0].width, fs[0].sep + a, gs[0].sep + b);
      FieldsEqual(fs, gs);
    }
  }

  lemma FieldsEqual(fs: seq<Field>, gs: seq<Field>)
    requires |fs| == |gs| > 0 && fs[0].width == gs[0].width && fs[0].sep == gs[0].sep
    ensures fs == gs <==> fs[0].value == gs[0].value && fs[1..] == gs[1..]
  {
    assert fs == [fs[0]] + fs[1..] && gs == [gs[0]] + gs[1..];
  }

  lemma SecondOrder(a: Utc, b: Utc, x: string, y: string)
    requires Valid(a) && Valid(b)
    ensures Less(Render(Fields(a), x), Render(Fields(b), y)) <==>
            if SameSecond(a, b) then Less(x, y) else FieldsBefore(Fields(a), Fields(b))
  {
    PowersOfTen();
    hide Less, Render, FieldsBefore, Pow10;
    RenderOrder(Fields(a), Fields(b), x, y);
    assert Fields(a) == Fields(b) <==> SameSecond(a, b) by {
      if Fields(a) == Fields(b) {
        assert forall i :: 0 <= i < 6 ==> Fields(a)[i] == Fields(b)[i];
        assert Fields(a)[0] == Fields(b)[0] && Fields(a)[1] == Fields(b)[1] && Fields(a)[2] == Fields(b)[2];
        assert Fields(a)[3] == Fields(b)[3] && Fields(a)[4] == Fields(b)[4] && Fields(a)[5] == Fields(b)[5];
      }
    }
  }

  /** One written fraction continues the other. */
  predicate Nested(a: Utc, b: Utc) {
    Fraction(a) <= Fraction(b) || Fraction(b) <= Fraction(a)
  }

  lemma RestOrder(a: Utc, b: Utc)
    requires Valid(a) && Valid(b) && a.nanos != b.nanos
    ensures Less(Rest(a), Rest(b)) <==> if Nested(a, b) then b.nanos < a.nanos else a.nanos < b.nanos
  {
    var u, v := Fraction(a), Fraction(b);
    FractionOrder(a, b);
    TrimPads(Digits(a.nanos, 9));
    TrimPads(Digits(b.nanos, 9));
    EndOrder(u, v);
    PrefixLess(u, v);
    PrefixLess(v, u);
    LessTotal(u, v);
    if u != "" && v != "" {
      SeparatorOrder(".", u + "Z", v + "Z");
      assert Rest(a) == "." + (u + "Z") && Rest(b) == "." + (v + "Z");
    }
  }

  lemma {:induction false} PrefixLess(u: string, v: string)
    requires u != v
    ensures u <= v ==> Less(u, v)
  {
    if u <= v && |u| > 0 {
      assert u == [u[0]] + u[1..] && v == [v[0]] + v[1..];
      PrefixLess(u[1..], v[1..]);
    }
  }

  /**
   The texts of two different times order as the times do, except when the times lie in the same second and
   one written fraction continues the other, a missing fraction included: then the order is reversed.
   */
  lemma KeyOrderIff(a: Utc, b: Utc)
    requires Valid(a) && Valid(b) && a != b
    ensures Less(Key(a), Key(b)) <==> if SameSecond(a, b) && Nested(a, b) then Before(b, a) else Before(a, b)
  {
    SecondOrder(a, b, Rest(a), Rest(b));
    if SameSecond(a, b) {
      RestOrder(a, b);
    } else {
      FieldsBeforeIff(a, b);
    }
  }

  /**
   What is written: the components in the order of RFC 3339, each in its fixed width, then the fraction's
   nine digits less their trailing zeros, if any are left.
   */
  lemma KeyLayout(t: Utc)
    ensures var rest := (if Fraction(t) == "" then "" else "." + Fraction(t)) + "Z";
            var clock := Digits(t.hour, 2) + (":" + (Digits(t.minute, 2) + (":" + (Digits(t.second, 2) + rest))));
            Key(t) == Digits(t.year, 4) + ("-" + (Digits(t.month, 2) + ("-" + (Digits(t.day, 2) + ("T" + clock)))))
    ensures |Fraction(t)| <= 9 && Trimmed(Fraction(t))
    ensures Digits(t.nanos, 9) == Fraction(t) + Zeros(9 - |Fraction(t)|)
  {
    TrimPads(Digits(t.nanos, 9));
    hide Digits, TrimZeros;
    var fs, rest := Fields(t), Rest(t);
    RenderFrom(fs, rest, 0);
    RenderFrom(fs, rest, 1);
    RenderFrom(fs, rest, 2);
    RenderFrom(fs, rest, 3);
    RenderFrom(fs, rest, 4);
    RenderFrom(fs, rest, 5);
    hide Render;
    assert fs[0..] == fs && fs[6..] == [];
    assert "" + rest == rest;
  }

  lemma RenderFrom(fs: seq<Field>, tail: string, i: nat)
    requires i < |fs|
    ensures Render(fs[i..], tail) == Digits(fs[i].value, fs[i].width) + (fs[i].sep + Render(fs[i + 1..], tail))
    ensures Render([], tail) == tail
  {
    assert fs[i..][1..] == fs[i + 1..];
  }

  /** The guarantee of RFC 3339: with equally long fractions the order is right. */
  lemma EqualFractionsOrder(a: Utc, b: Utc)
    requires Valid(a) && Valid(b) && a != b && |Fraction(a)| == |Fraction(b)|
    ensures Less(Key(a), Key(b)) <==> Before(a, b)
  {
    KeyOrderIff(a, b);
    FractionOrder(a, b);
  }
}
