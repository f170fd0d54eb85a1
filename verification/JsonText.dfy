/** JSON string literals and integers as UTF-16 text, escaped as section 7 of RFC 8259 allows. */
module JsonText {

  /** A UTF-16 code unit. */
  type Unit = u: int | 0 <= u < 0x10000

  type Text = seq<Unit>

  const QUOTE: Unit := 0x22
  const BACKSLASH: Unit := 0x5C

  predicate High(u: Unit) {
    0xD800 <= u < 0xDC00
  }

  predicate Low(u: Unit) {
    0xDC00 <= u < 0xE000
  }

  function HexDigit(d: int): Unit
    requires 0 <= d < 16
  {
    if d < 10 then 48 + d else 87 + d
  }

  function Hex(u: Unit): Text {
    [BACKSLASH, 117, HexDigit(u / 4096), HexDigit(u / 256 % 16), HexDigit(u / 16 % 16), HexDigit(u % 16)]
  }

  /** The letter of a two-unit escape, or zero. */
  function Short(u: Unit): Unit {
    if u == QUOTE || u == BACKSLASH then u
    else if u == 8 then 98
    else if u == 9 then 116
    else if u == 10 then 110
    else if u == 12 then 102
    else if u == 13 then 114
    else 0
  }

  /** One unit on its own: control characters and unpaired surrogates are written in hexadecimal. */
  function Escape(u: Unit): Text {
    if Short(u) != 0 then [BACKSLASH, Short(u)]
    else if u < 0x20 || High(u) || Low(u) then Hex(u)
    else [u]
  }

  predicate Paired(s: Text) {
    |s| >= 2 && High(s[0]) && Low(s[1])
  }

  /** The inside of a string literal. */
  function Inside(s: Text): Text {
    if s == [] then []
    else if Paired(s) then s[..2] + Inside(s[2..])
    else Escape(s[0]) + Inside(s[1..])
  }

  function Quote(s: Text): Text {
    [QUOTE] + Inside(s) + [QUOTE]
  }

  lemma FromHexDigits(u: Unit)
    ensures u == u / 4096 * 4096 + u / 256 % 16 * 256 + u / 16 % 16 * 16 + u % 16
  {
    assert u / 4096 == u / 256 / 16 && u / 256 == u / 16 / 16;
  }

  lemma HexDigitIsInjective(d: int, e: int)
    requires 0 <= d < 16 && 0 <= e < 16 && HexDigit(d) == HexDigit(e)
    ensures d == e
  {
  }

  lemma HexIsInjective(u: Unit, v: Unit)
    requires Hex(u) == Hex(v)
    ensures u == v
  {
    assert Hex(u)[2] == Hex(v)[2] && Hex(u)[3] == Hex(v)[3] && Hex(u)[4] == Hex(v)[4] && Hex(u)[5] == Hex(v)[5];
    hide HexDigit;
    HexDigitIsInjective(u / 4096, v / 4096);
    HexDigitIsInjective(u / 256 % 16, v / 256 % 16);
    HexDigitIsInjective(u / 16 % 16, v / 16 % 16);
    HexDigitIsInjective(u % 16, v % 16);
    FromHexDigits(u);
    FromHexDigits(v);
  }

  lemma EscapeShape(u: Unit)
    ensures |Escape(u)| in {1, 2, 6} && Escape(u)[0] != QUOTE
    ensures |Escape(u)| == 1 <==> Escape(u)[0] != BACKSLASH
    ensures |Escape(u)| == 1 ==> Escape(u) == [u] && !High(u)
    ensures |Escape(u)| == 6 <==> |Escape(u)| > 1 && Escape(u)[1] == 117
  {
  }

  /** No escape is a prefix of another: two texts that start with escapes start with the same one. */
  lemma EscapeIsPrefixFree(u: Unit, v: Unit, x: Text, y: Text)
    requires Escape(u) + x == Escape(v) + y
    ensures u == v && x == y
  {
    EscapeShape(u);
    EscapeShape(v);
    var all := Escape(u) + x;
    assert all[0] == Escape(u)[0] && all[0] == Escape(v)[0];
    if |Escape(u)| > 1 {
      assert all[1] == Escape(u)[1] && all[1] == Escape(v)[1];
    }
    assert |Escape(u)| == |Escape(v)|;
    assert all[..|Escape(u)|] == Escape(u) && all[..|Escape(u)|] == Escape(v);
    assert all[|Escape(u)|..] == x && all[|Escape(u)|..] == y;
    if |Escape(u)| == 6 {
      HexIsInjective(u, v);
    }
  }

  lemma InsideStarts(s: Text)
    requires s != []
    ensures Inside(s) != [] && Inside(s)[0] != QUOTE
    ensures Paired(s) <==> High(Inside(s)[0])
  {
    EscapeShape(s[0]);
  }

  lemma Assoc(a: Text, b: Text, c: Text)
    ensures (a + b) + c == a + (b + c)
  {
  }

  lemma SameHead(a: Text, x: Text, b: Text, y: Text)
    requires a + x == b + y && |a| == |b|
    ensures a == b && x == y
  {
    assert (a + x)[..|a|] == a && (b + y)[..|b|] == b;
    assert (a + x)[|a|..] == x && (b + y)[|b|..] == y;
  }

  lemma SameStart(a: Text, x: Text, b: Text, y: Text)
    requires a + x == b + y && a != [] && b != []
    ensures a[0] == b[0]
  {
    assert (a + x)[0] == a[0] && (b + y)[0] == b[0];
  }

  lemma PairUnfolds(s: Text, tail: Text)
    requires Paired(s)
    ensures Inside(s) + tail == s[..2] + (Inside(s[2..]) + tail)
  {
    Assoc(s[..2], Inside(s[2..]), tail);
  }

  lemma UnitUnfolds(s: Text, tail: Text)
    requires s != [] && !Paired(s)
    ensures Inside(s) + tail == Escape(s[0]) + (Inside(s[1..]) + tail)
  {
    Assoc(Escape(s[0]), Inside(s[1..]), tail);
  }

  /** A literal's inside determines itself and where it ends, whatever follows. */
  lemma {:induction false} InsideIsPrefixFree(s: Text, t: Text, x: Text, y: Text)
    requires Inside(s) + ([QUOTE] + x) == Inside(t) + ([QUOTE] + y)
    ensures s == t && x == y
    decreases |s|
  {
    hide Inside, Escape;
    if s == [] || t == [] {
      EmptyInside(s, t, x, y);
    } else {
      InsideStarts(s);
      InsideStarts(t);
      SameStart(Inside(s), [QUOTE] + x, Inside(t), [QUOTE] + y);
      if Paired(s) {
        PairUnfolds(s, [QUOTE] + x);
        PairUnfolds(t, [QUOTE] + y);
        SameHead(s[..2], Inside(s[2..]) + ([QUOTE] + x), t[..2], Inside(t[2..]) + ([QUOTE] + y));
        InsideIsPrefixFree(s[2..], t[2..], x, y);
        assert s == s[..2] + s[2..] && t == t[..2] + t[2..];
      } else {
        UnitUnfolds(s, [QUOTE] + x);
        UnitUnfolds(t, [QUOTE] + y);
        EscapeIsPrefixFree(s[0], t[0], Inside(s[1..]) + ([QUOTE] + x), Inside(t[1..]) + ([QUOTE] + y));
        InsideIsPrefixFree(s[1..], t[1..], x, y);
        assert s == [s[0]] + s[1..] && t == [t[0]] + t[1..];
      }
    }
  }

  lemma EmptyInside(s: Text, t: Text, x: Text, y: Text)
    requires Inside(s) + ([QUOTE] + x) == Inside(t) + ([QUOTE] + y) && (s == [] || t == [])
    ensures s == t && x == y
  {
    assert [] + ([QUOTE] + x) == [QUOTE] + x && [] + ([QUOTE] + y) == [QUOTE] + y;
    if s != [] {
      InsideStarts(s);
      SameStart(Inside(s), [QUOTE] + x, [QUOTE], y);
    } else if t != [] {
      InsideStarts(t);
      SameStart(Inside(t), [QUOTE] + y, [QUOTE], x);
    } else {
      SameHead([QUOTE], x, [QUOTE], y);
    }
  }

  lemma QuoteIsPrefixFree(s: Text, t: Text, x: Text, y: Text)
    requires Quote(s) + x == Quote(t) + y
    ensures s == t && x == y
  {
    assert Quote(s) + x == [QUOTE] + (Inside(s) + ([QUOTE] + x));
    assert Quote(t) + y == [QUOTE] + (Inside(t) + ([QUOTE] + y));
    SameHead([QUOTE], Inside(s) + ([QUOTE] + x), [QUOTE], Inside(t) + ([QUOTE] + y));
    InsideIsPrefixFree(s, t, x, y);
  }

  // ---------- Integers ----------

  function Digits(n: nat): Text {
    if n < 10 then [48 + n] else Digits(n / 10) + [48 + n % 10]
  }

  function Decimal(n: int): Text {
    if n < 0 then [45] + Digits(-n) else Digits(n)
  }

  predicate IsDigit(u: Unit) {
    48 <= u < 58
  }

  /** What can follow a value inside a larger text. */
  predicate Terminated(x: Text) {
    x == [] || x[0] == 0x2C || x[0] == 0x5D || x[0] == 0x7D
  }

  lemma {:induction false} DigitsAreDigits(n: nat)
    ensures Digits(n) != [] && forall i :: 0 <= i < |Digits(n)| ==> IsDigit(Digits(n)[i])
  {
    if n >= 10 {
      DigitsAreDigits(n / 10);
    }
  }

  lemma {:induction false} DigitsAreInjective(m: nat, n: nat)
    requires Digits(m) == Digits(n)
    ensures m == n
  {
    DigitsLength(m);
    DigitsLength(n);
    if m >= 10 && n >= 10 {
      var k := |Digits(m)| - 1;
      assert Digits(m)[..k] == Digits(m / 10) && Digits(n)[..k] == Digits(n / 10);
      assert Digits(m)[k] == 48 + m % 10 && Digits(n)[k] == 48 + n % 10;
      DigitsAreInjective(m / 10, n / 10);
    }
  }

  lemma DigitsLength(n: nat)
    ensures |Digits(n)| == 1 <==> n < 10
  {
    if n >= 10 {
      DigitsAreDigits(n / 10);
    }
  }

  predicate AllDigits(a: Text) {
    forall i :: 0 <= i < |a| ==> IsDigit(a[i])
  }

  lemma NoLonger(a: Text, b: Text, x: Text, y: Text)
    requires a + x == b + y && AllDigits(a) && Terminated(y)
    ensures |a| <= |b|
  {
    var all := a + x;
    assert |b| < |a| ==> IsDigit(all[|b|]);
    assert all[|b|..] == y;
  }

  lemma DigitsArePrefixFree(m: nat, n: nat, x: Text, y: Text)
    requires Digits(m) + x == Digits(n) + y && Terminated(x) && Terminated(y)
    ensures m == n && x == y
  {
    DigitsAreDigits(m);
    DigitsAreDigits(n);
    NoLonger(Digits(m), Digits(n), x, y);
    NoLonger(Digits(n), Digits(m), y, x);
    SameHead(Digits(m), x, Digits(n), y);
    DigitsAreInjective(m, n);
  }

  lemma DecimalIsPrefixFree(m: int, n: int, x: Text, y: Text)
    requires Decimal(m) + x == Decimal(n) + y && Terminated(x) && Terminated(y)
    ensures m == n && x == y
  {
    hide Digits, Terminated;
    DecimalStarts(m);
    DecimalStarts(n);
    SameStart(Decimal(m), x, Decimal(n), y);
    if m < 0 {
      Assoc([45], Digits(-m), x);
      Assoc([45], Digits(-n), y);
      SameHead([45], Digits(-m) + x, [45], Digits(-n) + y);
      DigitsArePrefixFree(-m, -n, x, y);
    } else {
      DigitsArePrefixFree(m, n, x, y);
    }
  }

  lemma DecimalStarts(n: int)
    ensures Decimal(n) != [] && (n < 0 <==> Decimal(n)[0] == 45) && (Decimal(n)[0] == 45 || IsDigit(Decimal(n)[0]))
  {
    if n >= 0 {
      DigitsAreDigits(n);
    }
  }
}
