/** A concrete text for keys and scalars, as JSON writes them: it tells them apart, it ends where a delimiter
    is, and it holds no line break. */
module JsonText {
  import opened CanonicalJson

  predicate OneLine(s: string) {
    forall i :: 0 <= i < |s| ==> s[i] != '\n'
  }

  predicate Digits(s: string) {
    forall i :: 0 <= i < |s| ==> '0' <= s[i] <= '9'
  }

  /** A run of digits ends where something else begins. */
  lemma DigitsOnce(a: string, b: string, r: string, s: string)
    requires Digits(a) && Digits(b) && a + r == b + s && (r != "" ==> !('0' <= r[0] <= '9'))
    requires (s != "" ==> !('0' <= s[0] <= '9'))
    ensures a == b && r == s
  {
    if |a| < |b| { Shorter(a, b, r, s); }
    if |b| < |a| { Shorter(b, a, s, r); }
    SplitEqual(a, b, r, s);
  }

  // -- numbers ---------------------------------------------------------------------------------

  function Digit(d: nat): char
    requires d < 10
  {
    ('0' as int + d) as char
  }

  function Decimal(n: nat): (s: string)
    ensures s != "" && Digits(s)
  {
    if n < 10 then [Digit(n)] else Decimal(n / 10) + [Digit(n % 10)]
  }

  /** Decimals tell numbers apart. */
  lemma {:induction false} DecimalOnce(m: nat, n: nat)
    requires Decimal(m) == Decimal(n)
    ensures m == n
  {
    var a, b := Decimal(m), Decimal(n);
    assert a[|a| - 1] == Digit(m % 10) && b[|b| - 1] == Digit(n % 10);
    if m >= 10 && n >= 10 {
      assert Decimal(m / 10) == a[..|a| - 1] && Decimal(n / 10) == b[..|b| - 1];
      DecimalOnce(m / 10, n / 10);
    }
  }

  function Integer(n: int): (s: string)
    ensures s != "" && (s[0] == '-' || '0' <= s[0] <= '9') && Digits(s[1..])
  {
    if n < 0 then "-" + Decimal(-n) else Decimal(n)
  }

  lemma IntegerOnce(m: int, n: int)
    requires Integer(m) == Integer(n)
    ensures m == n
  {
    assert Integer(m)[0] == Integer(n)[0];
    if m < 0 {
      assert Decimal(-m) == Integer(m)[1..] && Decimal(-n) == Integer(n)[1..];
      DecimalOnce(-m, -n);
    } else {
      DecimalOnce(m, n);
    }
  }

  // -- quoted text -----------------------------------------------------------------------------

  function EscapeChar(c: char): string {
    if c == '"' then "\\\"" else if c == '\\' then "\\\\" else if c == '\n' then "\\n" else [c]
  }

  function Escape(s: string): (r: string)
    ensures OneLine(r)
  {
    if s == "" then "" else EscapeChar(s[0]) + Escape(s[1..])
  }

  function Quote(s: string): string {
    "\"" + (Escape(s) + "\"")
  }

  lemma EscapeParts(a: string, r: string)
    requires a != ""
    ensures Escape(a) + r == EscapeChar(a[0]) + (Escape(a[1..]) + r)
  {
  }

  /** No character's text begins another's, and none begins with a bare quote. */
  lemma EscapeCharOnce(c: char, d: char, r: string, s: string)
    requires EscapeChar(c) + r == EscapeChar(d) + s
    ensures c == d && r == s
  {
    var x, y := EscapeChar(c) + r, EscapeChar(d) + s;
    assert x[0] == EscapeChar(c)[0] && y[0] == EscapeChar(d)[0];
    if x[0] == '\\' {
      assert x[1] == EscapeChar(c)[1] && y[1] == EscapeChar(d)[1];
    }
    SplitEqual(EscapeChar(c), EscapeChar(d), r, s);
  }

  lemma QuoteOrNot(c: char, r: string, s: string)
    ensures EscapeChar(c) + r != "\"" + s
  {
    assert (EscapeChar(c) + r)[0] == EscapeChar(c)[0] && ("\"" + s)[0] == '"';
  }

  /** A quoted text ends at its first bare quote. */
  lemma {:induction false} EscapeOnce(a: string, b: string, r: string, s: string)
    requires Escape(a) + ("\"" + r) == Escape(b) + ("\"" + s)
    ensures a == b && r == s
  {
    if a == "" && b == "" {
      assert Escape(a) + ("\"" + r) == "\"" + r && Escape(b) + ("\"" + s) == "\"" + s;
      SplitEqual("\"", "\"", r, s);
    } else if a == "" {
      assert Escape(a) + ("\"" + r) == "\"" + r;
      EscapeParts(b, "\"" + s);
      QuoteOrNot(b[0], Escape(b[1..]) + ("\"" + s), r);
    } else if b == "" {
      assert Escape(b) + ("\"" + s) == "\"" + s;
      EscapeParts(a, "\"" + r);
      QuoteOrNot(a[0], Escape(a[1..]) + ("\"" + r), s);
    } else {
      EscapeParts(a, "\"" + r);
      EscapeParts(b, "\"" + s);
      EscapeCharOnce(a[0], b[0], Escape(a[1..]) + ("\"" + r), Escape(b[1..]) + ("\"" + s));
      EscapeOnce(a[1..], b[1..], r, s);
      assert a == [a[0]] + a[1..] && b == [b[0]] + b[1..];
    }
  }

  lemma QuoteOnce(a: string, b: string, r: string, s: string)
    requires Quote(a) + r == Quote(b) + s
    ensures a == b && r == s
  {
    var x, y := Escape(a) + ("\"" + r), Escape(b) + ("\"" + s);
    assert Quote(a) + r == "\"" + x && Quote(b) + s == "\"" + y;
    SplitEqual("\"", "\"", x, y);
    EscapeOnce(a, b, r, s);
  }

  // -- scalars -----------------------------------------------------------------------------------

  function ScalarText(v: Scalar): string {
    match v
    case Null => "null"
    case Truth(b) => if b then "true" else "false"
    case Whole(n) => Integer(n)
    case Float(m, e) => Integer(m) + ("e" + Integer(e))
    case Str(s) => Quote(s)
  }

  /** A text that no delimiter interrupts and that is not quoted. */
  predicate Bare(s: string) {
    s != "" && s[0] != '"' && forall i :: 0 <= i < |s| ==> s[i] !in "{[]},\n"
  }

  lemma ScalarBare(v: Scalar)
    requires !v.Str?
    ensures Bare(ScalarText(v))
  {
    if v.Float? {
      var a, b := Integer(v.mantissa), Integer(v.exponent);
      assert (a + ("e" + b))[0] == a[0];
    }
  }

  /** A bare text ends where its delimiter is. */
  lemma BareOnce(a: string, b: string, r: string, s: string)
    requires Bare(a) && Bare(b) && a + r == b + s && Ends(r) && Ends(s)
    ensures a == b && r == s
  {
    if |a| < |b| { Shorter(a, b, r, s); }
    if |b| < |a| { Shorter(b, a, s, r); }
    SplitEqual(a, b, r, s);
  }

  /** Bare scalars with one text are equal. */
  lemma BareSame(v: Scalar, w: Scalar)
    requires !v.Str? && !w.Str? && ScalarText(v) == ScalarText(w)
    ensures v == w
  {
    assert ScalarText(v)[0] == ScalarText(w)[0];
    if v.Whole? && w.Whole? {
      IntegerOnce(v.n, w.n);
    } else if v.Float? && w.Float? {
      NoE(v.mantissa);
      NoE(w.mantissa);
      MarkOnce('e', Integer(v.mantissa), Integer(w.mantissa), Integer(v.exponent), Integer(w.exponent));
      IntegerOnce(v.mantissa, w.mantissa);
      IntegerOnce(v.exponent, w.exponent);
    } else if v.Float? && w.Whole? {
      WholeOrFloat(w.n, v.mantissa, v.exponent);
    } else if v.Whole? && w.Float? {
      WholeOrFloat(v.n, w.mantissa, w.exponent);
    } else {
      FirstLetter(v);
      FirstLetter(w);
    }
  }

  lemma NoE(n: int)
    ensures 'e' !in Integer(n)
  {
    forall i | 0 <= i < |Integer(n)| ensures Integer(n)[i] != 'e' {
      if i > 0 { assert Integer(n)[i] == Integer(n)[1..][i - 1]; }
    }
  }

  lemma WholeOrFloat(n: int, m: int, e: int)
    ensures Integer(n) != Integer(m) + ("e" + Integer(e))
  {
    NoE(n);
    assert (Integer(m) + ("e" + Integer(e)))[|Integer(m)|] == 'e';
  }

  lemma FirstLetter(v: Scalar)
    requires !v.Str?
    ensures v.Null? <==> ScalarText(v)[0] == 'n'
    ensures v == Truth(true) <==> ScalarText(v)[0] == 't'
    ensures v == Truth(false) <==> ScalarText(v)[0] == 'f'
  {
    if v.Float? {
      var a, b := Integer(v.mantissa), Integer(v.exponent);
      assert (a + ("e" + b))[0] == a[0];
    }
  }

  lemma ScalarOnce(v: Scalar, w: Scalar, r: string, s: string)
    requires ScalarText(v) + r == ScalarText(w) + s && Ends(r) && Ends(s)
    ensures v == w
  {
    var a, b := ScalarText(v), ScalarText(w);
    assert (a + r)[0] == a[0] && (b + s)[0] == b[0] by { ScalarStarts(v); ScalarStarts(w); }
    if v.Str? && w.Str? {
      QuoteOnce(v.s, w.s, r, s);
    } else if v.Str? {
      ScalarBare(w);
    } else if w.Str? {
      ScalarBare(v);
    } else {
      ScalarBare(v);
      ScalarBare(w);
      BareOnce(a, b, r, s);
      BareSame(v, w);
    }
  }

  lemma ScalarStarts(v: Scalar)
    ensures ScalarText(v) != "" && ScalarText(v)[0] !in "{[]},"
    ensures v.Str? <==> ScalarText(v)[0] == '"'
    ensures OneLine(ScalarText(v))
  {
    if !v.Str? { ScalarBare(v); }
  }

  // -- the printer -----------------------------------------------------------------------------

  /** Keys in the order of their characters. */
  predicate Before(a: string, b: string) {
    b != "" && (a == "" || a[0] < b[0] || (a[0] == b[0] && Before(a[1..], b[1..])))
  }

  lemma {:induction false} BeforeOne(a: string, b: string)
    ensures a != b ==> (Before(a, b) <==> !Before(b, a))
    ensures a == b ==> !Before(a, b)
  {
    if a != "" && b != "" && a[0] == b[0] {
      BeforeOne(a[1..], b[1..]);
      assert a == [a[0]] + a[1..] && b == [b[0]] + b[1..];
    }
  }

  lemma {:induction false} BeforeChain(a: string, b: string, c: string)
    requires Before(a, b) && Before(b, c)
    ensures Before(a, c)
  {
    if a != "" && a[0] == b[0] && b[0] == c[0] {
      BeforeChain(a[1..], b[1..], c[1..]);
    }
  }

  function Json(): Printer {
    Printer((k: Key) => Quote(k), (v: Scalar) => ScalarText(v), (a: Key, b: Key) => Before(a, b))
  }

  lemma JsonDelimited()
    ensures Delimited(Json())
  {
    var p := Json();
    forall a, b, r, s | p.key(a) + ":" + r == p.key(b) + ":" + s ensures a == b {
      assert Quote(a) + ":" + r == Quote(a) + (":" + r) && Quote(b) + ":" + s == Quote(b) + (":" + s);
      QuoteOnce(a, b, ":" + r, ":" + s);
    }
    forall a, b, r, s | p.scalar(a) + r == p.scalar(b) + s && Ends(r) && Ends(s) ensures a == b {
      ScalarOnce(a, b, r, s);
    }
    forall a ensures p.scalar(a) != "" && p.scalar(a)[0] !in "{[]}," { ScalarStarts(a); }
  }

  lemma JsonOrdered()
    ensures TotalOrder(Json())
  {
    var p := Json();
    forall a, b ensures a != b ==> (p.less(a, b) <==> !p.less(b, a)) { BeforeOne(a, b); }
    forall a ensures !p.less(a, a) { BeforeOne(a, a); }
    forall a, b, c | p.less(a, b) && p.less(b, c) ensures p.less(a, c) { BeforeChain(a, b, c); }
  }

  lemma JsonOneLine()
    ensures forall k :: OneLine(Json().key(k))
    ensures forall v :: OneLine(Json().scalar(v))
  {
    forall v ensures OneLine(Json().scalar(v)) { ScalarStarts(v); }
  }
}
