/**
 * Text handling used by the generators and the judge: Python's str() of a
 * non-negative int, str.strip() and str.lower(), and parsers that read back
 * the answer strings the generators render ("n/d", "w r/d",
 * "[[x,y],[z,w]]").
 */
module Strings {
  import opened Wrappers

  predicate IsDigit(c: char) {
    '0' <= c <= '9'
  }

  predicate AllDigits(s: string) {
    forall i :: 0 <= i < |s| ==> IsDigit(s[i])
  }

  function DigitChar(d: nat): (c: char)
    requires d < 10
    ensures IsDigit(c) && c as int - '0' as int == d
  {
    ('0' as int + d) as char
  }

  /** Decimal rendering of a natural number without leading zeros, as str(n). */
  function NatStr(n: nat): string
    decreases n
  {
    if n < 10 then [DigitChar(n)] else NatStr(n / 10) + [DigitChar(n % 10)]
  }

  /** Decimal rendering of an integer, with a leading '-' when negative. */
  function IntStr(i: int): string {
    if i < 0 then "-" + NatStr(-i) else NatStr(i)
  }

  /** The number a string of decimal digits denotes. */
  function DigitsValue(s: string): nat
    requires AllDigits(s)
    decreases |s|
  {
    if s == [] then 0 else 10 * DigitsValue(s[..|s| - 1]) + (s[|s| - 1] as int - '0' as int)
  }

  /** NatStr writes at least one digit, only digits, and denotes n. */
  lemma {:induction false} NatStrDigits(n: nat)
    ensures |NatStr(n)| >= 1 && AllDigits(NatStr(n)) && DigitsValue(NatStr(n)) == n
    decreases n
  {
    if n >= 10 {
      NatStrDigits(n / 10);
      var s := NatStr(n);
      assert s[..|s| - 1] == NatStr(n / 10);
    }
  }

  /** Number of leading decimal digits of s. */
  function LeadingDigits(s: string): (k: nat)
    ensures k <= |s| && AllDigits(s[..k]) && (k < |s| ==> !IsDigit(s[k]))
    decreases |s|
  {
    if s != [] && IsDigit(s[0]) then
      var k := 1 + LeadingDigits(s[1..]);
      assert s[..k] == [s[0]] + s[1..][..k - 1];
      k
    else 0
  }

  /** Reads the longest non-empty run of leading digits; returns its value and the rest. */
  function ParseNatPrefix(s: string): Option<(nat, string)> {
    var k := LeadingDigits(s);
    if k == 0 then None else Some((DigitsValue(s[..k]), s[k..]))
  }

  /** Leading digits of a digit string followed by a non-digit stop at the boundary. */
  lemma {:induction false} LeadingDigitsOf(d: string, t: string)
    requires AllDigits(d)
    requires t == [] || !IsDigit(t[0])
    ensures LeadingDigits(d + t) == |d|
    decreases |d|
  {
    if d != [] {
      assert (d + t)[1..] == d[1..] + t;
      LeadingDigitsOf(d[1..], t);
    }
  }

  /** Parsing the rendering of n followed by a non-digit gives back n and the rest. */
  lemma NatStrParses(n: nat, t: string)
    requires t == [] || !IsDigit(t[0])
    ensures ParseNatPrefix(NatStr(n) + t) == Some((n, t))
  {
    NatStrDigits(n);
    var s := NatStr(n) + t;
    LeadingDigitsOf(NatStr(n), t);
    assert s[..|NatStr(n)|] == NatStr(n);
    assert s[|NatStr(n)|..] == t;
  }

  /** The rest of s after the literal prefix lit, if s starts with it. */
  function AfterLiteral(lit: string, s: string): Option<string> {
    if lit <= s then Some(s[|lit|..]) else None
  }

  /** A natural number followed by the literal lit. */
  function ParseNatThen(s: string, lit: string): Option<(nat, string)> {
    match ParseNatPrefix(s)
    case None => None
    case Some((n, r)) =>
      match AfterLiteral(lit, r)
      case None => None
      case Some(r') => Some((n, r'))
  }

  lemma NatThenParses(n: nat, lit: string, t: string)
    requires |lit| > 0 && !IsDigit(lit[0])
    ensures ParseNatThen(NatStr(n) + lit + t, lit) == Some((n, t))
  {
    assert NatStr(n) + lit + t == NatStr(n) + (lit + t);
    NatStrParses(n, lit + t);
    assert (lit + t)[|lit|..] == t;
  }

  // ---- fractions "n/d" ----

  function FractionStr(n: nat, d: nat): string {
    NatStr(n) + "/" + NatStr(d)
  }

  function ParseFraction(s: string): Option<(nat, nat)> {
    match ParseNatThen(s, "/")
    case None => None
    case Some((n, r)) =>
      match ParseNatPrefix(r)
      case Some((d, r')) => if r' == [] then Some((n, d)) else None
      case None => None
  }

  /** A rendered fraction starts and ends with a digit. */
  lemma FractionStrTrimmed(n: nat, d: nat)
    ensures Trimmed(FractionStr(n, d))
  {
    NatStrDigits(n);
    NatStrDigits(d);
    var f := FractionStr(n, d);
    assert f[0] == NatStr(n)[0];
    assert f[|f| - 1] == NatStr(d)[|NatStr(d)| - 1];
  }

  /** The fraction rendering is read back exactly. */
  lemma FractionRoundTrip(n: nat, d: nat)
    ensures ParseFraction(FractionStr(n, d)) == Some((n, d))
  {
    NatThenParses(n, "/", NatStr(d));
    assert NatStr(d) + [] == NatStr(d);
    NatStrParses(d, []);
  }

  // ---- mixed numbers "w" or "w r/d" ----

  datatype MixedNumber = Whole(whole: nat) | Mixed(whole: nat, rem: nat, den: nat)

  function MixedStr(m: MixedNumber): string {
    match m
    case Whole(w) => NatStr(w)
    case Mixed(w, r, d) => NatStr(w) + " " + NatStr(r) + "/" + NatStr(d)
  }

  function ParseMixed(s: string): Option<MixedNumber> {
    match ParseNatPrefix(s)
    case None => None
    case Some((w, r)) =>
      if r == [] then Some(Whole(w))
      else
        match AfterLiteral(" ", r)
        case None => None
        case Some(r') =>
          match ParseFraction(r')
          case None => None
          case Some((n, d)) => Some(Mixed(w, n, d))
  }

  /** The mixed-number rendering is read back exactly. */
  lemma MixedRoundTrip(m: MixedNumber)
    ensures ParseMixed(MixedStr(m)) == Some(m)
  {
    match m
    case Whole(w) =>
      assert NatStr(w) + [] == NatStr(w);
      NatStrParses(w, []);
    case Mixed(w, r, d) =>
      var tail := NatStr(r) + "/" + NatStr(d);
      assert MixedStr(m) == NatStr(w) + (" " + tail);
      NatStrParses(w, " " + tail);
      assert (" " + tail)[1..] == tail;
      FractionRoundTrip(r, d);
  }

  // ---- 2x2 matrices "[[a,b],[c,d]]" ----

  datatype Matrix2 = Matrix2(a: nat, b: nat, c: nat, d: nat)

  function MatrixStr(m: Matrix2): string {
    "[[" + NatStr(m.a) + "," + NatStr(m.b) + "],[" + NatStr(m.c) + "," + NatStr(m.d) + "]]"
  }

  function ParseMatrix(s: string): Option<Matrix2> {
    match AfterLiteral("[[", s)
    case None => None
    case Some(r0) =>
      match ParseNatThen(r0, ",")
      case None => None
      case Some((a, r1)) =>
        match ParseNatThen(r1, "],[")
        case None => None
        case Some((b, r2)) =>
          match ParseNatThen(r2, ",")
          case None => None
          case Some((c, r3)) =>
            match ParseNatThen(r3, "]]")
            case None => None
            case Some((d, r4)) => if r4 == [] then Some(Matrix2(a, b, c, d)) else None
  }

  /** The matrix rendering is read back exactly. */
  lemma MatrixRoundTrip(m: Matrix2)
    ensures ParseMatrix(MatrixStr(m)) == Some(m)
  {
    var t3 := NatStr(m.d) + "]]";
    var t2 := NatStr(m.c) + "," + t3;
    var t1 := NatStr(m.b) + "],[" + t2;
    var t0 := NatStr(m.a) + "," + t1;
    MatrixStrNested(m);
    assert AfterLiteral("[[", MatrixStr(m)) == Some(t0) by {
      assert ("[[" + t0)[2..] == t0;
    }
    NatThenParses(m.a, ",", t1);
    NatThenParses(m.b, "],[", t2);
    NatThenParses(m.c, ",", t3);
    assert t3 == NatStr(m.d) + "]]" + [];
    NatThenParses(m.d, "]]", []);
  }

  /** MatrixStr regrouped to the right, the way the parser consumes it. */
  lemma MatrixStrNested(m: Matrix2)
    ensures MatrixStr(m)
         == "[[" + (NatStr(m.a) + "," + (NatStr(m.b) + "],[" + (NatStr(m.c) + "," + (NatStr(m.d) + "]]"))))
  {
    var A, B, C, D := NatStr(m.a), NatStr(m.b), NatStr(m.c), NatStr(m.d);
    var t3 := D + "]]";
    var t2 := C + "," + t3;
    var t1 := B + "],[" + t2;
    assert "[[" + A + "," + B + "],[" + C + "," + D + "]]" == "[[" + A + "," + B + "],[" + C + "," + t3;
    assert "[[" + A + "," + B + "],[" + C + "," + t3 == "[[" + A + "," + B + "],[" + t2;
    assert "[[" + A + "," + B + "],[" + t2 == "[[" + A + "," + t1;
  }

  // ---- Python's str.strip() and str.lower() ----

  /** The characters Python's str.isspace() accepts. */
  predicate IsSpace(c: char) {
    var n := c as int;
    (9 <= n <= 13) || (28 <= n <= 32) || n == 0x85 || n == 0xA0 || n == 0x1680
    || (0x2000 <= n <= 0x200A) || n == 0x2028 || n == 0x2029 || n == 0x202F
    || n == 0x205F || n == 0x3000
  }

  function TrimStart(s: string): string
    decreases |s|
  {
    if s != [] && IsSpace(s[0]) then TrimStart(s[1..]) else s
  }

  function TrimEnd(s: string): string
    decreases |s|
  {
    if s != [] && IsSpace(s[|s| - 1]) then TrimEnd(s[..|s| - 1]) else s
  }

  /** str.strip(): drop leading and trailing whitespace. */
  function Trim(s: string): string {
    TrimEnd(TrimStart(s))
  }

  /** No whitespace at either end. */
  predicate Trimmed(s: string) {
    s == [] || (!IsSpace(s[0]) && !IsSpace(s[|s| - 1]))
  }

  lemma {:induction false} TrimStartFacts(s: string)
    ensures s == [] || !IsSpace(s[0]) ==> TrimStart(s) == s
    ensures TrimStart(s) == [] || !IsSpace(TrimStart(s)[0])
    decreases |s|
  {
    if s != [] && IsSpace(s[0]) { TrimStartFacts(s[1..]); }
  }

  /** TrimEnd keeps a prefix, strips trailing space, and leaves a clean end in place. */
  lemma {:induction false} TrimEndFacts(s: string)
    ensures TrimEnd(s) <= s
    ensures TrimEnd(s) == [] || !IsSpace(TrimEnd(s)[|TrimEnd(s)| - 1])
    ensures s == [] || !IsSpace(s[|s| - 1]) ==> TrimEnd(s) == s
    decreases |s|
  {
    if s != [] && IsSpace(s[|s| - 1]) { TrimEndFacts(s[..|s| - 1]); }
  }

  /** Trim leaves no whitespace at either end. */
  lemma TrimIsTrimmed(s: string)
    ensures Trimmed(Trim(s))
  {
    var u := TrimStart(s);
    TrimStartFacts(s);
    TrimEndFacts(u);
    var v := TrimEnd(u);
    if v != [] {
      assert v[0] == u[0];
    }
  }

  /** A string with no whitespace at either end is its own Trim. */
  lemma TrimOfTrimmed(s: string)
    requires Trimmed(s)
    ensures Trim(s) == s
  {
    TrimStartFacts(s);
    TrimEndFacts(s);
  }

  /** Trim is idempotent. */
  lemma TrimIdempotent(s: string)
    ensures Trim(Trim(s)) == Trim(s)
  {
    TrimIsTrimmed(s);
    TrimOfTrimmed(Trim(s));
  }

  /** ASCII part of str.lower(). */
  function LowerChar(c: char): char {
    if 'A' <= c <= 'Z' then (c as int - 'A' as int + 'a' as int) as char else c
  }

  function Lower(s: string): (r: string)
    ensures |r| == |s| && forall i :: 0 <= i < |s| ==> r[i] == LowerChar(s[i])
  {
    seq(|s|, i requires 0 <= i < |s| => LowerChar(s[i]))
  }

  lemma LowerIdempotent(s: string)
    ensures Lower(Lower(s)) == Lower(s)
  {
  }

  /** Lower-casing does not touch whitespace, so it commutes with Trim. */
  lemma {:induction false} TrimStartLower(s: string)
    ensures TrimStart(Lower(s)) == Lower(TrimStart(s))
    decreases |s|
  {
    if s != [] {
      assert Lower(s)[1..] == Lower(s[1..]);
      if IsSpace(s[0]) { TrimStartLower(s[1..]); }
    }
  }

  lemma {:induction false} TrimEndLower(s: string)
    ensures TrimEnd(Lower(s)) == Lower(TrimEnd(s))
    decreases |s|
  {
    if s != [] {
      assert Lower(s)[..|s| - 1] == Lower(s[..|s| - 1]);
      if IsSpace(s[|s| - 1]) { TrimEndLower(s[..|s| - 1]); }
    }
  }

  lemma TrimLower(s: string)
    ensures Trim(Lower(s)) == Lower(Trim(s))
  {
    TrimStartLower(s);
    TrimEndLower(TrimStart(s));
  }
}
