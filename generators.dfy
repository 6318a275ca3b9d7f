/**
 * The integer and string question generators of app.py, each a function of
 * the values random.randint / random.choice drew for it (the requires clauses
 * are the ranges drawn from), the grade-band topic chooser, and the building
 * and shuffling of the numeric choices of a shape question.
 */
module Generators {
  import opened Wrappers
  import opened Arith
  import opened Strings
  import opened Judging

  /** A generated (question text, expected answer) pair. */
  datatype Generated = Generated(prompt: string, answer: AnswerValue)

  function Min(x: int, y: int): int {
    if x <= y then x else y
  }

  /** gen_subtraction: b is drawn from 1..a, so the answer is never negative. */
  function GenSubtraction(grade: int, a: nat, b: nat): (g: Generated)
    requires 1 <= a <= 10 * grade && 1 <= b <= a
    ensures g.answer.NumberAnswer? && 0.0 <= g.answer.value < (10 * grade) as real
    ensures g.answer.value + b as real == a as real
  {
    Generated(NatStr(a) + " - " + NatStr(b) + " = ?", NumberAnswer((a - b) as real))
  }

  /** gen_division: the dividend shown is b*c, an exact multiple of b, and the answer is the quotient. */
  function GenDivision(grade: int, b: nat, c: nat): (g: Generated)
    requires 1 <= b <= Min(12, grade + 6) && 1 <= c <= 12
    ensures Divides(b, b * c) && g.answer == NumberAnswer(((b * c) / b) as real)
    ensures 1.0 <= g.answer.value <= 12.0
  {
    MultipleOf(b, c);
    Generated(NatStr(b * c) + " ÷ " + NatStr(b) + " = ?", NumberAnswer(c as real))
  }

  /** The three relation symbols the comparison question accepts. */
  const RelationSymbols: set<string> := {">", "<", "="}

  /** Reference meaning of a relation symbol between a and b. */
  predicate Holds(sym: string, a: int, b: int) {
    (sym == ">" && a > b) || (sym == "<" && a < b) || (sym == "=" && a == b)
  }

  /** The symbol gen_comparison expects: the one relation symbol that holds. */
  function RelationSymbol(a: int, b: int): (s: string)
    ensures s in RelationSymbols && Canonical(s)
    ensures forall t :: t in RelationSymbols ==> (Holds(t, a, b) <==> t == s)
  {
    var s := if a > b then ">" else if a < b then "<" else "=";
    assert Trimmed(s) && Lower(s) == s;
    s
  }

  function GenComparison(a: nat, b: nat): (g: Generated)
    requires a <= 20 && b <= 20
    ensures g.answer.TextAnswer? && Holds(g.answer.text, a, b)
  {
    Generated("Which is greater: " + NatStr(a) + " or " + NatStr(b) + "? Write '>' or '<' or '='.",
              TextAnswer(RelationSymbol(a, b)))
  }

  /** A fraction num/den reduced by gcd: lowest terms, and the same rational value. */
  function Simplify(num: nat, den: nat): (r: (nat, nat))
    requires num > 0 && den > 0
    ensures r.0 > 0 && r.1 > 0 && Gcd(r.0, r.1) == 1
    ensures r.0 * den == num * r.1
  {
    GcdDivides(num, den);
    CoprimeQuotients(num, den);
    var g := Gcd(num, den);
    DividesSplit(g, num);
    DividesSplit(g, den);
    assert (num / g) * den == (num / g) * (g * (den / g)) == (g * (num / g)) * (den / g);
    (num / g, den / g)
  }

  /** round(num/den, 3) for den <= 8: the nearest multiple of 0.001 (no ties arise). */
  function Round3(num: nat, den: nat): (r: real)
    requires 0 < den <= 8
    ensures (r * 1000.0).Floor as real == r * 1000.0
    ensures Abs(r - (num as real) / (den as real)) <= 0.0005
  {
    var q := (2000 * num + den) / (2 * den);
    assert 2 * den * q <= 2000 * num + den < 2 * den * q + 2 * den;
    RoundingError(num as real, den as real, q as real);
    q as real / 1000.0
  }

  lemma RoundingError(n: real, d: real, q: real)
    requires d > 0.0 && 2.0 * d * q <= 2000.0 * n + d < 2.0 * d * q + 2.0 * d
    ensures Abs(q / 1000.0 - n / d) <= 0.0005
  {
    var e := q / 1000.0 - n / d;
    assert e * (1000.0 * d) == q * d - 1000.0 * n;
    assert -d <= 2.0 * (q * d - 1000.0 * n) <= d;
  }

  /** gen_fractions_add: the answer record holds the reduced sum a/d + b/d and its 3-place decimal. */
  function GenFractionsAdd(d: nat, a: nat, b: nat): (g: Generated)
    requires 2 <= d <= 8 && 1 <= a <= d - 1 && 1 <= b <= d - 1
    ensures g.answer.FractionAnswer?
    ensures ParseFraction(g.answer.fraction) == Some(Simplify(a + b, d))
    ensures (g.answer.decimal * 1000.0).Floor as real == g.answer.decimal * 1000.0
    ensures Abs(g.answer.decimal - ((a + b) as real) / (d as real)) <= 0.0005
  {
    var (sn, sd) := Simplify(a + b, d);
    FractionRoundTrip(sn, sd);
    Generated(NatStr(a) + "/" + NatStr(d) + " + " + NatStr(b) + "/" + NatStr(d)
              + " = ? (answer as fraction or decimal)",
              FractionAnswer(FractionStr(sn, sd), Round3(a + b, d)))
  }

  /**
   * The generated fraction question accepts its own fraction string, and any
   * number within 0.049 of the exact sum (in particular the exact value).
   */
  lemma FractionQuestionAccepts(d: nat, a: nat, b: nat, given: string, toFloat: string -> Option<real>)
    requires 2 <= d <= 8 && 1 <= a <= d - 1 && 1 <= b <= d - 1
    requires given == GenFractionsAdd(d, a, b).answer.fraction
          || Near(toFloat(given), ((a + b) as real) / (d as real), 0.049)
    ensures Judge(GenFractionsAdd(d, a, b).answer, given, toFloat)
  {
    var ans := GenFractionsAdd(d, a, b).answer;
    var (sn, sd) := Simplify(a + b, d);
    if given == ans.fraction {
      assert ans.fraction == FractionStr(sn, sd);
      FractionStrTrimmed(sn, sd);
      TrimOfTrimmed(ans.fraction);
    } else {
      Triangle(toFloat(given).value, ((a + b) as real) / (d as real), ans.decimal);
    }
  }

  lemma Triangle(x: real, v: real, dec: real)
    requires Abs(x - v) <= 0.049 && Abs(dec - v) <= 0.0005
    ensures Abs(x - dec) <= FractionTolerance
  {
  }

  /** The mixed-number form of num/den: whole*den + rem == num with 0 <= rem < den. */
  function MixedOf(num: nat, den: nat): (m: MixedNumber)
    requires den > 0
    ensures m.Whole? ==> m.whole * den == num
    ensures m.Mixed? ==> m.den == den && 0 < m.rem < den && m.whole * den + m.rem == num
  {
    var whole, rem := num / den, num % den;
    if rem == 0 then Whole(whole) else Mixed(whole, rem, den)
  }

  /** gen_fraction_improper_to_mixed: the answer text reads back as the mixed form of num/den. */
  function GenImproperToMixed(num: nat, den: nat): (g: Generated)
    requires 5 <= num <= 20 && 2 <= den <= 8
    ensures g.answer.TextAnswer? && ParseMixed(g.answer.text) == Some(MixedOf(num, den))
  {
    MixedRoundTrip(MixedOf(num, den));
    Generated("Write " + NatStr(num) + "/" + NatStr(den) + " as mixed number.",
              TextAnswer(MixedStr(MixedOf(num, den))))
  }

  /** gen_lcm: the answer is a positive common multiple of a and b (least by Arith.LcmLeast). */
  function GenLcm(a: nat, b: nat): (g: Generated)
    requires 2 <= a <= 20 && 2 <= b <= 20
    ensures g.answer.NumberAnswer?
    ensures exists l :: l > 0 && g.answer.value == l as real && Divides(a, l) && Divides(b, l)
  {
    var l := Lcm(a, b);
    Generated("Find LCM of " + NatStr(a) + " and " + NatStr(b), NumberAnswer(l as real))
  }

  /** gen_hcf: the answer is math.gcd(a, b), a common divisor (greatest by Arith.GcdGreatest). */
  function GenHcf(a: nat, b: nat): (g: Generated)
    requires 2 <= a <= 50 && 2 <= b <= 50
    ensures g.answer.NumberAnswer?
    ensures exists h :: g.answer.value == h as real && Divides(h, a) && Divides(h, b)
  {
    GcdDivides(a, b);
    var h := Gcd(a, b);
    Generated("Find HCF (GCD) of " + NatStr(a) + " and " + NatStr(b), NumberAnswer(h as real))
  }

  /** The gen_lcm answer is the least positive common multiple (it is a*b/gcd(a, b) by Arith.LcmTimesGcd). */
  lemma GenLcmIsLeast(a: nat, b: nat, m: int)
    requires 2 <= a <= 20 && 2 <= b <= 20
    requires m > 0 && Divides(a, m) && Divides(b, m)
    ensures GenLcm(a, b).answer.value <= m as real
  {
    LcmValue(a, b);
    LcmLeast(a, b, m);
  }

  lemma LcmValue(a: nat, b: nat)
    requires 2 <= a <= 20 && 2 <= b <= 20
    ensures GenLcm(a, b).answer.value == Lcm(a, b) as real
  {
  }

  /** The gen_hcf answer is the greatest common divisor. */
  lemma GenHcfIsGreatest(a: nat, b: nat, h: int)
    requires 2 <= a <= 50 && 2 <= b <= 50
    requires Divides(h, a) && Divides(h, b)
    ensures h as real <= GenHcf(a, b).answer.value
  {
    GcdDivides(a, b);
    GcdGreatest(a, b, h);
    var g := Gcd(a, b);
    DividesSplit(h, g);
    PositiveCofactor(h, g / h, g);
  }

  /** gen_function_eval: f(x) = a*x + b evaluated at x; the answer lies in 1..60. */
  function GenFunctionEval(a: nat, b: nat, x: nat): (g: Generated)
    requires 1 <= a <= 5 && b <= 10 && 1 <= x <= 10
    ensures g.answer.NumberAnswer? && 1.0 <= g.answer.value <= 60.0
    ensures ParseFunctionEval(g.prompt) == Some((a, b, x)) && AnswersShownFunction(g)
  {
    AffineRange(a, b, x);
    var g := Generated(FunctionEvalPrompt(a, b, x), NumberAnswer(Affine(a, b, x) as real));
    ShownFunction(g, a, b, x);
    g
  }

  lemma AffineRange(a: nat, b: nat, x: nat)
    requires 1 <= a <= 5 && b <= 10 && 1 <= x <= 10
    ensures 1 <= Affine(a, b, x) <= 60
  {
    assert a * x <= 5 * 10 by { assert a * x <= 5 * x; }
  }

  lemma ShownFunction(g: Generated, a: nat, b: nat, x: nat)
    requires g.prompt == FunctionEvalPrompt(a, b, x) && g.answer == NumberAnswer(Affine(a, b, x) as real)
    ensures ParseFunctionEval(g.prompt) == Some((a, b, x)) && AnswersShownFunction(g)
  {
    FunctionEvalPromptReadBack(a, b, x);
  }

  /** The expected answer is f(x) for the f and x that the prompt shows. */
  predicate AnswersShownFunction(g: Generated) {
    var shown := ParseFunctionEval(g.prompt);
    shown.Some? && g.answer == NumberAnswer(Affine(shown.value.0, shown.value.1, shown.value.2) as real)
  }

  /** f(x) = a*x + b. */
  function Affine(a: nat, b: nat, x: nat): nat {
    a * x + b
  }

  function FunctionEvalPrompt(a: nat, b: nat, x: nat): string {
    "Given f(x) = " + NatStr(a) + "x + " + NatStr(b) + ". Find f(" + NatStr(x) + ")."
  }

  /** Reads the slope, intercept and point back out of a function-evaluation prompt. */
  function ParseFunctionEval(s: string): Option<(nat, nat, nat)> {
    match AfterLiteral("Given f(x) = ", s)
    case None => None
    case Some(r0) =>
      match ParseNatThen(r0, "x + ")
      case None => None
      case Some((a, r1)) =>
        match ParseNatThen(r1, ". Find f(")
        case None => None
        case Some((b, r2)) =>
          match ParseNatThen(r2, ").")
          case None => None
          case Some((x, r3)) => if r3 == [] then Some((a, b, x)) else None
  }

  /** The prompt shows f and the point it is evaluated at: they read back exactly. */
  lemma FunctionEvalPromptReadBack(a: nat, b: nat, x: nat)
    ensures ParseFunctionEval(FunctionEvalPrompt(a, b, x)) == Some((a, b, x))
  {
    var A, B, X := NatStr(a), NatStr(b), NatStr(x);
    var t2 := X + ").";
    var t1 := B + ". Find f(" + t2;
    var t0 := A + "x + " + t1;
    assert FunctionEvalPrompt(a, b, x) == "Given f(x) = " + t0 by {
      assert "Given f(x) = " + A + "x + " + B + ". Find f(" + X + ")."
          == "Given f(x) = " + A + "x + " + B + ". Find f(" + t2;
      assert "Given f(x) = " + A + "x + " + B + ". Find f(" + t2 == "Given f(x) = " + A + "x + " + t1;
    }
    assert AfterLiteral("Given f(x) = ", "Given f(x) = " + t0) == Some(t0) by {
      assert ("Given f(x) = " + t0)[|"Given f(x) = "|..] == t0;
    }
    NatThenParses(a, "x + ", t1);
    NatThenParses(b, ". Find f(", t2);
    assert t2 == X + ")." + [];
    NatThenParses(x, ").", []);
  }

  /** Entrywise sum of two 2x2 matrices. */
  function MatrixAdd(m: Matrix2, n: Matrix2): Matrix2 {
    Matrix2(m.a + n.a, m.b + n.b, m.c + n.c, m.d + n.d)
  }

  /** gen_matrix_add: the answer text reads back as the entrywise sum, each entry at most 10. */
  function GenMatrixAdd(m: Matrix2, n: Matrix2): (g: Generated)
    requires m.a <= 5 && m.b <= 5 && m.c <= 5 && m.d <= 5
    requires n.a <= 5 && n.b <= 5 && n.c <= 5 && n.d <= 5
    ensures g.answer.TextAnswer? && ParseMatrix(g.answer.text) == Some(MatrixAdd(m, n))
  {
    var sum := MatrixAdd(m, n);
    MatrixRoundTrip(sum);
    Generated(MatrixPrompt(m, n), TextAnswer(MatrixStr(sum)))
  }

  function MatrixPrompt(m: Matrix2, n: Matrix2): string {
    "Add matrices " + MatrixStr(m) + " + " + MatrixStr(n) + ". Write result as [[x,y],[z,w]]."
  }

  // ---- choose_topic ----

  const BasicTopics: seq<string> :=
    ["addition", "subtraction", "multiplication", "division", "comparison", "story"]
  const MiddleTopics: seq<string> :=
    ["fractions_add", "fraction_mixed", "lcm", "hcf", "percentage", "profit", "area", "perimeter", "mul_basic"]
  const UpperTopics: seq<string> :=
    ["function", "sets", "trig", "slope", "fraction_mixed", "matrix"]

  /** The topics random.choice picks from for a grade. */
  function TopicPool(grade: int): seq<string> {
    if grade <= 4 then BasicTopics else if grade <= 8 then MiddleTopics else UpperTopics
  }

  /** choose_topic, as a function of the index random.choice drew. */
  function ChooseTopic(grade: int, k: nat): (t: string)
    requires k < |TopicPool(grade)|
    ensures grade <= 4 ==> t in BasicTopics
    ensures 5 <= grade <= 8 ==> t in MiddleTopics
    ensures grade >= 9 ==> t in UpperTopics
  {
    TopicPool(grade)[k]
  }

  /** Grade bands: no fraction work below grade 5, matrices only from grade 9, and every pool topic is drawable. */
  lemma TopicBands(grade: int, t: string)
    ensures t in TopicPool(grade) <==> exists k :: 0 <= k < |TopicPool(grade)| && ChooseTopic(grade, k) == t
    ensures grade <= 4 ==> "fraction_mixed" !in TopicPool(grade) && "fractions_add" !in TopicPool(grade)
    ensures "matrix" in TopicPool(grade) <==> grade >= 9
    ensures "fraction_mixed" in TopicPool(grade) <==> grade >= 5
  {
    if t in TopicPool(grade) {
      var k :| 0 <= k < |TopicPool(grade)| && TopicPool(grade)[k] == t;
      assert ChooseTopic(grade, k) == t;
    }
    assert BasicTopics[0] == "addition";
    if grade <= 4 {
      assert forall i :: 0 <= i < |BasicTopics| ==> BasicTopics[i] != "matrix" && BasicTopics[i] != "fraction_mixed";
    } else if grade <= 8 {
      assert MiddleTopics[1] == "fraction_mixed";
      assert forall i :: 0 <= i < |MiddleTopics| ==> MiddleTopics[i] != "matrix";
    } else {
      assert UpperTopics[4] == "fraction_mixed" && UpperTopics[5] == "matrix";
    }
  }

  // ---- choices of a numeric shape question ----

  function Dist(x: int, y: int): nat {
    if x >= y then x - y else y - x
  }

  /**
   * The choices loop of gen_shape_question: the answer first, then three
   * wrong values ans + sign*offset, with sign drawn from {-1, 1} and offset
   * from 1..delta+3. delta stands for max(1, int(abs(ans)*0.15) or 1).
   */
  method BuildChoices(ans: int, delta: nat, signs: seq<int>, offsets: seq<nat>) returns (choices: seq<int>)
    requires delta >= 1 && |signs| == 3 && |offsets| == 3
    requires forall i :: 0 <= i < 3 ==> (signs[i] == -1 || signs[i] == 1) && 1 <= offsets[i] <= delta + 3
    ensures |choices| == 4 && choices[0] == ans
    ensures forall i :: 1 <= i < 4 ==> choices[i] == ans + signs[i - 1] * offsets[i - 1]
    ensures forall i :: 1 <= i < 4 ==> 1 <= Dist(choices[i], ans) <= delta + 3
  {
    choices := [ans];
    var n := 0;
    while n < 3
      invariant 0 <= n <= 3 && |choices| == n + 1 && choices[0] == ans
      invariant forall i :: 1 <= i <= n ==> choices[i] == ans + signs[i - 1] * offsets[i - 1]
    {
      var wrong := ans + signs[n] * offsets[n];
      choices := choices + [wrong];
      n := n + 1;
    }
  }

  /**
   * random.shuffle (the Fisher-Yates pass CPython runs): for i from |s|-1
   * down to 1 it swaps position i with a drawn j in 0..i. draws[k] is the j
   * drawn for i = |s|-1-k.
   */
  method Shuffle(s: seq<int>, draws: seq<nat>) returns (r: seq<int>)
    requires |draws| == if |s| == 0 then 0 else |s| - 1
    requires forall k :: 0 <= k < |draws| ==> draws[k] <= |s| - 1 - k
    ensures |r| == |s| && multiset(r) == multiset(s)
  {
    r := s;
    var k := 0;
    while k < |draws|
      invariant 0 <= k <= |draws| && |r| == |s| && multiset(r) == multiset(s)
    {
      var i, j := |s| - 1 - k, draws[k];
      var ri, rj := r[i], r[j];
      r := r[i := rj][j := ri];
      k := k + 1;
    }
  }

  /**
   * The shape question's choice list: four entries, the answer exactly once,
   * every other entry between 1 and delta+3 away from it.
   */
  method ShapeChoices(ans: int, delta: nat, signs: seq<int>, offsets: seq<nat>, draws: seq<nat>)
    returns (choices: seq<int>)
    requires delta >= 1 && |signs| == 3 && |offsets| == 3
    requires forall i :: 0 <= i < 3 ==> (signs[i] == -1 || signs[i] == 1) && 1 <= offsets[i] <= delta + 3
    requires |draws| == 3 && forall k :: 0 <= k < 3 ==> draws[k] <= 3 - k
    ensures |choices| == 4 && multiset(choices)[ans] == 1
    ensures forall c :: c in choices ==> c == ans || 1 <= Dist(c, ans) <= delta + 3
  {
    var built := BuildChoices(ans, delta, signs, offsets);
    assert built == [ans, built[1], built[2], built[3]];
    assert multiset(built) == multiset{ans} + multiset{built[1], built[2], built[3]};
    choices := Shuffle(built, draws);
    forall c | c in choices ensures c == ans || 1 <= Dist(c, ans) <= delta + 3 {
      assert c in multiset(built);
    }
  }

  /** Exactly one offered choice is judged correct against the shape question's answer. */
  lemma OneChoiceCorrect(ans: int, delta: nat, choices: seq<int>, toFloat: string -> Option<real>)
    requires multiset(choices)[ans] == 1
    requires forall c :: c in choices ==> c == ans || 1 <= Dist(c, ans) <= delta + 3
    requires forall c :: c in choices ==> toFloat(IntStr(c)) == Some(c as real)
    ensures exists i :: 0 <= i < |choices| && choices[i] == ans
    ensures forall i :: 0 <= i < |choices| ==>
              (Judge(NumberAnswer(ans as real), IntStr(choices[i]), toFloat) <==> choices[i] == ans)
  {
    assert ans in multiset(choices);
    forall i | 0 <= i < |choices|
      ensures Judge(NumberAnswer(ans as real), IntStr(choices[i]), toFloat) <==> choices[i] == ans
    {
      IntegerChoiceJudge(ans, choices[i], toFloat);
    }
  }
}
