/**
 * Answer checking (app.py record_answer): the expected answer is one of
 * three kinds, and each kind has its own rule. Python's float(given) is the
 * parameter toFloat: a partial parse, None where float() would raise.
 */
module Judging {
  import opened Wrappers
  import opened Strings

  /** The expected answer of a question, by the runtime type the source branches on. */
  datatype AnswerValue =
    | FractionAnswer(fraction: string, decimal: real)  // the {'fraction', 'decimal'} dict
    | NumberAnswer(value: real)                        // an int or a float
    | TextAnswer(text: string)                         // anything else, compared via str()

  const FractionTolerance: real := 0.05
  const NumberTolerance: real := 0.5

  function Abs(x: real): real {
    if x < 0.0 then -x else x
  }

  /** The given answer parses as a number within tol of target. */
  predicate Near(parsed: Option<real>, target: real, tol: real) {
    parsed.Some? && Abs(parsed.value - target) <= tol
  }

  /** The verdict on a submitted answer; total, so no input raises. */
  predicate Judge(expected: AnswerValue, given: string, toFloat: string -> Option<real>) {
    match expected
    case FractionAnswer(f, dec) => Trim(given) == f || Near(toFloat(given), dec, FractionTolerance)
    case NumberAnswer(v) => Near(toFloat(given), v, NumberTolerance)
    case TextAnswer(t) => Lower(Trim(given)) == Lower(Trim(t))
  }

  /** An answer whose comparison form is empty (so that an empty submission could match it). */
  predicate Blank(expected: AnswerValue) {
    match expected
    case FractionAnswer(f, _) => f == ""
    case NumberAnswer(_) => false
    case TextAnswer(t) => Lower(Trim(t)) == ""
  }

  /** The text rule compares canonical forms: for a canonical expected text it is plain equality. */
  predicate Canonical(s: string) {
    Trimmed(s) && Lower(s) == s
  }

  /**
   * Surrounding whitespace never changes a verdict, provided the number parse
   * ignores it too. Python's float() ignores surrounding whitespace except the
   * separators U+001C..U+001F, which strip() removes but float() rejects.
   */
  lemma JudgeIgnoresSurroundingSpace(expected: AnswerValue, given: string, toFloat: string -> Option<real>)
    requires toFloat(Trim(given)) == toFloat(given)
    ensures Judge(expected, Trim(given), toFloat) == Judge(expected, given, toFloat)
  {
    TrimIdempotent(given);
  }

  /** The text rule is case-insensitive: answers equal up to case get the same verdict. */
  lemma TextJudgeIgnoresCase(t: string, g1: string, g2: string, toFloat: string -> Option<real>)
    requires Lower(g1) == Lower(g2)
    ensures Judge(TextAnswer(t), g1, toFloat) == Judge(TextAnswer(t), g2, toFloat)
  {
    TrimLower(g1);
    TrimLower(g2);
    LowerIdempotent(Trim(g1));
    LowerIdempotent(Trim(g2));
  }

  /** Against a canonical expected text, a submission is correct iff its trimmed lower-case form equals it. */
  lemma CanonicalTextJudge(t: string, given: string, toFloat: string -> Option<real>)
    requires Canonical(t)
    ensures Judge(TextAnswer(t), given, toFloat) <==> Lower(Trim(given)) == t
  {
    TrimOfTrimmed(t);
  }

  /** The timer's empty submission is incorrect unless the expected answer is itself blank. */
  lemma EmptyAnswerIncorrect(expected: AnswerValue, toFloat: string -> Option<real>)
    requires toFloat("") == None
    ensures Judge(expected, "", toFloat) <==> Blank(expected)
  {
    assert Trim("") == "";
    assert Lower("") == "";
  }

  /** An integer choice offered for a numeric answer is judged correct exactly when it is the answer. */
  lemma IntegerChoiceJudge(ans: int, c: int, toFloat: string -> Option<real>)
    requires toFloat(IntStr(c)) == Some(c as real)
    ensures Judge(NumberAnswer(ans as real), IntStr(c), toFloat) <==> c == ans
  {
    if c != ans {
      assert c >= ans + 1 || c <= ans - 1;
      assert Abs(c as real - ans as real) >= 1.0;
    }
  }

  /** The number rule accepts exactly the closed interval of radius 0.5 around the expected value. */
  lemma NumberJudgeInterval(v: real, given: string, x: real, toFloat: string -> Option<real>)
    requires toFloat(given) == Some(x)
    ensures Judge(NumberAnswer(v), given, toFloat) <==> v - 0.5 <= x <= v + 0.5
  {
  }

  /** Worked cases: the 0.5 number boundary, both fraction routes, and the text rule. */
  lemma JudgeExamples(toFloat: string -> Option<real>)
    requires toFloat("10.4") == Some(10.4) && toFloat("10.6") == Some(10.6)
    requires toFloat("0.76") == Some(0.76) && toFloat("0.90") == Some(0.9)
    requires toFloat("3/4") == None
    ensures Judge(NumberAnswer(10.0), "10.4", toFloat)
    ensures !Judge(NumberAnswer(10.0), "10.6", toFloat)
    ensures Judge(FractionAnswer("3/4", 0.75), "3/4", toFloat)
    ensures Judge(FractionAnswer("3/4", 0.75), "0.76", toFloat)
    ensures !Judge(FractionAnswer("3/4", 0.75), "0.90", toFloat)
    ensures Judge(TextAnswer("yes"), "YES ", toFloat)
    ensures !Judge(TextAnswer("yes"), "y", toFloat)
  {
    TrimOfTrimmed("3/4");
    TrimOfTrimmed("yes");
    TrimOfTrimmed("y");
    assert "0.90"[0] == '0';
    TrimOfTrimmed("0.90");
    assert TrimStart("YES ") == "YES ";
    assert TrimEnd("YES ") == TrimEnd("YES");
    TrimOfTrimmed("YES");
    assert Lower("YES") == "yes";
    assert Lower("yes") == "yes";
    assert Lower("y") == "y";
  }
}
