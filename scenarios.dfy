/**
 * Whole-level runs of the engine on a fresh session: the flow of main_ui
 * from the first visit through a level of ten answers to the result screen
 * and its buttons.
 */
module Scenarios {
  import opened Wrappers
  import opened Judging
  import opened Engine

  /**
   * A first visit plays level 1 of grade 3 on "12 - 7" questions, answering
   * the first k correctly and the rest with 0, then presses "Go to Next
   * Level" after a pass or "Retry Level" after a failure. The level scores
   * 10*k percent; seven right answers pass and unlock level 2, which is then
   * running; fewer leave the ceiling at 1 and restart level 1 from zero.
   */
  method PlayFirstLevel(k: nat, toFloat: string -> Option<real>)
    returns (result: LevelResult, ceiling: int, restarted: bool, level: int, answered: nat)
    requires k <= 10
    requires toFloat("5") == Some(5.0) && toFloat("0") == Some(0.0)
    ensures result == LevelResult(10, k, 10 * k, k >= 7)
    ensures ceiling == (if k >= 7 then 2 else 1)
    ensures restarted && answered == 0
    ensures level == (if k >= 7 then 2 else 1)
  {
    var s := new Session();
    var q := Question(MathQuestion, Some("subtraction"), "12 - 7 = ?", NumberAnswer(5.0), []);
    var ok := s.Start(q);
    assert Judge(q.answer, "5", toFloat) && !Judge(q.answer, "0", toFloat);
    var i := 0;
    while i < QuestionsPerLevel
      invariant 0 <= i <= QuestionsPerLevel
      invariant s.Valid() && s.grade == 3 && s.currentLevel == 1 && s.started
      invariant s.questionInLevel == i && s.correctInLevel == (if i <= k then i else k)
      invariant i < QuestionsPerLevel ==>
        s.currentQuestion == Some(q) && !s.showResult && s.levelUnlocked == DefaultUnlocked()
      invariant i == QuestionsPerLevel ==>
        s.levelUnlocked == RaiseCeiling(DefaultUnlocked(), 3, 1, s.lastResult.value.passed)
    {
      var given := if i < k then "5" else "0";
      s.Submit(given, toFloat, q);
      i := i + 1;
    }
    result := s.lastResult.value;
    ceiling := s.Unlocked(3);
    if result.passed {
      restarted := s.NextLevel(q);
    } else {
      restarted := s.Retry(q);
    }
    level := s.currentLevel;
    answered := s.questionInLevel;
  }
}
