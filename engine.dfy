/**
 * The level engine of app.py. The ambient st.session_state dictionary is the
 * object of class Session; start_level, next_question and record_answer, and
 * the level-flow buttons of main_ui (choose, retry, next level), are its
 * methods. A new question from the question provider (which draws random
 * numbers) is a parameter, as is Python's float() on answers.
 */
module Engine {
  import opened Wrappers
  import opened Judging

  const LevelsPerGrade: int := 20
  const QuestionsPerLevel: int := 10
  const PassPercent: int := 70
  /** Seconds per question by default (only the UI timer reads it). */
  const DefaultTimeLimit: int := 45

  datatype Mode = MathQuiz | ShapeChallenge
  datatype QuestionKind = MathQuestion | ShapeQuestion

  /**
   * A question dict: 'type', 'topic' (absent on shape questions), 'question',
   * 'answer', and the numeric 'choices' of a shape question.
   */
  datatype Question = Question(kind: QuestionKind, topic: Option<string>, prompt: string,
                               answer: AnswerValue, choices: seq<int>)

  /** One history entry {'q', 'given', 'correct'}. */
  datatype HistoryEntry = HistoryEntry(prompt: string, given: string, correct: bool)

  /** The last_result dict stored per level. */
  datatype LevelResult = LevelResult(total: nat, correct: nat, percent: nat, passed: bool)

  function GetOr<K, V>(m: map<K, V>, k: K, default: V): V {
    if k in m then m[k] else default
  }

  function Max(x: int, y: int): int {
    if x >= y then x else y
  }

  /**
   * The level verdict: percent is the floor of correct*100/total (0 for an
   * empty level), and a level passes at 70 percent.
   */
  function Evaluate(correct: nat, total: nat): (r: LevelResult)
    ensures r.total == total && r.correct == correct
    ensures total == 0 ==> r.percent == 0
    ensures total > 0 ==> r.percent * total <= correct * 100 < (r.percent + 1) * total
    ensures correct <= total ==> r.percent <= 100
    ensures r.passed <==> r.percent >= PassPercent
    ensures total > 0 ==> (r.passed <==> 10 * correct >= 7 * total)
  {
    if total > 0 then
      PercentFacts(correct, total);
      var percent := correct * 100 / total;
      LevelResult(total, correct, percent, percent >= PassPercent)
    else
      LevelResult(total, correct, 0, false)
  }

  /** The floor quotient p = correct*100/total, its bound, and the pass threshold in its terms. */
  lemma PercentFacts(correct: nat, total: nat)
    requires total > 0
    ensures var p := correct * 100 / total;
      && p * total <= correct * 100 < (p + 1) * total
      && (correct <= total ==> p <= 100)
      && (p >= 70 <==> 10 * correct >= 7 * total)
  {
    var p := correct * 100 / total;
    FloorDivision(correct * 100, total, p);
    PassThreshold(correct, total, p);
    if correct <= total && p > 100 {
      MulMono(101, p, total);
    }
  }

  lemma FloorDivision(n: nat, t: nat, p: nat)
    requires t > 0 && p == n / t
    ensures p * t <= n < (p + 1) * t
  {
  }

  lemma PassThreshold(correct: nat, total: nat, p: nat)
    requires total > 0 && p * total <= correct * 100 < (p + 1) * total
    ensures p >= 70 <==> 10 * correct >= 7 * total
  {
    if p >= 70 {
      MulMono(70, p, total);
    } else {
      MulMono(p + 1, 70, total);
    }
  }

  lemma MulMono(a: int, b: int, t: nat)
    requires a <= b
    ensures a * t <= b * t
  {
    assert b * t - a * t == (b - a) * t;
  }

  /** A question's topic counts as present when it is a non-empty string. */
  predicate HasTopic(topic: Option<string>) {
    topic.Some? && topic.value != ""
  }

  /** weak_topics after an answer: one more miss on the question's topic, nothing else touched. */
  function NoteWeakTopic(weak: map<string, nat>, topic: Option<string>, correct: bool): (r: map<string, nat>)
    ensures correct || !HasTopic(topic) ==> r == weak
    ensures !correct && HasTopic(topic) ==>
      r.Keys == weak.Keys + {topic.value} && r[topic.value] == GetOr(weak, topic.value, 0) + 1
    ensures forall t :: t in weak && !(HasTopic(topic) && t == topic.value) ==> t in r && r[t] == weak[t]
  {
    if !correct && HasTopic(topic) then weak[topic.value := GetOr(weak, topic.value, 0) + 1] else weak
  }

  /** level_progress.setdefault(grade, {})[level] = result. */
  function RecordResult(progress: map<int, map<int, LevelResult>>, grade: int, level: int, result: LevelResult)
    : (r: map<int, map<int, LevelResult>>)
    ensures r.Keys == progress.Keys + {grade}
    ensures r[grade].Keys == GetOr(progress, grade, map[]).Keys + {level} && r[grade][level] == result
    ensures forall l :: l in GetOr(progress, grade, map[]) && l != level ==> r[grade][l] == progress[grade][l]
    ensures forall g :: g in progress && g != grade ==> r[g] == progress[g]
  {
    progress[grade := GetOr(progress, grade, map[])[level := result]]
  }

  /**
   * level_unlocked after a level: raised to max(ceiling, level+1) only on a
   * pass below the last level, otherwise untouched; never lowered.
   */
  function RaiseCeiling(unlocked: map<int, int>, grade: int, level: int, passed: bool): (r: map<int, int>)
    ensures !passed || level >= LevelsPerGrade ==> r == unlocked
    ensures passed && level < LevelsPerGrade ==>
      GetOr(r, grade, 1) == Max(GetOr(unlocked, grade, 1), level + 1) && GetOr(r, grade, 1) > level
    ensures forall g :: GetOr(r, g, 1) >= GetOr(unlocked, g, 1)
    ensures forall g :: g != grade ==> GetOr(r, g, 1) == GetOr(unlocked, g, 1)
  {
    if passed && level < LevelsPerGrade then
      unlocked[grade := Max(GetOr(unlocked, grade, 1), level + 1)]
    else unlocked
  }

  /** Every recorded ceiling is a playable level number. */
  predicate CeilingsInRange(unlocked: map<int, int>) {
    forall g :: g in unlocked ==> 1 <= unlocked[g] <= LevelsPerGrade
  }

  /** Raising keeps ceilings within 1..20 when the level played is a valid one. */
  lemma RaiseCeilingInRange(unlocked: map<int, int>, grade: int, level: int, passed: bool)
    requires CeilingsInRange(unlocked) && 1 <= level
    ensures CeilingsInRange(RaiseCeiling(unlocked, grade, level, passed))
  {
  }

  /** level_unlocked default: every grade 2..10 starts at level 1. */
  function DefaultUnlocked(): map<int, int> {
    map[2 := 1, 3 := 1, 4 := 1, 5 := 1, 6 := 1, 7 := 1, 8 := 1, 9 := 1, 10 := 1]
  }

  /** level_progress default: an empty record for every grade 2..10. */
  function DefaultProgress(): map<int, map<int, LevelResult>> {
    map[2 := map[], 3 := map[], 4 := map[], 5 := map[], 6 := map[], 7 := map[], 8 := map[], 9 := map[],
        10 := map[]]
  }

  /**
   * The loop of init_session_state: every default whose key is missing is
   * added; keys already present keep their values. That is the map union
   * with the existing entries taking precedence.
   */
  method FillDefaults<K, V>(state: map<K, V>, defaults: map<K, V>) returns (filled: map<K, V>)
    ensures filled == defaults + state
  {
    filled := state;
    var todo := defaults.Keys;
    while todo != {}
      invariant todo <= defaults.Keys
      invariant filled == (map k | k in defaults.Keys - todo :: defaults[k]) + state
      decreases todo
    {
      var k :| k in todo;
      if k !in filled {
        filled := filled[k := defaults[k]];
      }
      todo := todo - {k};
    }
    assert defaults.Keys - todo == defaults.Keys;
  }

  class Session {
    var playerName: string
    var grade: int
    var mode: Mode
    var currentLevel: int
    var levelUnlocked: map<int, int>
    var levelProgress: map<int, map<int, LevelResult>>
    var questionInLevel: nat
    var correctInLevel: nat
    var currentQuestion: Option<Question>
    var timeLimit: int
    var score: nat
    var history: seq<HistoryEntry>
    var weakTopics: map<string, nat>
    var showResult: bool
    var lastResult: Option<LevelResult>
    var started: bool

    /**
     * The level counters stay within 0 <= correct <= answered <= 10, the
     * result screen is up exactly when 10 questions are answered, and then
     * shows the verdict on those counters; ceilings stay within 1..20.
     */
    ghost predicate Valid()
      reads this
    {
      && correctInLevel <= questionInLevel <= QuestionsPerLevel
      && (showResult <==> questionInLevel == QuestionsPerLevel)
      && lastResult == (if showResult then Some(Evaluate(correctInLevel, questionInLevel)) else None)
      && 1 <= currentLevel <= LevelsPerGrade
      && CeilingsInRange(levelUnlocked)
    }

    /** level_unlocked.get(g, 1). */
    function Unlocked(g: int): int
      reads this
    {
      GetOr(levelUnlocked, g, 1)
    }

    /** The input widgets are on screen: a level is running and a question awaits its answer. */
    predicate AwaitingAnswer()
      reads this
    {
      started && !showResult && currentQuestion.Some?
    }

    /** The per-level state right after start_level. */
    predicate LevelReset(first: Question)
      reads this
    {
      && questionInLevel == 0 && correctInLevel == 0 && history == []
      && !showResult && lastResult == None && started && currentQuestion == Some(first)
    }

    /** Everything outside the per-level state is as before (current_level aside). */
    twostate predicate ProgressKept()
      reads this
    {
      && playerName == old(playerName) && grade == old(grade) && mode == old(mode)
      && levelUnlocked == old(levelUnlocked) && levelProgress == old(levelProgress)
      && timeLimit == old(timeLimit) && score == old(score) && weakTopics == old(weakTopics)
    }

    /** The per-level state is as before. */
    twostate predicate LevelKept()
      reads this
    {
      && questionInLevel == old(questionInLevel) && correctInLevel == old(correctInLevel)
      && currentQuestion == old(currentQuestion) && history == old(history)
      && showResult == old(showResult) && lastResult == old(lastResult) && started == old(started)
    }

    /**
     * The session of a first visit: init_session_state with no key present
     * yet. FillDefaults on an empty state returns the defaults themselves
     * (defaults + map[] == defaults), so each field holds its default value.
     */
    constructor ()
      ensures Valid()
      ensures playerName == "Player" && grade == 3 && mode == MathQuiz && currentLevel == 1
      ensures levelUnlocked == DefaultUnlocked() && levelProgress == DefaultProgress()
      ensures questionInLevel == 0 && correctInLevel == 0 && currentQuestion == None
      ensures timeLimit == DefaultTimeLimit && score == 0 && history == [] && weakTopics == map[]
      ensures !showResult && lastResult == None && !started
    {
      playerName := "Player";
      grade := 3;
      mode := MathQuiz;
      currentLevel := 1;
      levelUnlocked := DefaultUnlocked();
      levelProgress := DefaultProgress();
      questionInLevel := 0;
      correctInLevel := 0;
      currentQuestion := None;
      timeLimit := DefaultTimeLimit;
      score := 0;
      history := [];
      weakTopics := map[];
      showResult := false;
      lastResult := None;
      started := false;
    }

    /** next_question: store the question the provider generated for grade and mode. */
    method NextQuestion(q: Question)
      modifies this
      ensures currentQuestion == Some(q)
      ensures ProgressKept() && currentLevel == old(currentLevel)
      ensures questionInLevel == old(questionInLevel) && correctInLevel == old(correctInLevel)
      ensures history == old(history) && showResult == old(showResult)
      ensures lastResult == old(lastResult) && started == old(started)
    {
      currentQuestion := Some(q);
    }

    /**
     * start_level(grade, current_level): refused, with nothing changed, above
     * the grade's ceiling; otherwise the level counters, history and result
     * are reset and the first question is issued.
     */
    method Start(first: Question) returns (ok: bool)
      requires Valid()
      modifies this
      ensures Valid()
      ensures ok <==> old(currentLevel) <= old(Unlocked(grade))
      ensures !ok ==> unchanged(this)
      ensures ok ==> LevelReset(first) && ProgressKept() && currentLevel == old(currentLevel)
    {
      var unlocked := Unlocked(grade);
      if currentLevel > unlocked {
        return false;
      }
      questionInLevel, correctInLevel, history := 0, 0, [];
      showResult, lastResult, started := false, None, true;
      NextQuestion(first);
      ok := true;
    }

    /** What record_answer does with a submission to question q. */
    twostate predicate Submitted(q: Question, given: string, toFloat: string -> Option<real>, next: Question)
      reads this
    {
      var ok := Judge(q.answer, given, toFloat);
      && questionInLevel == old(questionInLevel) + 1
      && correctInLevel == old(correctInLevel) + (if ok then 1 else 0)
      && score == old(score) + (if ok then 10 else 0)
      && weakTopics == NoteWeakTopic(old(weakTopics), q.topic, ok)
      && history == old(history) + [HistoryEntry(q.prompt, given, ok)]
      && playerName == old(playerName) && grade == old(grade) && mode == old(mode)
      && currentLevel == old(currentLevel) && timeLimit == old(timeLimit) && started == old(started)
      && if questionInLevel == QuestionsPerLevel then
           && showResult
           && lastResult == Some(Evaluate(correctInLevel, questionInLevel))
           && levelProgress == RecordResult(old(levelProgress), grade, currentLevel, lastResult.value)
           && levelUnlocked == RaiseCeiling(old(levelUnlocked), grade, currentLevel, lastResult.value.passed)
           && currentQuestion == old(currentQuestion)
         else
           && !showResult && lastResult == None
           && levelProgress == old(levelProgress) && levelUnlocked == old(levelUnlocked)
           && currentQuestion == Some(next)
    }

    /**
     * record_answer(given): judge the answer against the current question,
     * count it, and on the tenth answer store the level result and raise the
     * ceiling; otherwise issue the next question.
     */
    method Submit(given: string, toFloat: string -> Option<real>, next: Question)
      requires Valid() && AwaitingAnswer()
      modifies this
      ensures Valid()
      ensures Submitted(old(currentQuestion.value), given, toFloat, next)
    {
      var q := currentQuestion.value;
      var ok := Judge(q.answer, given, toFloat);
      Count(q, given, ok);
      if questionInLevel >= QuestionsPerLevel {
        CloseLevel();
      } else {
        NextQuestion(next);
      }
    }

    /** The counting half of record_answer: counters, score, weak topics and history. */
    method Count(q: Question, given: string, ok: bool)
      requires questionInLevel < QuestionsPerLevel
      modifies this
      ensures questionInLevel == old(questionInLevel) + 1
      ensures correctInLevel == old(correctInLevel) + (if ok then 1 else 0)
      ensures score == old(score) + (if ok then 10 else 0)
      ensures weakTopics == NoteWeakTopic(old(weakTopics), q.topic, ok)
      ensures history == old(history) + [HistoryEntry(q.prompt, given, ok)]
      ensures playerName == old(playerName) && grade == old(grade) && mode == old(mode)
      ensures currentLevel == old(currentLevel) && timeLimit == old(timeLimit) && started == old(started)
      ensures levelUnlocked == old(levelUnlocked) && levelProgress == old(levelProgress)
      ensures showResult == old(showResult) && lastResult == old(lastResult)
      ensures currentQuestion == old(currentQuestion)
    {
      questionInLevel := questionInLevel + 1;
      if ok {
        correctInLevel := correctInLevel + 1;
        score := score + 10;
      }
      if !ok && HasTopic(q.topic) {
        var t := q.topic.value;
        weakTopics := weakTopics[t := GetOr(weakTopics, t, 0) + 1];
      }
      history := history + [HistoryEntry(q.prompt, given, ok)];
    }

    /** The end-of-level half of record_answer: store the result and raise the ceiling. */
    method CloseLevel()
      requires 1 <= currentLevel && CeilingsInRange(levelUnlocked)
      modifies this
      ensures showResult && lastResult == Some(Evaluate(correctInLevel, questionInLevel))
      ensures levelProgress == RecordResult(old(levelProgress), grade, currentLevel, lastResult.value)
      ensures levelUnlocked == RaiseCeiling(old(levelUnlocked), grade, currentLevel, lastResult.value.passed)
      ensures CeilingsInRange(levelUnlocked)
      ensures playerName == old(playerName) && grade == old(grade) && mode == old(mode)
      ensures currentLevel == old(currentLevel) && timeLimit == old(timeLimit) && started == old(started)
      ensures score == old(score) && weakTopics == old(weakTopics) && history == old(history)
      ensures questionInLevel == old(questionInLevel) && correctInLevel == old(correctInLevel)
      ensures currentQuestion == old(currentQuestion)
    {
      var result := Evaluate(correctInLevel, questionInLevel);
      lastResult := Some(result);
      var forGrade := GetOr(levelProgress, grade, map[]);
      levelProgress := levelProgress[grade := forGrade[currentLevel := result]];
      if result.passed && currentLevel < LevelsPerGrade {
        levelUnlocked := levelUnlocked[grade := Max(Unlocked(grade), currentLevel + 1)];
      }
      RaiseCeilingInRange(old(levelUnlocked), grade, currentLevel, result.passed);
      showResult := true;
    }

    /** The timer running out: an ordinary submission of '', incorrect unless the answer is blank. */
    method TimeUp(toFloat: string -> Option<real>, next: Question)
      requires Valid() && AwaitingAnswer() && currentQuestion.value.kind == MathQuestion
      modifies this
      ensures Valid()
      ensures Submitted(old(currentQuestion.value), "", toFloat, next)
      ensures toFloat("") == None && !Blank(old(currentQuestion.value.answer)) ==> !history[|history| - 1].correct
    {
      ghost var q := currentQuestion.value;
      Submit("", toFloat, next);
      if toFloat("") == None {
        EmptyAnswerIncorrect(q.answer, toFloat);
      }
    }

    /** The level chooser: a level above the grade's ceiling is not adopted. */
    method ChooseLevel(lvl: int) returns (adopted: bool)
      requires Valid() && 1 <= lvl <= LevelsPerGrade
      modifies this
      ensures Valid()
      ensures adopted <==> lvl <= old(Unlocked(grade))
      ensures currentLevel == (if adopted then lvl else old(currentLevel))
      ensures ProgressKept() && LevelKept()
    {
      adopted := lvl <= Unlocked(grade);
      if adopted {
        currentLevel := lvl;
      }
    }

    /** The "Retry Level" button: start_level again on the same grade and level. */
    method Retry(first: Question) returns (ok: bool)
      requires Valid() && showResult
      modifies this
      ensures Valid()
      ensures ok <==> old(currentLevel) <= old(Unlocked(grade))
      ensures !ok ==> unchanged(this)
      ensures ok ==> LevelReset(first) && ProgressKept() && currentLevel == old(currentLevel)
    {
      ok := Start(first);
    }

    /**
     * The "Go to Next Level" button, shown only after a pass: below level 20
     * it moves to the next level and starts it, which succeeds whenever the
     * ceiling is above the level just played; on level 20 nothing changes.
     */
    method NextLevel(first: Question) returns (ok: bool)
      requires Valid() && showResult && lastResult.Some? && lastResult.value.passed
      modifies this
      ensures Valid()
      ensures old(currentLevel) == LevelsPerGrade ==> !ok && unchanged(this)
      ensures old(currentLevel) < LevelsPerGrade ==>
        currentLevel == old(currentLevel) + 1 && (ok <==> currentLevel <= old(Unlocked(grade)))
      ensures old(currentLevel) < old(Unlocked(grade)) ==> ok
      ensures ok ==> LevelReset(first) && ProgressKept()
      ensures !ok ==> ProgressKept() && LevelKept()
    {
      if currentLevel < LevelsPerGrade {
        currentLevel := currentLevel + 1;
        ok := Start(first);
      } else {
        ok := false;
      }
    }

    /** The recovery path of main_ui: issue a question if none is stored. */
    method EnsureQuestion(q: Question)
      requires Valid()
      modifies this
      ensures Valid()
      ensures currentQuestion == if old(currentQuestion).None? then Some(q) else old(currentQuestion)
      ensures ProgressKept() && currentLevel == old(currentLevel)
      ensures questionInLevel == old(questionInLevel) && correctInLevel == old(correctInLevel)
      ensures history == old(history) && showResult == old(showResult)
      ensures lastResult == old(lastResult) && started == old(started)
    {
      if currentQuestion.None? {
        NextQuestion(q);
      }
    }

    /** The sidebar's grade selector (grades 2..10); nothing else changes. */
    method SelectGrade(g: int)
      requires Valid() && 2 <= g <= 10
      modifies this
      ensures Valid() && grade == g && LevelKept() && currentLevel == old(currentLevel)
      ensures playerName == old(playerName) && mode == old(mode) && timeLimit == old(timeLimit)
      ensures levelUnlocked == old(levelUnlocked) && levelProgress == old(levelProgress)
      ensures score == old(score) && weakTopics == old(weakTopics)
    {
      grade := g;
    }

    /** The sidebar's mode selector; nothing else changes. */
    method SelectMode(m: Mode)
      requires Valid()
      modifies this
      ensures Valid() && mode == m && LevelKept() && currentLevel == old(currentLevel)
      ensures playerName == old(playerName) && grade == old(grade) && timeLimit == old(timeLimit)
      ensures levelUnlocked == old(levelUnlocked) && levelProgress == old(levelProgress)
      ensures score == old(score) && weakTopics == old(weakTopics)
    {
      mode := m;
    }
  }
}
