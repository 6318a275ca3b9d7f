# Math Hero level engine in Dafny

This project models the level engine of Math Hero, a Streamlit math quiz for grades 2 to 10. Each grade has 20 levels, and each level has 10 questions. Scoring 70 percent on a level unlocks the next one.

The Streamlit session dictionary becomes an explicit state object, the class `Engine.Session`:
- `start_level` checks the level against the grade's unlock ceiling, then resets the level counters.
- `record_answer` judges an answer, counts it and, on the tenth answer, evaluates the level and may raise the ceiling.
- The level-flow controls of `main_ui` are methods: choose a level, retry, go to the next level, the recovery path that issues a missing question, and the timer running out.

The pure parts are functions of their inputs:
- the three answer-judging rules (`Judging`);
- the integer and string question generators, as functions of the values their random calls drew (`Generators`);
- the grade-band topic chooser;

The building and shuffling of a shape question's numeric choices are methods with loops on sequences.

Supporting modules:
- `Arith`: gcd with Bezout coefficients, lcm, and divisibility lemmas.
- `Strings`: decimal rendering, Python-style `strip`, ASCII `lower`, and parsers for the fraction, mixed-number and matrix answer strings. The parsers exist so that each rendering can be proved to round-trip.

The model's external inputs are parameters:
- Python's `float()` on an answer is the parameter `toFloat: string -> Option<real>`. `None` stands for a raised exception.
- Every random draw is an argument with its drawn range as a precondition. The shuffle takes Fisher–Yates draws.
- The next question, which `next_question` would generate from the random generators, is an argument of the methods that issue one.

Modelling choices:
- `level_progress` is keyed by `str(grade)` and `str(level)` in the source. Here both keys are `int`. `str` is injective on integers, so this loses nothing.
- The percentage is the integer `correct*100/total`. The source computes `int(correct/total*100)` in floating point. A level is evaluated only at `total == 10`, and there the two agree for every `correct` from 0 to 10.

## Model

| member | source | states |
|---|---|---|
| Engine.Evaluate | app.py:496-501 | percent is the floor of correct*100/total, or 0 for an empty level; it is at most 100 when correct <= total; passed iff percent >= 70 iff 10*correct >= 7*total |
| Engine.NoteWeakTopic | app.py:488-491 | a wrong answer to a question with a non-empty topic adds exactly one miss to that topic; any other answer leaves the map unchanged; no other topic's count changes |
| Engine.RecordResult | app.py:503-505 | the result is stored under level_progress[grade][level]; the grade's entry is created if it was missing; every other level and grade keeps its value |
| Engine.RaiseCeiling | app.py:506-507 | the ceiling changes only on a pass below level 20, and then becomes max(old ceiling, level+1) > level; no grade's ceiling is ever lowered; other grades are untouched |
| Engine.RaiseCeilingInRange | app.py:506-507 | raising keeps every ceiling within 1..20 |
| Engine.FillDefaults | app.py:110-112 | the defaults loop yields the defaults overlaid by the keys already present (map union, existing entries win) |
| Engine.Session.constructor | app.py:86-108 | the first-visit session: player "Player", grade 3, Math Quiz, level 1, every grade 2..10 unlocked to level 1 with an empty progress record, zero counters, a 45-second limit, nothing started |
| Engine.Session.NextQuestion | app.py:437-448 | the new question is stored; nothing else of the engine state changes |
| Engine.Session.Start | app.py:418-434 | succeeds iff the current level is at most the grade's ceiling; on failure nothing changes; on success the counters are 0, history is empty, the result is cleared, the level is started with the first question, and score, ceilings, progress and weak topics are kept |
| Engine.Session.Submit | app.py:451-513 | exactly one more answered question and one more history entry; correct count +1 and score +10 iff the answer is judged correct (and neither changes otherwise); weak topics per NoteWeakTopic; when the count reaches 10, the result screen appears with Evaluate's verdict, which is recorded by RecordResult and RaiseCeiling; otherwise the next question is issued; Valid (0 <= correct <= answered <= 10, result shown iff 10 answered) is preserved |
| Engine.Session.Count | app.py:484-493 | the counting half of record_answer: counters, score, weak topics and history, with every other field unchanged |
| Engine.Session.CloseLevel | app.py:496-508 | the evaluation half of record_answer: result stored, progress recorded, ceiling raised, ceilings stay in 1..20, counters untouched |
| Engine.Session.TimeUp | app.py:674-681 | the timer exists only for a math question on screen; the timeout is an ordinary submission of ''; it is judged incorrect whenever the expected answer is not blank text and '' does not parse as a number |
| Engine.Session.ChooseLevel | app.py:576-581 | the chosen level (1..20) is adopted iff it is at most the grade's ceiling; nothing else changes |
| Engine.Session.Retry | app.py:630-632 | start_level on the same grade and level succeeds iff the level is at most the ceiling; on success it resets the level, as Start does |
| Engine.Session.NextLevel | app.py:634-641 | after a pass at level 20 nothing changes; below 20 the level becomes L+1 and the new start succeeds iff L+1 is at most the ceiling, in particular whenever the ceiling was above L; a failed start changes only the level number |
| Engine.Session.EnsureQuestion | app.py:608-611 | a question is issued only when none is stored; nothing else changes |
| Engine.Session.SelectGrade | app.py:530-531 | only the grade changes (to one of 2..10) |
| Engine.Session.SelectMode | app.py:533-534 | only the mode changes |
| Scenarios.PlayFirstLevel | app.py:418-513 | a fresh session answering the first k of its 10 questions correctly (and the rest wrongly) scores 10*k percent and passes iff k >= 7; a pass raises grade 3's ceiling to 2 and "Go to Next Level" starts level 2; a failure leaves the ceiling at 1 and "Retry Level" restarts level 1 from 0 answers |
| Judging.JudgeIgnoresSurroundingSpace | app.py:457-481 | surrounding whitespace does not change the verdict under any of the three rules (given that float() ignores it too, which fails only for U+001C..U+001F: strip() removes them, float() rejects them) |
| Judging.TextJudgeIgnoresCase | app.py:477-479 | text answers that agree up to letter case get the same verdict |
| Judging.CanonicalTextJudge | app.py:477-479 | for a trimmed lower-case expected text, the answer is correct iff its trimmed lower-cased form equals the text |
| Judging.EmptyAnswerIncorrect | app.py:457-481 | when float('') fails, the empty answer is correct iff the expected answer is blank: an empty fraction string, or text that is empty after strip and lower |
| Judging.IntegerChoiceJudge | app.py:471-476 | for an integer expected value and an integer choice, the choice is judged correct iff it equals the answer |
| Judging.NumberJudgeInterval | app.py:471-476 | a numeric answer x is correct iff expected-0.5 <= x <= expected+0.5 (inclusive) |
| Judging.JudgeExamples | app.py:457-481 | against 10, 10.4 passes and 10.6 fails; against 3/4, "3/4" and 0.76 pass and 0.90 fails; "YES " matches "yes" and "y" does not |
| Generators.GenSubtraction | app.py:132-135 | the answer is never negative, is below 10*grade, and added to b gives a |
| Generators.GenDivision | app.py:144-148 | b divides the dividend a = b*c exactly and the answer is the quotient c, within 1..12 |
| Generators.RelationSymbol | app.py:154 | the symbol is one of '>', '<', '=', is already trimmed lower-case, and is the only one of the three that holds between a and b |
| Generators.GenComparison | app.py:151-155 | the expected text is a relation symbol that holds between the two drawn numbers |
| Generators.Simplify | app.py:171-173 | the simplified fraction is in lowest terms (gcd 1) and equals num/den (cross-multiplication) |
| Generators.Round3 | app.py:175 | the result is a three-place decimal (1000*r is an integer) within 0.0005 of num/den, i.e. the nearest one, as round(num/den, 3) returns |
| Generators.GenFractionsAdd | app.py:165-176 | the fraction string parses back to the lowest-terms form of (a+b)/d; the decimal is a three-place decimal within 0.0005 of (a+b)/d |
| Generators.FractionQuestionAccepts | app.py:165-176 | the generated fraction string is accepted by the fraction rule, and so is any parsed answer within 0.049 of (a+b)/d |
| Generators.MixedOf | app.py:182-183 | whole*den + rem == num with 0 < rem < den, or just the whole number when den divides num |
| Generators.GenImproperToMixed | app.py:179-188 | the answer string parses back to the mixed number: "whole rem/den", or just "whole" when rem is 0 |
| Generators.GenLcm | app.py:191-194 | the answer is a positive common multiple of a and b |
| Generators.GenLcmIsLeast | app.py:191-194 | the answer is at most every positive common multiple, so it is the least one |
| Generators.GenHcf | app.py:197-200 | the answer is a common divisor of a and b |
| Generators.GenHcfIsGreatest | app.py:197-200 | every common divisor is at most the answer, so it is the greatest one |
| Generators.GenFunctionEval | app.py:223-227 | the prompt reads back to the drawn slope, intercept and point (a, b, x), and the answer is f(x) = a*x + b for the function the prompt shows; it lies in 1..60 |
| Generators.FunctionEvalPromptReadBack | app.py:227 | the prompt "Given f(x) = {a}x + {b}. Find f({x})." parses back to (a, b, x) |
| Generators.GenMatrixAdd | app.py:251-256 | the answer string parses back to the element-wise sum of the two matrices |
| Generators.ChooseTopic | app.py:340-346 | grades up to 4 draw a basic topic, grades 5..8 a middle one, grades 9 and up an upper one |
| Generators.TopicBands | app.py:340-346 | a topic can be drawn iff it is in the grade's pool; the fraction topics never reach grades 2..4; matrices come only from grade 9; mixed numbers only from grade 5 |
| Generators.BuildChoices | app.py:315-323 | four choices: the answer first, then the three wrong ones at ans ± offset, each 1..delta+3 away from the answer |
| Generators.Shuffle | app.py:324 | the Fisher–Yates shuffle returns a permutation of its input (same length, same multiset) |
| Generators.ShapeChoices | app.py:315-324 | the shuffled choices are four, contain the answer exactly once, and every other choice is 1..delta+3 away from it |
| Generators.OneChoiceCorrect | app.py:315-324 | exactly the position holding the answer is judged correct when the player picks a choice |
| Arith.Lcm | app.py:194 | the lcm is positive and a common multiple of both numbers |
| Arith.LcmLeast | app.py:194 | the lcm divides, and is at most, every positive common multiple |
| Arith.LcmTimesGcd | app.py:194 | gcd(a, b) * lcm(a, b) == a * b, so the lcm is (a*b)//gcd(a,b) |
| Arith.GcdDivides | app.py:171 | math.gcd of two numbers, not both zero, is positive and divides both |
| Arith.GcdGreatest | app.py:171 | every common divisor divides the gcd |
| Arith.CoprimeQuotients | app.py:171-173 | dividing both numbers by their gcd leaves coprime numbers |
| Strings.FractionRoundTrip | app.py:174 | the "num/den" rendering parses back to (num, den) |
| Strings.MixedRoundTrip | app.py:184-187 | the mixed-number rendering parses back to the same mixed number |
| Strings.MatrixRoundTrip | app.py:255 | the "[[a,b],[c,d]]" rendering parses back to the same matrix |
| Strings.TrimIdempotent | app.py:463 | strip applied twice equals strip applied once |
| Strings.TrimLower | app.py:478 | stripping and lower-casing commute |

## Left out

- Streamlit rendering and reruns (`render_header`, the rest of `render_sidebar`, `st.rerun`/`st.stop`, the preview question, progress bar and history display) are UI only. The player-name text box is left out too.
- File persistence (`load_progress`, `save_progress`, `append_leaderboard`, the JSON/CSV exports and the "Save to Leaderboard" button) is I/O. The restore at start-up never runs, because the default `level_progress` is non-empty.
- PIL drawing (`draw_shape_image`) and the image of a shape question come from a foreign library.
- Randomness: every `random` call is a parameter bounded by its drawn range. `generate_math_question`'s dispatch from a topic name to a generator is left out; the engine takes the generated question as an argument.
- Float-valued generators are floating-point numerics: `gen_percentage`, `gen_profit_loss`, `gen_trig_basic`, `gen_slope`, and the circle and triangle shape answers. The remaining integer and text generators are not part of this model: `gen_addition`, `gen_multiplication`, `gen_simple_story`, `gen_area_rectangle`, `gen_perimeter_rectangle`, `gen_set_membership`, and the square and rectangle shape answers. Note that `gen_simple_story`'s answer can be negative.
- The shape choices' delta `max(1, int(abs(ans)*0.15) or 1)` is an abstract integer of at least 1. The `round(wrong, 1)` of float answers is left out; the choices are integers.
- Judging.Judge: arithmetic is in exact reals, while Python uses binary floating point. At a tolerance boundary the two can differ: Python judges 0.8 against 0.75 incorrect, since 0.8-0.75 is slightly above 0.05 in floats, while the model judges it correct. NaN and infinities are not modelled.
- Judging.Judge: a shape answer that is not a string (the radio's initial `None`) is not modelled; `given` is always a string.
- Strings.Lower: only ASCII letters are lower-cased; Python's full Unicode case mapping is not modelled.
- Every modelled generator renders its prompt as the source does. Only the function-evaluation prompt is proved to read back (to its a, b and x); no property is proved about the other prompts. The × prompt of `gen_multiplication` is not modelled, because that generator is left out.
- `next_question`'s clock (`question_start_time`) and the `auto_clear_flag` input-clearing are time and UI concerns. So are the mirrored `current_answer`/`current_choices` fields, which the model reads from the stored question. The unused `question_index` and `user_input_temp` defaults are left out too.
- Engine.Session.TimeUp: the wall-clock comparison that triggers it is left out; only its effect, a submission of '', is modelled.
- Engine.Session.Submit: requires that a level is running with a question on screen and fewer than 10 answers, the only state in which the app renders an input. The source itself would raise on a missing question.
- Engine.Session.NextLevel: if the player picks the ceiling level on the result screen and then presses "Go to Next Level", the following start is refused. The source ignores that refusal (app.py:638), leaving the level number raised and the old result on screen. The model states exactly this.
