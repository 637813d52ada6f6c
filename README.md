# Quiz session state machine

A Dafny model of the trivia widget in `quiz-game-miniapp/src/App.tsx`. The widget shows a fixed list of
multiple-choice questions one at a time. Each question runs a 15-second countdown. The first click on an option
locks the question and scores a point if it was the right answer. If the countdown runs out, the question locks
unanswered. Two seconds after a question locks, the widget moves on to the next one. After the last question it
shows a result screen with a reward tier and a performance message, and a restart button.

Files and modules:

- `quiz_data.dfy` (`QuizData`): the `Question` record, the well-formedness condition on the question list
  (non-empty, and every answer is one of its question's options), the per-question time budget of 15 seconds,
  and `Tally`, which counts the points earned by a sequence of outcomes.
- `timer.dfy` (`Timer`): the updater that each one-second tick applies to the remaining time (`TickUpdate`), and
  a run of ticks of one interval (`Countdown`).
- `results.dfy` (`Results`): the reward tier (`Reward`, `RewardLabel`) and the four performance messages
  (`Messages`, `Feedback`).
- `option_feedback.dfy` (`OptionFeedback`): how each option is coloured before and after the question locks.
- `session.dfy` (`Session`): class `Quiz`. It has the component's six state fields (`currentQuestion`,
  `selectedOption`, `score`, `showResult`, `answered`, `timeLeft`), the immutable question list, and a ghost
  `history` that records how each question was locked. It has one method per handler: `OptionClick`,
  `HandleTimeout`, `Advance` (the progression step) and `Restart`. `Tick` stands for the one-second interval
  callback. After it come `RunTicks`, which ties a run of `Tick` calls to the pure `Countdown`, and two client
  scenarios.

Modelling decisions:

- The two scheduled callbacks are methods the environment calls. `Tick` is the interval callback. It does
  nothing while `answered` or `showResult` holds, because the interval only exists when neither does
  (App.tsx:58). `Advance` is the callback that fires two seconds after a lock. It requires `answered`, because
  both of its call sites (App.tsx:80 and App.tsx:98) schedule it right after setting `answered`. Nothing clears
  `answered` before the callback fires.
- The code keeps `currentQuestion` on the last index after the last question and signals the end with
  `showResult`. The model does the same, and its invariant is `0 <= currentQuestion < |questions|`. The index
  never reaches the list length.
- Percentages are compared by integer cross-multiplication: `score * 100 >= 80 * total` for the reward, and
  `10 * score >= 7 * total` for the messages. Lemmas show that these agree with the source's formulas evaluated
  in exact real arithmetic.
- The invariant `Quiz.Valid` ties `score` to the tally of the ghost history. It follows that
  `0 <= score <= currentQuestion + (answered ? 1 : 0) <= |questions|`.

## Model

| member | source | states |
|---|---|---|
| QuizData.Tally | quiz-game-miniapp/src/App.tsx:90-92 | the points earned by closed questions never exceed how many there are, and none were closed means none earned |
| QuizData.TallyAppend | quiz-game-miniapp/src/App.tsx:78-99 | closing one more question adds exactly one point if it was picked right and none otherwise; a timeout never adds one |
| QuizData.TallyExtremes | quiz-game-miniapp/src/App.tsx:90-92 | the tally equals the number of closed questions iff every one was picked right, and is zero iff none was |
| Timer.TickUpdate | quiz-game-miniapp/src/App.tsx:60-67 | a tick fires the timeout iff the time was at most 1, and then lands on 0; otherwise it takes exactly one second off; the result is never negative and never above a non-negative start |
| Timer.Countdown | quiz-game-miniapp/src/App.tsx:59-68 | over any number of ticks of one interval the timeout fires at most once, and the time never rises above a non-negative start |
| Timer.CountdownFiresOnce | quiz-game-miniapp/src/App.tsx:59-68 | from a non-negative start t, the timeout fires exactly once, on tick max(t, 1); before that the time is t minus the ticks so far, and 0 after |
| Results.RewardLabel | quiz-game-miniapp/src/App.tsx:130-132 | each tier has its own label, and each label names exactly one tier |
| Results.PercentageAtLeast | quiz-game-miniapp/src/App.tsx:129-131 | for a positive total, the exact percentage score / total * 100 is at least b iff 100 * score >= b * total |
| Results.RewardByPercentage | quiz-game-miniapp/src/App.tsx:128-133 | the tier is high iff the percentage is at least 80, middle iff it is in [60, 80), participation iff it is below 60 |
| Results.RewardMonotone | quiz-game-miniapp/src/App.tsx:128-133 | a higher score never earns a lower tier |
| Results.RewardExtremes | quiz-game-miniapp/src/App.tsx:128-133 | a full score earns the high tier and a zero score the participation badge |
| Results.MessagesAgree | quiz-game-miniapp/src/App.tsx:219-230 | the integer conditions select the same performance messages as the source's conditions `total * 0.7` and `total * 0.4` taken on the reals |
| Results.Feedback | quiz-game-miniapp/src/App.tsx:219-230 | for every score from 0 to the total the result screen shows exactly one message, and it is Perfect iff the score is full |
| Results.MessagesExactlyOne | quiz-game-miniapp/src/App.tsx:219-230 | with a non-negative total exactly one message is shown iff score <= total, and none for a score above the total |
| OptionFeedback.OptionClasses | quiz-game-miniapp/src/App.tsx:163-174 | one style per option, in option order; an option is neutral iff the question is unlocked; once locked it is green iff it is the answer, red iff it is the selected option and that is not the answer, and dimmed otherwise |
| OptionFeedback.NeutralIffUnlocked | quiz-game-miniapp/src/App.tsx:164-166 | an option keeps the neutral style iff the question is not locked |
| OptionFeedback.AnswerShownGreen | quiz-game-miniapp/src/App.tsx:166-168 | once locked, an option is green iff it is the answer, so the answer of a well-formed question is always shown green |
| OptionFeedback.AtMostOneWrong | quiz-game-miniapp/src/App.tsx:169-171 | a red option is the selected option and is not the answer; with distinct options at most one is red; none is when the selection was right |
| Session.Quiz.constructor | quiz-game-miniapp/src/App.tsx:46-51 | a new session starts at question 0 with nothing selected, score 0, no result screen, unlocked and 15 seconds left |
| Session.Quiz.OptionClick | quiz-game-miniapp/src/App.tsx:84-99 | a click on a locked question changes nothing; otherwise it locks the question, selects the option and adds 1 to the score iff the option is the current answer, leaving the index, timer and result flag alone |
| Session.Quiz.HandleTimeout | quiz-game-miniapp/src/App.tsx:78-81 | a timeout locks the question and changes nothing else: no selection and no score change |
| Session.Quiz.Tick | quiz-game-miniapp/src/App.tsx:55-68 | with no interval running a tick changes nothing; otherwise the time follows TickUpdate and the question locks exactly when the timeout fires |
| Session.Quiz.Advance | quiz-game-miniapp/src/App.tsx:102-114 | before the last question, the index goes up by exactly 1 and the selection, lock and timer are reset while the score stays; on the last question the index stays at the last one and only the result screen is raised |
| Session.Quiz.Restart | quiz-game-miniapp/src/App.tsx:117-125 | from any state, the session returns to exactly the initial values |
| Session.Quiz.ScoreBounds | quiz-game-miniapp/src/App.tsx:85-92 | 0 <= score <= currentQuestion + (answered ? 1 : 0) <= number of questions; on the result screen every question has an outcome, and a full score means every one was picked right |
| Session.Quiz.CalculateReward | quiz-game-miniapp/src/App.tsx:128-133 | the label is the tier of the current score; a full score gives "0.01 ETH" and a zero score the participation badge |
| Session.RunTicks | quiz-game-miniapp/src/App.tsx:58-68 | n ticks delivered to an unlocked question leave exactly the time the pure Countdown gives, fire the timeout at most once, as often as Countdown says, and lock the question exactly when it fires; score, index and selection stay |
| Session.MidTierPlayThrough | quiz-game-miniapp/src/App.tsx:59-133 | five questions with three right, one wrong and one timed out after 15 ticks end with score 3 and the middle-tier label "0.005 ETH" |
| Session.DoubleClick | quiz-game-miniapp/src/App.tsx:84-99 | after two clicks on one question, the selection and the score are those of the first click |

## Left out

- Rendering: the JSX, the CSS class strings, the progress-bar width, the red time badge and the `animation`
  state (App.tsx:52, 93, 95, 110, 124, 135-253). None of them affects the state machine.
- Real-time scheduling: `setInterval`, `setTimeout` with its 2-second delay, and the `useEffect`
  dependency and cleanup lifecycle (App.tsx:55-75, 80, 98). Ticks and the delayed advance are methods the
  environment calls in order. React batching and re-rendering are not modelled.
- Floating point: the source compares percentages and fractions in IEEE doubles. The model compares exact
  values, so any rounding at a threshold boundary is not modelled.
- The concrete five questions (App.tsx:6-42). The question list is a constructor parameter under the
  well-formedness condition.
- The "Share Results" button (App.tsx:240-244). It has no handler.
- Reward issuance: `calculateReward` only returns a label, and so does the model.
- Results.Reward: requires a positive total. With no questions the source would compute 0 / 0; a well-formed
  list is never empty.
- Session.Quiz.Advance: requires the question to be locked, which holds at both places that schedule it. A call
  on an unlocked question is outside the model.
