/** One play-through of the quiz: the six pieces of state the component
    keeps, and the handlers that change them. The two scheduled callbacks,
    the one-second tick and the delayed advance two seconds after a question
    locks, are methods the environment calls. */
module Session {
  import opened QuizData
  import opened Timer
  import opened Results

  class Quiz {
    /** The question list, fixed for the session. */
    const questions: seq<Question>

    var currentQuestion: int
    var selectedOption: string
    var score: int
    var showResult: bool
    var answered: bool
    var timeLeft: int

    /** How each question closed so far was locked, in order: one entry per
        passed question, plus one for the current question once locked. */
    ghost var history: seq<Outcome>

    /** The session invariant. The index stays on a question (the last one
        once the result screen is up); the score is the tally of the
        history; the countdown stays within the budget and reaches zero
        only on a locked question; nothing is selected before locking; and
        the last entry of the history is what locked the current question. */
    ghost predicate Valid()
      reads this
    {
      WellFormed(questions)
      && 0 <= currentQuestion < |questions|
      && |history| == currentQuestion + (if answered then 1 else 0)
      && score == Tally(questions, history)
      && 0 <= timeLeft <= TimeBudget
      && (timeLeft == 0 ==> answered)
      && (!answered ==> selectedOption == "")
      && (answered ==>
            history[|history| - 1] == Picked(selectedOption)
            || (history[|history| - 1] == TimedOut && selectedOption == ""))
      && (showResult ==> answered && currentQuestion == |questions| - 1)
    }

    /** The state a play-through starts in. */
    ghost predicate Initial()
      reads this
    {
      currentQuestion == 0 && selectedOption == "" && score == 0
      && !showResult && !answered && timeLeft == TimeBudget
    }

    constructor (qs: seq<Question>)
      requires WellFormed(qs)
      ensures Valid() && Initial()
      ensures questions == qs && history == []
    {
      questions := qs;
      currentQuestion := 0;
      selectedOption := "";
      score := 0;
      showResult := false;
      answered := false;
      timeLeft := TimeBudget;
      history := [];
    }

    /** A click on `option`: ignored once the question is locked; otherwise
        it locks the question, records the selection and scores a point
        exactly when the option is the current question's answer. */
    method OptionClick(option: string)
      requires Valid()
      modifies this
      ensures Valid()
      ensures old(answered) ==> unchanged(this)
      ensures !old(answered) ==>
        answered && selectedOption == option
        && score == old(score) + (if option == questions[currentQuestion].answer then 1 else 0)
        && currentQuestion == old(currentQuestion) && showResult == old(showResult)
        && timeLeft == old(timeLeft)
        && history == old(history) + [Picked(option)]
    {
      if answered {
        return;
      }
      TallyAppend(questions, history, Picked(option));
      answered := true;
      selectedOption := option;
      history := history + [Picked(option)];
      if option == questions[currentQuestion].answer {
        score := score + 1;
      }
    }

    /** The timeout: it locks the question and changes nothing else; no
        option is selected and the score stays. */
    method HandleTimeout()
      requires Valid()
      modifies this
      ensures Valid()
      ensures answered
      ensures currentQuestion == old(currentQuestion) && selectedOption == old(selectedOption)
        && score == old(score) && showResult == old(showResult) && timeLeft == old(timeLeft)
      ensures history == if old(answered) then old(history) else old(history) + [TimedOut]
    {
      if !answered {
        TallyAppend(questions, history, TimedOut);
        history := history + [TimedOut];
      }
      answered := true;
    }

    /** One tick of the countdown. The interval only runs while the question
        is unlocked and the result screen is not up, so otherwise nothing
        happens. A running tick applies TickUpdate to the remaining time and
        fires the timeout when that says so. */
    method Tick() returns (timedOut: bool)
      requires Valid()
      modifies this
      ensures Valid()
      ensures old(showResult || answered) ==> !timedOut && unchanged(this)
      ensures !old(showResult || answered) ==>
        timeLeft == TickUpdate(old(timeLeft)).next
        && timedOut == TickUpdate(old(timeLeft)).timeout
        && answered == timedOut
        && currentQuestion == old(currentQuestion) && selectedOption == old(selectedOption)
        && score == old(score) && !showResult
        && history == old(history) + (if timedOut then [TimedOut] else [])
    {
      if showResult || answered {
        return false;
      }
      var r := TickUpdate(timeLeft);
      if r.timeout {
        HandleTimeout();
      }
      timeLeft := r.next;
      timedOut := r.timeout;
    }

    /** The delayed advance, scheduled when a question locks. Before the last
        question it moves on by one and unlocks a fresh question with the full
        time budget, keeping the score; on the last question the index stays
        and only the result screen is raised. */
    method Advance()
      requires Valid() && answered
      modifies this
      ensures Valid()
      ensures score == old(score) && history == old(history)
      ensures old(currentQuestion) + 1 < |questions| ==>
        currentQuestion == old(currentQuestion) + 1 && selectedOption == ""
        && !answered && timeLeft == TimeBudget && showResult == old(showResult)
      ensures old(currentQuestion) + 1 >= |questions| ==>
        showResult && currentQuestion == old(currentQuestion) == |questions| - 1
        && selectedOption == old(selectedOption) && answered && timeLeft == old(timeLeft)
    {
      var nextQuestion := currentQuestion + 1;
      if nextQuestion < |questions| {
        currentQuestion := nextQuestion;
        selectedOption := "";
        answered := false;
        timeLeft := TimeBudget;
      } else {
        showResult := true;
      }
    }

    /** Restart: from any state, back to the initial state of a fresh
        play-through over the same questions. */
    method Restart()
      requires Valid()
      modifies this
      ensures Valid() && Initial() && history == []
    {
      currentQuestion := 0;
      selectedOption := "";
      score := 0;
      showResult := false;
      answered := false;
      timeLeft := TimeBudget;
      history := [];
    }

    /** The score never exceeds the questions reached so far, and on the
        result screen it counts the correctly picked questions of the whole
        list. */
    lemma ScoreBounds()
      requires Valid()
      ensures 0 <= score <= currentQuestion + (if answered then 1 else 0) <= |questions|
      ensures showResult ==> |history| == |questions|
      ensures showResult && score == |questions| ==>
        forall i :: 0 <= i < |questions| ==> history[i] == Picked(questions[i].answer)
    {
      TallyExtremes(questions, history);
    }

    /** The reward label for the current score. */
    method CalculateReward() returns (text: string)
      requires Valid()
      ensures text == RewardLabel(Reward(score, |questions|))
      ensures score == |questions| ==> text == "0.01 ETH"
      ensures score == 0 ==> text == "Participation Badge NFT"
    {
      RewardExtremes(|questions|);
      text := RewardLabel(Reward(score, |questions|));
    }
  }

  /** `n` ticks delivered to an unlocked question follow the pure countdown
      of one interval: the remaining time is Countdown's, the timeout fires
      at most once, and the question locks exactly when it does. */
  method RunTicks(q: Quiz, n: nat) returns (fired: nat)
    requires q.Valid() && !q.answered && !q.showResult
    modifies q
    ensures q.Valid()
    ensures q.timeLeft == Countdown(old(q.timeLeft), n).time
    ensures fired == Countdown(old(q.timeLeft), n).fired
    ensures fired <= 1 && (q.answered <==> fired == 1)
    ensures q.currentQuestion == old(q.currentQuestion) && q.score == old(q.score)
      && q.selectedOption == old(q.selectedOption) && !q.showResult
  {
    ghost var t0 := q.timeLeft;
    fired := 0;
    var k := 0;
    while k < n
      invariant 0 <= k <= n
      invariant q.Valid() && !q.showResult
      invariant q.currentQuestion == old(q.currentQuestion) && q.score == old(q.score)
      invariant q.selectedOption == old(q.selectedOption)
      invariant fired == (if q.answered then 1 else 0)
      invariant Countdown(t0, n) == if q.answered then Run(q.timeLeft, 1) else Countdown(q.timeLeft, n - k)
    {
      var timedOut := q.Tick();
      if timedOut {
        fired := fired + 1;
      }
      k := k + 1;
    }
  }

  /** Five questions: the first three answered right, the fourth wrong, the
      fifth left to time out. The final score is 3, which is 60 percent and
      earns the middle tier. */
  method MidTierPlayThrough(qs: seq<Question>, wrong: string) returns (finalScore: int, text: string)
    requires WellFormed(qs) && |qs| == 5 && wrong != qs[3].answer
    ensures finalScore == 3 && text == "0.005 ETH"
  {
    var q := new Quiz(qs);
    var k := 0;
    while k < 3
      invariant 0 <= k <= 3
      invariant q.Valid() && q.questions == qs
      invariant q.currentQuestion == k && q.score == k && !q.answered && !q.showResult
    {
      q.OptionClick(qs[k].answer);
      q.Advance();
      k := k + 1;
    }
    q.OptionClick(wrong);
    q.Advance();
    assert q.currentQuestion == 4 && q.score == 3 && q.timeLeft == TimeBudget;
    var ticks := 0;
    while ticks < TimeBudget
      invariant 0 <= ticks <= TimeBudget
      invariant q.Valid() && q.questions == qs
      invariant q.currentQuestion == 4 && q.score == 3 && !q.showResult
      invariant q.timeLeft == TimeBudget - ticks
      invariant q.answered <==> ticks == TimeBudget
    {
      var _ := q.Tick();
      ticks := ticks + 1;
    }
    q.Advance();
    assert q.showResult;
    finalScore := q.score;
    text := q.CalculateReward();
  }

  /** Two clicks in a row on the first question: the second is ignored, so
      the selection and the score are those of the first click. */
  method DoubleClick(qs: seq<Question>, first: string, second: string) returns (selected: string, finalScore: int)
    requires WellFormed(qs)
    ensures selected == first
    ensures finalScore == (if first == qs[0].answer then 1 else 0)
  {
    var q := new Quiz(qs);
    q.OptionClick(first);
    q.OptionClick(second);
    selected := q.selectedOption;
    finalScore := q.score;
  }
}
