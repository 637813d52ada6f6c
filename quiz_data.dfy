/** The question data a play-through runs over, and the tally of how its
    questions were closed. */
module QuizData {

  /** One multiple-choice item; `answer` is the option that scores. */
  datatype Question = Question(
    id: int,
    question: string,
    options: seq<string>,
    answer: string,
    explanation: string)

  /** The seconds every question starts with. */
  const TimeBudget: int := 15

  /** A question list the quiz can run on: at least one question, and every
      question's answer is one of its own options. */
  predicate WellFormed(qs: seq<Question>)
  {
    |qs| > 0 && forall i :: 0 <= i < |qs| ==> qs[i].answer in qs[i].options
  }

  /** True when no option of `q` is listed twice. */
  predicate DistinctOptions(q: Question)
  {
    forall i, j :: 0 <= i < j < |q.options| ==> q.options[i] != q.options[j]
  }

  /** How one question of a play-through was locked: by a click on an
      option, or by the countdown running out. */
  datatype Outcome = Picked(option: string) | TimedOut

  /** An outcome earns a point exactly when it picked the question's answer. */
  predicate Scores(q: Question, o: Outcome)
  {
    o == Picked(q.answer)
  }

  /** The number of points earned by the outcomes `h` of the first |h|
      questions of `qs`. */
  function Tally(qs: seq<Question>, h: seq<Outcome>): (n: nat)
    requires |h| <= |qs|
    ensures n <= |h|
    ensures h == [] ==> n == 0
  {
    if h == [] then 0
    else Tally(qs, h[..|h| - 1]) + (if Scores(qs[|h| - 1], h[|h| - 1]) then 1 else 0)
  }

  /** Closing one more question adds one point if it was picked correctly
      and nothing otherwise; in particular a timeout never changes the tally. */
  lemma TallyAppend(qs: seq<Question>, h: seq<Outcome>, o: Outcome)
    requires |h| < |qs|
    ensures Tally(qs, h + [o]) == Tally(qs, h) + (if Scores(qs[|h|], o) then 1 else 0)
    ensures o == TimedOut ==> Tally(qs, h + [o]) == Tally(qs, h)
  {
  }

  /** The tally is the full length exactly when every question was answered
      correctly, and zero exactly when none was. */
  lemma {:induction false} TallyExtremes(qs: seq<Question>, h: seq<Outcome>)
    requires |h| <= |qs|
    ensures Tally(qs, h) == |h| <==> forall i :: 0 <= i < |h| ==> Scores(qs[i], h[i])
    ensures Tally(qs, h) == 0 <==> forall i :: 0 <= i < |h| ==> !Scores(qs[i], h[i])
  {
    if h != [] {
      var h' := h[..|h| - 1];
      TallyExtremes(qs, h');
      assert forall i :: 0 <= i < |h'| ==> h'[i] == h[i];
    }
  }
}
