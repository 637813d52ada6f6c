/** How each option of the current question is coloured: neutral until the
    question is locked, then green for the answer, red for a wrong pick and
    dimmed for the rest. */
module OptionFeedback {
  import opened QuizData

  datatype OptionStyle = Neutral | Correct | Wrong | Dimmed

  /** The style of one option, given whether the question is locked, the
      question's answer and the option that was selected. */
  function OptionClass(answered: bool, option: string, answer: string, selected: string): (style: OptionStyle)
  {
    if !answered then Neutral
    else if option == answer then Correct
    else if option == selected && option != answer then Wrong
    else Dimmed
  }

  /** The styles of all options of `q`, in option order: neutral exactly
      while unlocked; once locked, green exactly for the answer, red exactly
      for a selected option that is not the answer, and dimmed otherwise. */
  function OptionClasses(q: Question, answered: bool, selected: string): (styles: seq<OptionStyle>)
    ensures |styles| == |q.options|
    ensures forall i :: 0 <= i < |styles| ==> (styles[i] == Neutral <==> !answered)
    ensures forall i :: 0 <= i < |styles| ==>
      (styles[i] == Correct <==> answered && q.options[i] == q.answer)
    ensures forall i :: 0 <= i < |styles| ==>
      (styles[i] == Wrong <==> answered && q.options[i] == selected && selected != q.answer)
    ensures forall i :: 0 <= i < |styles| ==>
      (styles[i] == Dimmed <==> answered && q.options[i] != q.answer && q.options[i] != selected)
  {
    seq(|q.options|, i requires 0 <= i < |q.options| =>
      OptionClass(answered, q.options[i], q.answer, selected))
  }

  /** Before locking every option is neutral; once locked, no option is. */
  lemma NeutralIffUnlocked(q: Question, answered: bool, selected: string, i: int)
    requires 0 <= i < |q.options|
    ensures OptionClasses(q, answered, selected)[i] == Neutral <==> !answered
  {
  }

  /** Once locked, an option is green exactly when it is the answer, so the
      answer of a well-formed question is always shown green. */
  lemma AnswerShownGreen(q: Question, selected: string)
    requires q.answer in q.options
    ensures var styles := OptionClasses(q, true, selected);
      (forall i :: 0 <= i < |styles| ==> (styles[i] == Correct <==> q.options[i] == q.answer))
      && exists i :: 0 <= i < |styles| && styles[i] == Correct
  {
    var k :| 0 <= k < |q.options| && q.options[k] == q.answer;
    assert OptionClasses(q, true, selected)[k] == Correct;
  }

  /** A red option is the selected one and is not the answer; when options
      are distinct at most one option is red, and none is when the selection
      was right. */
  lemma AtMostOneWrong(q: Question, answered: bool, selected: string)
    ensures var styles := OptionClasses(q, answered, selected);
      forall i :: 0 <= i < |styles| && styles[i] == Wrong ==>
        q.options[i] == selected && selected != q.answer
    ensures DistinctOptions(q) ==> var styles := OptionClasses(q, answered, selected);
      forall i, j :: 0 <= i < |styles| && 0 <= j < |styles| && styles[i] == Wrong && styles[j] == Wrong ==> i == j
    ensures selected == q.answer ==> Wrong !in OptionClasses(q, answered, selected)
  {
  }
}
