/**
 The play screen drawn while a session is running: which event a click of the
 main button sends, the button's label, the progress counter, and the reveal of
 the answer and of the deviation after a guess. The slider is only enabled while
 a guess is awaited, so the percentage on screen is the one that was guessed.
 */
module PlayScreen {
  import opened GameMachine
  import opened ResultScreen

  /** `currentQuestionIndex >= questions.length - 1`. */
  function IsLastQuestion(c: Context): bool {
    c.currentQuestionIndex >= |c.questions| - 1
  }

  /** The flag tells exactly when NEXT will end the session instead of moving on. */
  lemma LastQuestionIffNextEnds(s: State)
    requires Valid(s) && s.phase.ShowingResult?
    ensures IsLastQuestion(s.ctx) <==> Step(s, Next).next.phase == End
  {
  }

  /**
   The events one click of the main button sends. Both tests read the same
   snapshot, taken before anything is sent.
   */
  function ClickEvents(p: Phase, percentage: int): (es: seq<Event>)
    ensures |es| <= 1
    ensures es == [Guess(percentage)] <==> p == AwaitingGuess
    ensures es == [Next] <==> p != AwaitingGuess
  {
    var guess := if p == AwaitingGuess then [Guess(percentage)] else [];
    var next := if p.ShowingResult? || p == End then [Next] else [];
    assert guess == [] || next == [];
    assert guess + [] == guess && [] + next == next;
    guess + next
  }

  /** Before the end, every click sends an event the machine acts on. */
  lemma ClickIsHandledBeforeEnd(s: State, percentage: int)
    requires Valid(s) && s.phase != End
    ensures var es := ClickEvents(s.phase, percentage);
            |es| == 1 && Handles(s.phase, es[0])
  {
  }

  /** The main button's text: the three conditional parts, concatenated. */
  function ButtonLabel(s: State): (text: string)
    ensures text == "Guess" <==> s.phase == AwaitingGuess
    ensures text == "Next" <==> s.phase.ShowingResult? && !IsLastQuestion(s.ctx)
    ensures text == "Show my score.." <==> s.phase.ShowingResult? && IsLastQuestion(s.ctx)
    ensures text == "" <==> s.phase == End
  {
    var last := IsLastQuestion(s.ctx);
    (if s.phase == AwaitingGuess then "Guess" else "")
    + (if s.phase.ShowingResult? && !last then "Next" else "")
    + (if s.phase.ShowingResult? && last then "Show my score.." else "")
  }

  /** The progress counter `index + 1 / questions.length`. */
  function Progress(c: Context): (r: (int, int))
    ensures r.0 == c.currentQuestionIndex + 1
    ensures c.currentQuestionIndex < |c.questions| ==> 1 <= r.0 <= r.1
    ensures c.currentQuestionIndex < |c.questions| ==> (r.0 == r.1 <==> IsLastQuestion(c))
    ensures r.1 == |c.questions|
  {
    (c.currentQuestionIndex + 1, |c.questions|)
  }

  /**
   The counter tracks the recorded outcomes: while a guess is awaited it names
   the question after the ones answered, and from the result state on it names
   the question just answered.
   */
  lemma ProgressCountsAnswers(s: State)
    requires Valid(s)
    ensures s.phase == AwaitingGuess ==> Progress(s.ctx).0 == |s.ctx.results| + 1
    ensures s.phase != AwaitingGuess ==> Progress(s.ctx).0 == |s.ctx.results|
    ensures s.phase == End ==> Progress(s.ctx).0 == Progress(s.ctx).1
  {
  }

  /** The answer and the deviation are revealed after a guess that was not exact. */
  predicate Revealed(p: Phase) {
    p.ShowingResult? && p.verdict != Correct
  }

  /** `{answer - currentPercentage < 0 ? '+' : '-'}{Math.abs(answer - currentPercentage)}`. */
  function Deviation(answer: int, percentage: int): (l: SignedLabel)
    ensures l.prefix == "+" <==> percentage > answer
    ensures l.prefix == "-" <==> percentage <= answer
    ensures l.magnitude == Abs(percentage - answer)
  {
    SignedLabel(if answer - percentage < 0 then "+" else "-", Abs(answer - percentage))
  }

  /** The slider reports a new integer value only while it is enabled. */
  function SliderValue(p: Phase, current: int, proposed: int): (v: int)
    ensures p == AwaitingGuess ==> v == proposed
    ensures p != AwaitingGuess ==> v == current
  {
    if p == AwaitingGuess then proposed else current
  }

  /** The play screen: the machine's snapshot and the slider's percentage. */
  datatype Screen = Screen(machine: State, percentage: int)

  /** What the player can do on the play screen. */
  datatype Input = Click | Slide(value: int)

  /** The screen for a fresh session; the slider starts at 50. */
  function StartScreen(questions: seq<Question>): (sc: Screen)
    requires |questions| >= 1
    ensures Consistent(sc)
  {
    Screen(Initial(questions), 50)
  }

  /**
   While a result is shown, the percentage on screen is the guess that
   produced the latest outcome.
   */
  predicate Consistent(sc: Screen) {
    var s := sc.machine;
    && Valid(s)
    && (s.phase.ShowingResult? ==>
          s.ctx.results[s.ctx.currentQuestionIndex].diff
            == sc.percentage - s.ctx.questions[s.ctx.currentQuestionIndex].answer)
  }

  function Interact(sc: Screen, input: Input): (r: Screen)
    requires Consistent(sc)
    ensures Consistent(r)
    ensures r.machine.ctx.questions == sc.machine.ctx.questions
    ensures sc.machine.phase != AwaitingGuess ==> r.percentage == sc.percentage
  {
    match input
    case Click =>
      var es := ClickEvents(sc.machine.phase, sc.percentage);
      if es == [] then sc
      else
        RunSingle(sc.machine, es[0]);
        assert es == [es[0]];
        Screen(Run(sc.machine, es).next, sc.percentage)
    case Slide(v) =>
      Screen(sc.machine, SliderValue(sc.machine.phase, sc.percentage, v))
  }

  function InteractAll(sc: Screen, inputs: seq<Input>): (r: Screen)
    requires Consistent(sc)
    ensures Consistent(r)
    decreases |inputs|
  {
    if inputs == [] then sc else InteractAll(Interact(sc, inputs[0]), inputs[1..])
  }

  /**
   Whenever the deviation is on screen, it shows the same sign and magnitude
   as the diff the machine recorded for the guess.
   */
  lemma DeviationMatchesRecordedDiff(sc: Screen)
    requires Consistent(sc) && Revealed(sc.machine.phase)
    ensures var c := sc.machine.ctx;
            Deviation(c.questions[c.currentQuestionIndex].answer, sc.percentage)
              == DiffLabel(c.results[c.currentQuestionIndex].diff)
  {
  }
}
