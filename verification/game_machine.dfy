/**
 The quiz session state machine. A session holds a fixed, non-empty list of
 questions, the index of the question being asked and the outcomes recorded so
 far. It reacts to two events, GUESS(value) and NEXT; an event with no
 transition in the current phase is ignored. Entry actions that play sounds are
 returned as signals instead of being performed.
 */
module GameMachine {
  import opened Wrappers
  import opened Areas

  /** A question: the percentage to guess plus how it is drawn. */
  datatype Question = Question(answer: int, component: Option<Shape>, anchor: Anchor)

  /** The classification of one guess. */
  datatype Verdict = Incorrect | Close | Correct

  /** One recorded guess: `diff` is guess minus answer (positive means too high). */
  datatype Outcome = Outcome(diff: int, result: Verdict)

  /**
   The machine's states. The three result states `incorrect`, `close` and
   `correct`, which share the `result` tag, are `ShowingResult(verdict)`.
   */
  datatype Phase = AwaitingGuess | ShowingResult(verdict: Verdict) | End

  datatype Context = Context(currentQuestionIndex: nat, questions: seq<Question>, results: seq<Outcome>)

  datatype State = State(phase: Phase, ctx: Context)

  datatype Event = Guess(value: int) | Next

  /** The entry actions of the result states. */
  datatype Signal = PlayIncorrectSound | PlayCloseSound | PlayCelebrationSound

  /** The state reached by a step and the entry actions it triggered, in order. */
  datatype Transition = Transition(next: State, signals: seq<Signal>)

  /** A guess this close to the answer, but not equal to it, is `close`. */
  const CloseThreshold := 5

  function Abs(x: int): (r: nat)
    ensures r == x || r == -x
  {
    if x < 0 then -x else x
  }

  /** `getResult`: exact match first, then the distance test. */
  function GetResult(value: int, answer: int): (r: Verdict)
    ensures r == Correct <==> value == answer
    ensures r == Close <==> value != answer && Abs(value - answer) <= CloseThreshold
    ensures r == Incorrect <==> Abs(value - answer) > CloseThreshold
  {
    if value == answer then Correct
    else if Abs(value - answer) <= CloseThreshold then Close
    else Incorrect
  }

  /** The classification an outcome must carry, judged from its diff alone. */
  predicate WellClassified(o: Outcome) {
    && (o.result == Correct <==> o.diff == 0)
    && (o.result == Close <==> o.diff != 0 && Abs(o.diff) <= CloseThreshold)
  }

  /** The sound played on entering the result state for `v`. */
  function EntrySignal(v: Verdict): Signal {
    match v
    case Incorrect => PlayIncorrectSound
    case Close => PlayCloseSound
    case Correct => PlayCelebrationSound
  }

  /**
   The invariant of every reachable state: the index points at a question, one
   outcome has been recorded per answered question, the result state shows the
   verdict of the latest outcome, and at the end every question is answered.
   */
  predicate Valid(s: State) {
    var c := s.ctx;
    && |c.questions| >= 1
    && c.currentQuestionIndex < |c.questions|
    && (forall i :: 0 <= i < |c.results| ==> WellClassified(c.results[i]))
    && match s.phase
       case AwaitingGuess => |c.results| == c.currentQuestionIndex
       case ShowingResult(v) =>
         |c.results| == c.currentQuestionIndex + 1 && c.results[c.currentQuestionIndex].result == v
       case End =>
         |c.results| == |c.questions| && c.currentQuestionIndex == |c.questions| - 1
  }

  /**
   What the machine itself relies on: the current index names a question (the
   GUESS guards read `questions[currentQuestionIndex].answer`).
   */
  predicate InRange(s: State) {
    s.ctx.currentQuestionIndex < |s.ctx.questions|
  }

  /** The machine's initial state for the given questions. */
  function Initial(questions: seq<Question>): (s: State)
    requires |questions| >= 1
    ensures Valid(s)
    ensures s.phase == AwaitingGuess && s.ctx.currentQuestionIndex == 0
    ensures s.ctx.results == [] && s.ctx.questions == questions
  {
    State(AwaitingGuess, Context(0, questions, []))
  }

  /** Whether phase `p` has a transition for event `e`. */
  predicate Handles(p: Phase, e: Event) {
    (p == AwaitingGuess && e.Guess?) || (p.ShowingResult? && e.Next?)
  }

  /**
   One event. In `question`, GUESS picks its target by the guards of
   gameMachine.tsx (exact match, then distance at most 5, then the rest) and
   records `(answer - value) * -1` with `getResult`'s classification. In a
   result state, NEXT either moves to the next question or ends the session.
   Anything else is ignored.
   */
  function Step(s: State, e: Event): (t: Transition)
    requires InRange(s)
    ensures InRange(t.next)
    ensures t.next.ctx.questions == s.ctx.questions
    ensures s.ctx.currentQuestionIndex <= t.next.ctx.currentQuestionIndex <= s.ctx.currentQuestionIndex + 1
    ensures s.ctx.results <= t.next.ctx.results
    ensures |t.next.ctx.results| == |s.ctx.results| + |t.signals|
    ensures t.signals == if t.next.phase.ShowingResult? && !s.phase.ShowingResult?
                         then [EntrySignal(t.next.phase.verdict)] else []
    ensures !Handles(s.phase, e) ==> t == Transition(s, [])
  {
    var c := s.ctx;
    match e
    case Guess(value) =>
      if s.phase == AwaitingGuess then
        var answer := c.questions[c.currentQuestionIndex].answer;
        var target :=
          if value == answer then Correct
          else if Abs(value - answer) <= CloseThreshold then Close
          else Incorrect;
        var recorded := Outcome((answer - value) * -1, GetResult(value, answer));
        Transition(State(ShowingResult(target), c.(results := c.results + [recorded])), [EntrySignal(target)])
      else
        Transition(s, [])
    case Next =>
      if s.phase.ShowingResult? then
        if c.currentQuestionIndex < |c.questions| - 1 then
          Transition(State(AwaitingGuess, c.(currentQuestionIndex := c.currentQuestionIndex + 1)), [])
        else
          Transition(State(End, c), [])
      else
        Transition(s, [])
  }

  /** A step from a well-formed state reaches a well-formed state. */
  lemma StepKeepsValid(s: State, e: Event)
    requires Valid(s)
    ensures Valid(Step(s, e).next)
  {
  }

  /** GUESS in `question` appends exactly one outcome and shows its verdict. */
  lemma GuessRecordsOutcome(s: State, value: int)
    requires InRange(s) && s.phase == AwaitingGuess
    ensures var answer := s.ctx.questions[s.ctx.currentQuestionIndex].answer;
            var t := Step(s, Guess(value));
            && t.next.ctx.results == s.ctx.results + [Outcome(value - answer, GetResult(value, answer))]
            && t.next.ctx.currentQuestionIndex == s.ctx.currentQuestionIndex
            && t.next.phase == ShowingResult(GetResult(value, answer))
            && t.signals == [EntrySignal(GetResult(value, answer))]
  {
  }

  /** NEXT in a result state advances to the next question, or ends after the last one. */
  lemma NextAdvancesOrEnds(s: State)
    requires InRange(s) && s.phase.ShowingResult?
    ensures var t := Step(s, Next);
            && t.signals == []
            && t.next.ctx.results == s.ctx.results
            && (s.ctx.currentQuestionIndex < |s.ctx.questions| - 1 ==>
                  t.next.phase == AwaitingGuess
                  && t.next.ctx.currentQuestionIndex == s.ctx.currentQuestionIndex + 1)
            && (s.ctx.currentQuestionIndex == |s.ctx.questions| - 1 ==>
                  t.next.phase == End && t.next.ctx == s.ctx)
  {
  }

  /** Several events in order; the signals of each step are concatenated. */
  function Run(s: State, es: seq<Event>): (t: Transition)
    requires InRange(s)
    ensures InRange(t.next)
    decreases |es|
  {
    if es == [] then Transition(s, [])
    else
      var first := Step(s, es[0]);
      var rest := Run(first.next, es[1..]);
      Transition(rest.next, first.signals + rest.signals)
  }

  /** No sequence of events leads a well-formed state out of the invariant. */
  lemma {:induction false} RunKeepsValid(s: State, es: seq<Event>)
    requires Valid(s)
    ensures Valid(Run(s, es).next)
    decreases |es|
  {
    if es != [] {
      StepKeepsValid(s, es[0]);
      RunKeepsValid(Step(s, es[0]).next, es[1..]);
    }
  }

  /**
   Over any run the questions stay fixed, the index never decreases, earlier
   outcomes are kept, and each outcome appended came with exactly one sound.
   */
  lemma {:induction false} RunProgress(s: State, es: seq<Event>)
    requires InRange(s)
    ensures var t := Run(s, es);
            && t.next.ctx.questions == s.ctx.questions
            && s.ctx.currentQuestionIndex <= t.next.ctx.currentQuestionIndex
            && s.ctx.results <= t.next.ctx.results
            && |t.next.ctx.results| == |s.ctx.results| + |t.signals|
            && |t.signals| <= |es|
    decreases |es|
  {
    if es != [] {
      RunProgress(Step(s, es[0]).next, es[1..]);
    }
  }

  /**
   Every sound fires for exactly one recorded outcome: the k-th signal of a run
   is the entry sound of the k-th outcome the run appended.
   */
  lemma {:induction false} SignalsMatchOutcomes(s: State, es: seq<Event>)
    requires InRange(s)
    ensures var t := Run(s, es);
            && |t.next.ctx.results| == |s.ctx.results| + |t.signals|
            && forall k :: 0 <= k < |t.signals| ==>
                 t.signals[k] == EntrySignal(t.next.ctx.results[|s.ctx.results| + k].result)
    decreases |es|
  {
    RunProgress(s, es);
    if es != [] {
      var first := Step(s, es[0]);
      var rest := Run(first.next, es[1..]);
      SignalsMatchOutcomes(first.next, es[1..]);
      RunProgress(first.next, es[1..]);
      var t := Run(s, es);
      assert t == Transition(rest.next, first.signals + rest.signals);
      forall k | 0 <= k < |t.signals|
        ensures t.signals[k] == EntrySignal(t.next.ctx.results[|s.ctx.results| + k].result)
      {
        if k < |first.signals| {
          assert first.next.phase.ShowingResult?;
          assert first.next.ctx.results[|s.ctx.results|] == t.next.ctx.results[|s.ctx.results|];
        } else {
          assert t.signals[k] == rest.signals[k - |first.signals|];
        }
      }
    }
  }

  /** Running a single event is one step. */
  lemma RunSingle(s: State, e: Event)
    requires InRange(s)
    ensures Run(s, [e]) == Step(s, e)
  {
    assert [e][1..] == [];
    assert Step(s, e).signals + [] == Step(s, e).signals;
  }

  /** A non-empty run is its first step followed by the run of the rest. */
  lemma RunUnfold(s: State, es: seq<Event>)
    requires InRange(s) && es != []
    ensures var first := Step(s, es[0]);
            var rest := Run(first.next, es[1..]);
            Run(s, es) == Transition(rest.next, first.signals + rest.signals)
  {
  }

  /** Running `a + b` is running `a`, then `b` from where `a` stopped. */
  lemma {:induction false} RunAppend(s: State, a: seq<Event>, b: seq<Event>)
    requires InRange(s)
    ensures var ta := Run(s, a);
            var tb := Run(ta.next, b);
            Run(s, a + b) == Transition(tb.next, ta.signals + tb.signals)
    decreases |a|
  {
    if a == [] {
      assert a + b == b;
    } else {
      var first := Step(s, a[0]);
      var ra := Run(first.next, a[1..]);
      var rb := Run(ra.next, b);
      var rab := Run(first.next, a[1..] + b);
      assert rab == Transition(rb.next, ra.signals + rb.signals) by {
        RunAppend(first.next, a[1..], b);
      }
      assert Run(s, a + b) == Transition(rab.next, first.signals + rab.signals) by {
        assert (a + b)[0] == a[0] && (a + b)[1..] == a[1..] + b;
        RunUnfold(s, a + b);
      }
      assert Run(s, a) == Transition(ra.next, first.signals + ra.signals) by {
        RunUnfold(s, a);
      }
      assert first.signals + (ra.signals + rb.signals) == (first.signals + ra.signals) + rb.signals;
    }
  }

  /** `end` is final: no sequence of events changes it or fires a signal. */
  lemma {:induction false} EndIsFinal(s: State, es: seq<Event>)
    requires InRange(s) && s.phase == End
    ensures Run(s, es) == Transition(s, [])
    decreases |es|
  {
    if es != [] {
      EndIsFinal(s, es[1..]);
    }
  }

  /** Events the current phase has no transition for are dropped without effect. */
  lemma {:induction false} IgnoredEventsHaveNoEffect(s: State, es: seq<Event>)
    requires InRange(s)
    requires forall k :: 0 <= k < |es| ==> !Handles(s.phase, es[k])
    ensures Run(s, es) == Transition(s, [])
    decreases |es|
  {
    if es != [] {
      IgnoredEventsHaveNoEffect(s, es[1..]);
    }
  }

  /** The events of a play-through in which `guesses[i]` is guessed for question `i`. */
  function Answers(guesses: seq<int>): seq<Event> {
    if guesses == [] then [] else [Guess(guesses[0]), Next] + Answers(guesses[1..])
  }

  /** The outcomes the guesses earn against the questions, pairwise. */
  function Graded(questions: seq<Question>, guesses: seq<int>): (rs: seq<Outcome>)
    requires |questions| == |guesses|
  {
    seq(|guesses|, i requires 0 <= i < |guesses| =>
      Outcome(guesses[i] - questions[i].answer, GetResult(guesses[i], questions[i].answer)))
  }

  /** One question answered with `value`, then NEXT pressed. */
  lemma AnswerOne(s: State, value: int)
    requires InRange(s) && s.phase == AwaitingGuess
    ensures var c := s.ctx;
            var answer := c.questions[c.currentQuestionIndex].answer;
            var c' := c.(results := c.results + [Outcome(value - answer, GetResult(value, answer))]);
            Run(s, [Guess(value), Next]).next ==
              if c.currentQuestionIndex < |c.questions| - 1
              then State(AwaitingGuess, c'.(currentQuestionIndex := c.currentQuestionIndex + 1))
              else State(End, c')
  {
    var t1 := Step(s, Guess(value));
    GuessRecordsOutcome(s, value);
    NextAdvancesOrEnds(t1.next);
    assert [Guess(value), Next][1..] == [Next];
    assert [Next][1..] == [];
  }

  /** The first pair of answers, then the rest from where it left the session. */
  lemma AnswerThenContinue(s: State, guesses: seq<int>)
    requires InRange(s) && guesses != []
    ensures Run(s, Answers(guesses)).next
              == Run(Run(s, [Guess(guesses[0]), Next]).next, Answers(guesses[1..])).next
  {
    assert Answers(guesses) == [Guess(guesses[0]), Next] + Answers(guesses[1..]);
    RunAppend(s, [Guess(guesses[0]), Next], Answers(guesses[1..]));
  }

  /** Grading splits off the first question and guess. */
  lemma GradedCons(questions: seq<Question>, guesses: seq<int>)
    requires |questions| == |guesses| && guesses != []
    ensures Graded(questions, guesses)
              == [Outcome(guesses[0] - questions[0].answer, GetResult(guesses[0], questions[0].answer))]
                 + Graded(questions[1..], guesses[1..])
  {
  }

  /** Answering every remaining question and pressing NEXT after each ends the session. */
  lemma {:induction false} PlayThroughEnds(s: State, guesses: seq<int>)
    requires InRange(s) && s.phase == AwaitingGuess
    requires |guesses| == |s.ctx.questions| - s.ctx.currentQuestionIndex
    ensures Run(s, Answers(guesses)).next.phase == End
    decreases |guesses|
  {
    AnswerThenContinue(s, guesses);
    AnswerOne(s, guesses[0]);
    var mid := Run(s, [Guess(guesses[0]), Next]).next;
    if |guesses| == 1 {
      EndIsFinal(mid, Answers(guesses[1..]));
    } else {
      PlayThroughEnds(mid, guesses[1..]);
    }
  }

  /** ... and appends the remaining questions' outcomes, in question order. */
  lemma {:induction false} PlayThroughFrom(s: State, guesses: seq<int>)
    requires InRange(s) && s.phase == AwaitingGuess
    requires |guesses| == |s.ctx.questions| - s.ctx.currentQuestionIndex
    ensures Run(s, Answers(guesses)).next.ctx.results
              == s.ctx.results + Graded(s.ctx.questions[s.ctx.currentQuestionIndex..], guesses)
    decreases |guesses|
  {
    var c := s.ctx;
    var tail := c.questions[c.currentQuestionIndex..];
    AnswerThenContinue(s, guesses);
    AnswerOne(s, guesses[0]);
    GradedCons(tail, guesses);
    var mid := Run(s, [Guess(guesses[0]), Next]).next;
    var first := Graded(tail, guesses)[..1];
    assert mid.ctx.results == c.results + first;
    if |guesses| == 1 {
      EndIsFinal(mid, Answers(guesses[1..]));
      assert Graded(tail, guesses) == first;
    } else {
      PlayThroughFrom(mid, guesses[1..]);
      assert tail[1..] == c.questions[c.currentQuestionIndex + 1..];
      var rest := Graded(tail[1..], guesses[1..]);
      assert Run(s, Answers(guesses)).next.ctx.results == (c.results + first) + rest;
      assert (c.results + first) + rest == c.results + (first + rest);
    }
  }

  /**
   A full session: guessing `guesses[i]` for question `i` and pressing NEXT after
   each reaches `end` with one outcome per question, in question order, and one
   sound per outcome.
   */
  lemma PlayThrough(questions: seq<Question>, guesses: seq<int>)
    requires |questions| >= 1 && |guesses| == |questions|
    ensures var t := Run(Initial(questions), Answers(guesses));
            && t.next.phase == End
            && t.next.ctx.results == Graded(questions, guesses)
            && |t.signals| == |questions|
            && forall i :: 0 <= i < |questions| ==>
                 t.signals[i] == EntrySignal(GetResult(guesses[i], questions[i].answer))
  {
    PlayThroughEnds(Initial(questions), guesses);
    PlayThroughFrom(Initial(questions), guesses);
    SignalsMatchOutcomes(Initial(questions), Answers(guesses));
    assert questions[0..] == questions;
  }

  /** The fixed twelve-question quiz of the home page. */
  const StandardQuiz: seq<Question> := [
    Question(25, Some(Square), TopLeft),
    Question(50, Some(FillSquare), BottomCenter),
    Question(100, Some(Circle), Center),
    Question(25, Some(FillSquare), CenterRight),
    Question(50, Some(Square), Center),
    Question(25, Some(Circle), TopCenter),
    Question(75, Some(Square), Center),
    Question(33, Some(FillSquare), Center),
    Question(50, Some(Circle), Center),
    Question(5, Some(FillSquare), CenterLeft),
    Question(5, Some(Square), BottomCenter),
    Question(80, Some(Circle), Center)
  ]

  /** The home-page quiz has twelve questions and starts a well-formed session. */
  lemma StandardQuizStarts()
    ensures |StandardQuiz| == 12
    ensures Valid(Initial(StandardQuiz))
    ensures Initial(StandardQuiz).ctx.questions[0].answer == 25
  {
  }

  /** The boundary cases of the classification rule around an answer of 50. */
  lemma ClassificationBoundaries()
    ensures GetResult(50, 50) == Correct
    ensures GetResult(45, 50) == Close && GetResult(55, 50) == Close
    ensures GetResult(44, 50) == Incorrect && GetResult(56, 50) == Incorrect
  {
  }

  /**
   Two questions answered 50 and 10: guessing 50 is correct, guessing 16 misses
   by 6, and the session then ends.
   */
  lemma TwoQuestionScenario()
    ensures var qs := [Question(50, Some(FillSquare), Center), Question(10, Some(FillSquare), Center)];
            var t := Run(Initial(qs), [Guess(50), Next, Guess(16), Next]);
            && t.next.phase == End
            && t.next.ctx.currentQuestionIndex == 1
            && t.next.ctx.results == [Outcome(0, Correct), Outcome(6, Incorrect)]
            && t.signals == [PlayCelebrationSound, PlayIncorrectSound]
  {
  }

  /** With a single question, one GUESS and one NEXT end the session. */
  lemma SingleQuestionEndsAfterOneNext(q: Question, value: int)
    ensures var t := Run(Initial([q]), [Guess(value), Next]);
            t.next.phase == End && |t.next.ctx.results| == 1
  {
    PlayThrough([q], [value]);
    assert Answers([value]) == [Guess(value), Next] by {
      assert [value][1..] == [];
    }
  }
}
