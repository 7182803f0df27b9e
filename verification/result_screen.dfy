/**
 The end-of-session screen: one tile per answered question, each showing the
 signed diff in the colour of its verdict, and the total score, which is the
 sum of the absolute diffs (lower is better).
 */
module ResultScreen {
  import opened Wrappers
  import opened Areas
  import opened GameMachine

  /** Reference definition of the score: the sum of `|diff|`, accumulated from the left. */
  function SumAbs(rs: seq<Outcome>): nat {
    if rs == [] then 0 else SumAbs(rs[..|rs| - 1]) + Abs(rs[|rs| - 1].diff)
  }

  /** `results.reduce((acc, r) => acc + Math.abs(r.diff), 0)`. */
  method Score(results: seq<Outcome>) returns (score: int)
    ensures score == SumAbs(results)
    ensures score >= 0
  {
    score := 0;
    var i := 0;
    while i < |results|
      invariant 0 <= i <= |results|
      invariant score == SumAbs(results[..i])
    {
      assert results[..i + 1][..i] == results[..i];
      score := score + Abs(results[i].diff);
      i := i + 1;
    }
    assert results[..|results|] == results;
  }

  /** The score is zero exactly when every guess hit its answer exactly. */
  lemma {:induction false} ScoreZeroIffAllExact(rs: seq<Outcome>)
    ensures SumAbs(rs) == 0 <==> forall i :: 0 <= i < |rs| ==> rs[i].diff == 0
  {
    if rs != [] {
      var init := rs[..|rs| - 1];
      ScoreZeroIffAllExact(init);
      assert forall i :: 0 <= i < |init| ==> init[i] == rs[i];
    }
  }

  /** At the end of a session the score is zero exactly when every verdict is `correct`. */
  lemma FinalScoreZeroIffAllCorrect(s: State)
    requires Valid(s) && s.phase == End
    ensures SumAbs(s.ctx.results) == 0 <==>
              forall i :: 0 <= i < |s.ctx.results| ==> s.ctx.results[i].result == Correct
  {
    ScoreZeroIffAllExact(s.ctx.results);
  }

  /** Guessing every answer exactly ends the session with a score of zero. */
  lemma PerfectPlayScoresZero(questions: seq<Question>)
    requires |questions| >= 1
    ensures var exact := seq(|questions|, i requires 0 <= i < |questions| => questions[i].answer);
            var t := Run(Initial(questions), Answers(exact));
            t.next.phase == End && SumAbs(t.next.ctx.results) == 0
  {
    var exact := seq(|questions|, i requires 0 <= i < |questions| => questions[i].answer);
    PlayThrough(questions, exact);
    ScoreZeroIffAllExact(Run(Initial(questions), Answers(exact)).next.ctx.results);
  }

  /** The two-question session that guesses 50 for 50 and 16 for 10 scores 0 + 6. */
  lemma TwoQuestionScenarioScore()
    ensures var qs := [Question(50, Some(FillSquare), Center), Question(10, Some(FillSquare), Center)];
            SumAbs(Run(Initial(qs), [Guess(50), Next, Guess(16), Next]).next.ctx.results) == 6
  {
    TwoQuestionScenario();
    var rs := [Outcome(0, Correct), Outcome(6, Incorrect)];
    assert rs[..1] == [Outcome(0, Correct)];
    assert rs[..1][..0] == [];
  }

  /** A diff as displayed: a sign prefix followed by the magnitude. */
  datatype SignedLabel = SignedLabel(prefix: string, magnitude: nat)

  /** `{r.diff > 0 ? '+' : r.diff < 0 ? '-' : ''}{Math.abs(r.diff)}`. */
  function DiffLabel(diff: int): (l: SignedLabel)
    ensures l.prefix == "+" <==> diff > 0
    ensures l.prefix == "-" <==> diff < 0
    ensures l.prefix == "" <==> diff == 0
    ensures l.magnitude == Abs(diff)
  {
    SignedLabel(if diff > 0 then "+" else if diff < 0 then "-" else "", Abs(diff))
  }

  /** Reading a label back as a number. */
  function LabelValue(l: SignedLabel): int {
    if l.prefix == "-" then -(l.magnitude as int) else l.magnitude
  }

  /** The label loses nothing: the diff can be read back from it. */
  lemma DiffLabelRoundTrip(diff: int)
    ensures LabelValue(DiffLabel(diff)) == diff
  {
  }

  /** Distinct diffs are displayed differently. */
  lemma DiffLabelInjective(d1: int, d2: int)
    requires DiffLabel(d1) == DiffLabel(d2)
    ensures d1 == d2
  {
  }

  /** The conditional classes of a tile that are switched on, in declaration order. */
  function ColourClasses(v: Verdict): (cs: seq<string>)
    ensures |cs| == 1
  {
    (if v == Incorrect then ["text-red-600"] else [])
    + (if v == Close then ["text-yellow-400"] else [])
    + (if v == Correct then ["text-green-600 text-4xl"] else [])
  }

  /** Each verdict has its own colour, so the colour tells the verdict. */
  lemma ColourIdentifiesVerdict(v1: Verdict, v2: Verdict)
    requires ColourClasses(v1) == ColourClasses(v2)
    ensures v1 == v2
  {
    var c := ColourClasses(v1)[0];
    assert c == ColourClasses(v2)[0];
    assert c == "text-red-600" <==> v1 == Incorrect;
    assert c == "text-yellow-400" <==> v1 == Close;
  }

  /** One result tile: the question drawn with its answer, and the outcome over it. */
  datatype Tile = Tile(question: Question, outcome: Outcome)

  /**
   `results.map((r, i) => ... questions[i] ...)`: the screen is shown only at
   the end, where every question has exactly one outcome, so `questions[i]`
   is always defined.
   */
  function Tiles(s: State): (ts: seq<Tile>)
    requires Valid(s) && s.phase == End
    ensures |ts| == |s.ctx.questions|
    ensures forall i :: 0 <= i < |ts| ==> ts[i].question == s.ctx.questions[i]
    ensures forall i :: 0 <= i < |ts| ==> ts[i].outcome == s.ctx.results[i]
  {
    seq(|s.ctx.results|, i requires 0 <= i < |s.ctx.results| => Tile(s.ctx.questions[i], s.ctx.results[i]))
  }
}
