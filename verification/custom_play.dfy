/**
 Playing a shared custom quiz: the token from the link is decoded and each
 `{s, a, p}` record becomes a machine question whose answer is `p`, whose
 anchor is `a` and whose component is the shape named by `s`.
 */
module CustomPlay {
  import opened Wrappers
  import opened Areas
  import opened ShareCodec
  import opened GameMachine
  import opened CustomEditor

  /** The mapping `q => ({ answer: q.p, component: customQuestionToComponentMap[q.s], anchor: q.a })`. */
  function ToQuestion(w: SharedQuestion): (q: Question)
    ensures q.answer == w.p && q.anchor == w.a
    ensures q.component == ShapeForCode(w.s)
  {
    Question(w.p, ShapeForCode(w.s), w.a)
  }

  /** `parseCustomQuestions`: decode, then map every record, keeping length and order. */
  function ParseCustomQuestions(token: seq<int>): (r: Result<seq<Question>, DecodeError>)
    ensures Decode(token).Failure? ==> r == Failure(Decode(token).error)
    ensures Decode(token).Success? ==>
              && r.Success?
              && |r.value| == |Decode(token).value|
              && forall i :: 0 <= i < |r.value| ==> r.value[i] == ToQuestion(Decode(token).value[i])
  {
    match Decode(token)
    case Failure(e) => Failure(e)
    case Success(records) =>
      Success(seq(|records|, i requires 0 <= i < |records| => ToQuestion(records[i])))
  }

  /**
   A quiz built in the editor comes back from its share link entry by entry:
   answer `p`, anchor `a`, and the shape its code names (never missing, since
   the editor only produces codes 1 to 3).
   */
  lemma SharedQuizRoundTrip(qs: seq<EditorQuestion>)
    ensures var r := ParseCustomQuestions(Encode(Project(qs)));
            && r.Success?
            && |r.value| == |qs|
            && forall i :: 0 <= i < |qs| ==>
                 && r.value[i].answer == qs[i].p
                 && r.value[i].anchor == qs[i].a
                 && r.value[i].component == ShapeForCode(qs[i].s)
                 && r.value[i].component.Some?
  {
    DecodeEncode(Project(qs));
  }

  /** A link the editor offers always opens a playable quiz of four to twelve questions. */
  lemma SharedLinkStartsSession(qs: seq<EditorQuestion>)
    requires |qs| <= MaxQuestions
    requires ShareLink(qs).Some?
    ensures var r := ParseCustomQuestions(ShareLink(qs).value);
            && r.Success?
            && MinSharedQuestions <= |r.value| <= MaxQuestions
            && Valid(Initial(r.value))
  {
  }
}
