/**
 The custom-quiz editor: a list of up to twelve questions, each with a shape
 code, an anchor, a percentage and an identifier. Questions are appended,
 removed by position and edited in place; once there are at least four, the
 list can be shared as a token of `{s, a, p}` records.
 */
module CustomEditor {
  import opened Wrappers
  import opened Areas
  import opened ShareCodec

  /** The shape codes the editor cycles through: 1 square, 2 fill-square, 3 circle. */
  type ShapeCode = s: int | 1 <= s <= 3 witness 1

  /** An editor entry; `id` is the random key drawn when the entry is added. */
  datatype EditorQuestion = EditorQuestion(s: ShapeCode, a: Anchor, p: int, id: string)

  /** Adding is disabled once the list holds this many questions. */
  const MaxQuestions := 12

  /** The share link is offered only from this many questions on. */
  const MinSharedQuestions := 4

  /** `addQuestion`: a square at 50 percent, anchored at the centre, goes to the end. */
  function AddQuestion(qs: seq<EditorQuestion>, id: string): (r: seq<EditorQuestion>)
    ensures |r| == |qs| + 1
    ensures r[..|qs|] == qs
    ensures r[|qs|] == EditorQuestion(1, Center, 50, id)
  {
    qs + [EditorQuestion(1, Center, 50, id)]
  }

  /**
   `removeQuestion`: `qs.filter((_, i) => i !== index)`, walked from the front
   as `filter` does. An index that names no entry removes nothing.
   */
  function RemoveQuestion(qs: seq<EditorQuestion>, index: int): (r: seq<EditorQuestion>)
    ensures 0 <= index < |qs| ==> r == qs[..index] + qs[index + 1..]
    ensures !(0 <= index < |qs|) ==> r == qs
    decreases |qs|
  {
    if qs == [] then []
    else
      var last := |qs| - 1;
      var kept := RemoveQuestion(qs[..last], index);
      assert qs == qs[..last] + [qs[last]];
      assert 0 <= index < last ==> qs[..last][..index] == qs[..index];
      assert 0 <= index < last ==> qs[..last][index + 1..] + [qs[last]] == qs[index + 1..];
      kept + (if last != index then [qs[last]] else [])
  }

  /** Adding a question and then removing it restores the list. */
  lemma RemoveUndoesAdd(qs: seq<EditorQuestion>, id: string)
    ensures RemoveQuestion(AddQuestion(qs, id), |qs|) == qs
  {
  }

  /** The per-entry `onChange`: `qs.map((qq, j) => (i === j ? q : qq))`. */
  function ReplaceAt(qs: seq<EditorQuestion>, index: int, q: EditorQuestion): (r: seq<EditorQuestion>)
    ensures |r| == |qs|
    ensures forall j :: 0 <= j < |qs| && j != index ==> r[j] == qs[j]
    ensures 0 <= index < |qs| ==> r[index] == q
  {
    seq(|qs|, j requires 0 <= j < |qs| => if j == index then q else qs[j])
  }

  /** Writing back an entry unchanged leaves the list as it was. */
  lemma ReplaceWithSameIsIdentity(qs: seq<EditorQuestion>, index: int)
    requires 0 <= index < |qs|
    ensures ReplaceAt(qs, index, qs[index]) == qs
  {
  }

  /** `(s % 3) + 1`: the next shape code in the cycle 1, 2, 3, 1. */
  function NextShape(s: ShapeCode): (r: ShapeCode)
    ensures s < 3 ==> r == s + 1
    ensures s == 3 ==> r == 1
  {
    (s % 3) + 1
  }

  /** Three clicks on a shape bring it back to where it started. */
  lemma NextShapeThriceIsIdentity(s: ShapeCode)
    ensures NextShape(NextShape(NextShape(s))) == s
    ensures NextShape(s) != s
  {
  }

  /** `onAnchorUpdate`: only the anchor changes. */
  function OnAnchorUpdate(q: EditorQuestion, anchor: Anchor): (r: EditorQuestion)
    ensures r.a == anchor
    ensures r.s == q.s && r.p == q.p && r.id == q.id
  {
    q.(a := anchor)
  }

  /** `onPercentageUpdate`: only the percentage changes. */
  function OnPercentageUpdate(q: EditorQuestion, percentage: int): (r: EditorQuestion)
    ensures r.p == percentage
    ensures r.s == q.s && r.a == q.a && r.id == q.id
  {
    q.(p := percentage)
  }

  /** `onNextShape`: only the shape code changes, to the next in the cycle. */
  function OnNextShape(q: EditorQuestion): (r: EditorQuestion)
    ensures r.s == NextShape(q.s)
    ensures r.a == q.a && r.p == q.p && r.id == q.id
  {
    q.(s := NextShape(q.s))
  }

  /** Whether the "Add question" button is enabled. */
  predicate CanAdd(qs: seq<EditorQuestion>) {
    |qs| < MaxQuestions
  }

  function AddButtonText(qs: seq<EditorQuestion>): (text: string)
    ensures text == "Add question" <==> CanAdd(qs)
    ensures text == "Max 12 questions" <==> !CanAdd(qs)
  {
    if |qs| < MaxQuestions then "Add question" else "Max 12 questions"
  }

  /** The share payload: each entry cut down to `{s, a, p}`, in order. */
  function Project(qs: seq<EditorQuestion>): (r: seq<SharedQuestion>)
    ensures |r| == |qs|
    ensures forall i :: 0 <= i < |qs| ==> r[i] == SharedQuestion(qs[i].s, qs[i].a, qs[i].p)
  {
    seq(|qs|, i requires 0 <= i < |qs| => SharedQuestion(qs[i].s, qs[i].a, qs[i].p))
  }

  /** Identifiers play no part in what is shared. */
  lemma ProjectIgnoresIds(qs: seq<EditorQuestion>, ids: seq<string>)
    requires |ids| == |qs|
    ensures Project(seq(|qs|, i requires 0 <= i < |qs| => qs[i].(id := ids[i]))) == Project(qs)
  {
  }

  /** The "Open quiz" link: present only from four questions on, and then carrying the list. */
  function ShareLink(qs: seq<EditorQuestion>): (link: Option<seq<int>>)
    ensures link.Some? <==> |qs| >= MinSharedQuestions
    ensures link.Some? ==> Decode(link.value) == Success(Project(qs))
  {
    if |qs| < MinSharedQuestions then None
    else
      DecodeEncode(Project(qs));
      Some(Encode(Project(qs)))
  }

  function ShareText(qs: seq<EditorQuestion>): (text: string)
    ensures text == "Open quiz" <==> ShareLink(qs).Some?
    ensures text == "Add at least 4 questions to share" <==> ShareLink(qs).None?
  {
    if |qs| < MinSharedQuestions then "Add at least 4 questions to share" else "Open quiz"
  }

  /** What the player can do on the editor screen; `id` stands for the key `nanoid` draws. */
  datatype EditorAction =
    | AddClicked(id: string)
    | RemoveClicked(index: int)
    | ShapeClicked(index: int)
    | AnchorPicked(index: int, anchor: Anchor)
    | PercentageSlid(index: int, percentage: int)

  /**
   One action. A click on the disabled "Add question" button does nothing; an
   edit at a position with no entry does nothing.
   */
  function Apply(qs: seq<EditorQuestion>, act: EditorAction): (r: seq<EditorQuestion>)
    ensures |qs| <= MaxQuestions ==> |r| <= MaxQuestions
    ensures act.AddClicked? ==> (r == qs <==> !CanAdd(qs))
    ensures !act.AddClicked? ==> |r| <= |qs|
  {
    match act
    case AddClicked(id) => if CanAdd(qs) then AddQuestion(qs, id) else qs
    case RemoveClicked(i) => RemoveQuestion(qs, i)
    case ShapeClicked(i) => if 0 <= i < |qs| then ReplaceAt(qs, i, OnNextShape(qs[i])) else qs
    case AnchorPicked(i, a) => if 0 <= i < |qs| then ReplaceAt(qs, i, OnAnchorUpdate(qs[i], a)) else qs
    case PercentageSlid(i, p) => if 0 <= i < |qs| then ReplaceAt(qs, i, OnPercentageUpdate(qs[i], p)) else qs
  }

  function ApplyAll(qs: seq<EditorQuestion>, acts: seq<EditorAction>): (r: seq<EditorQuestion>)
    ensures |qs| <= MaxQuestions ==> |r| <= MaxQuestions
    decreases |acts|
  {
    if acts == [] then qs else ApplyAll(Apply(qs, acts[0]), acts[1..])
  }
}
