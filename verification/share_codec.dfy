/**
 The token a custom quiz is shared through. The application writes the list of
 `{s, a, p}` records as JSON and then base64; this model stands in a flat list
 of integers, three per record, for that text. What matters to the rest of the
 model is that decoding an encoded list gives the list back, and that a token
 that is not such an encoding is rejected instead of read.
 */
module ShareCodec {
  import opened Wrappers
  import opened Areas

  /** One shared question `{s, a, p}`: shape code, anchor, percentage. */
  datatype SharedQuestion = SharedQuestion(s: int, a: Anchor, p: int)

  /** Why a token could not be read back into a list of shared questions. */
  datatype DecodeError = TruncatedToken | UnknownAnchor(code: int)

  /** The nine anchors in reading order, top-left first. */
  function AnchorCode(a: Anchor): (n: nat)
    ensures n < 9
  {
    match a
    case TopLeft => 0
    case TopCenter => 1
    case TopRight => 2
    case CenterLeft => 3
    case Center => 4
    case CenterRight => 5
    case BottomLeft => 6
    case BottomCenter => 7
    case BottomRight => 8
  }

  function AnchorOfCode(n: int): (r: Option<Anchor>)
    ensures r.Some? <==> 0 <= n < 9
    ensures r.Some? ==> AnchorCode(r.value) == n
  {
    if n == 0 then Some(TopLeft)
    else if n == 1 then Some(TopCenter)
    else if n == 2 then Some(TopRight)
    else if n == 3 then Some(CenterLeft)
    else if n == 4 then Some(Center)
    else if n == 5 then Some(CenterRight)
    else if n == 6 then Some(BottomLeft)
    else if n == 7 then Some(BottomCenter)
    else if n == 8 then Some(BottomRight)
    else None
  }

  lemma AnchorCodeRoundTrip(a: Anchor)
    ensures AnchorOfCode(AnchorCode(a)) == Some(a)
  {
  }

  function Encode(qs: seq<SharedQuestion>): (token: seq<int>)
    ensures |token| == 3 * |qs|
  {
    if qs == [] then [] else [qs[0].s, AnchorCode(qs[0].a), qs[0].p] + Encode(qs[1..])
  }

  function Decode(token: seq<int>): (r: Result<seq<SharedQuestion>, DecodeError>)
    ensures r.Success? ==> |token| == 3 * |r.value|
    ensures |token| % 3 != 0 ==> r.Failure?
    decreases |token|
  {
    if token == [] then Success([])
    else if |token| < 3 then Failure(TruncatedToken)
    else
      match AnchorOfCode(token[1])
      case None => Failure(UnknownAnchor(token[1]))
      case Some(a) =>
        match Decode(token[3..])
        case Failure(e) => Failure(e)
        case Success(rest) => Success([SharedQuestion(token[0], a, token[2])] + rest)
  }

  /** Decoding an encoded list gives back the same list, in the same order. */
  lemma {:induction false} DecodeEncode(qs: seq<SharedQuestion>)
    ensures Decode(Encode(qs)) == Success(qs)
  {
    if qs != [] {
      var token := Encode(qs);
      assert token[3..] == Encode(qs[1..]);
      AnchorCodeRoundTrip(qs[0].a);
      DecodeEncode(qs[1..]);
      assert qs == [qs[0]] + qs[1..];
    }
  }

  /** Decoding is one-to-one on what it accepts: a readable token is the encoding of what it reads as. */
  lemma {:induction false} EncodeDecode(token: seq<int>)
    requires Decode(token).Success?
    ensures Encode(Decode(token).value) == token
    decreases |token|
  {
    if token != [] {
      EncodeDecode(token[3..]);
      var qs := Decode(token).value;
      assert qs[1..] == Decode(token[3..]).value;
      assert token == token[..3] + token[3..];
    }
  }
}
