# Area quiz — a Dafny model of the quiz session and its screens

The area quiz shows a shape with part of it filled and asks the player to
guess the filled percentage with a slider. At its centre is a small state
machine (`gameMachine`). It holds a fixed, non-empty list of questions, the
index of the current question and the list of recorded outcomes. It has five
states: `question`, the three result states `incorrect`, `close` and
`correct`, and the final `end`. It reacts to `GUESS(value)` and `NEXT`.

Around the machine sit four smaller pieces of pure logic, and the model covers
them too:

- the result screen, which shows the score and one signed diff per question;
- the play screen, which decides the event a click sends, the button label,
  the progress counter and the deviation it reveals;
- the custom-quiz editor, which appends, removes and edits questions, keeps
  at most twelve, and shares a quiz once it has four;
- the decoder, which turns a shared quiz back into machine questions.

Modules, one per source component, plus two shared ones (`Wrappers` for the
result types and `ShareCodec` for the share token, which stands in for the
`btoa(JSON.stringify(...))` text):

- `Wrappers` defines `Option` and `Result`.
- `Areas` defines the shape and anchor enumerations and the shape-code lookup
  of `app/utils.ts`.
- `GameMachine` is the machine. `Step : (State, Event) -> Transition`
  returns the next state and the entry sounds it triggered, as `Signal`
  values. `Run` folds `Step` over a list of events.
- `ResultScreen` covers the score, diff labels, tile colours and the pairing
  of outcomes with questions.
- `PlayScreen` covers click dispatch, labels, progress and the deviation. It
  also has a screen model (machine state plus slider percentage) whose
  invariant ties the shown deviation to the recorded diff.
- `ShareCodec` encodes and decodes the shared `{s, a, p}` records.
- `CustomEditor` covers the editor's list operations, limits and share link.
- `CustomPlay` is `parseCustomQuestions`.

Environment and I/O are parameters:

- The slider value is the `percentage` argument.
- The identifier `nanoid` draws is the `id` argument of an editor action.
- Sounds are `Signal` values.
- The shared token is a value passed in, not read from the URL.

JavaScript numbers are modelled as unbounded integers. The slider reports
`Math.floor` of its position, so guesses are whole numbers. Every value
involved is far below the range where doubles lose integer precision.

The machine has no guard against an empty question list. Its first GUESS
reads `questions[0].answer`. So the model makes a non-empty list a
precondition of `Initial` and does not add an error the code never raises.
`Step` and `Run` ask only that the current index names a question
(`InRange`), which is what the GUESS guards read. The full invariant `Valid`
is carried by `StepKeepsValid` and `RunKeepsValid`. The editor only offers a share link from four questions on, so every
quiz that reaches the machine through the app is non-empty
(`CustomPlay.SharedLinkStartsSession`).

The recorded diff is written `(answer - value) * -1` in the source. The model
keeps that expression in `Step` and states the result as `value - answer`, so
a positive diff means the guess was too high.

## Model

| member | source | states |
|---|---|---|
| `Areas.ShapeForCode` | app/utils.ts:9-13 | Codes 1, 2, 3 map to Square, FillSquare, Circle. Every other code gives no component. |
| `GameMachine.GetResult` | app/routes/gameMachine.tsx:126-130 | `correct` iff the guess equals the answer. `close` iff they differ by at most 5 (5 itself is close). `incorrect` iff they differ by more than 5. |
| `GameMachine.ClassificationBoundaries` | app/routes/gameMachine.tsx:126-130 | Against answer 50: guess 50 is correct, 45 and 55 are close, 44 and 56 are incorrect. |
| `GameMachine.Initial` | app/routes/gameMachine.tsx:42-46 | A session starts in `question` at index 0 with no results and exactly the given questions. That state satisfies the machine invariant. |
| `GameMachine.Step` | app/routes/gameMachine.tsx:47-123 | The index keeps naming a question. Questions never change. The index never decreases and grows by at most one. Earlier outcomes are kept, and one outcome is appended per sound fired. One sound fires exactly when a result state is entered, and it is that state's sound. An event the phase has no transition for leaves the state unchanged and fires nothing. |
| `GameMachine.StepKeepsValid` | app/routes/gameMachine.tsx:47-123 | Every event preserves the invariant: index in range; `|results|` is the index in `question`, index + 1 in a result state, and `|questions|` at `end`; the last outcome in a result state carries that state's verdict; each outcome's verdict agrees with its diff. |
| `GameMachine.GuessRecordsOutcome` | app/routes/gameMachine.tsx:22-34 | GUESS in `question` appends one outcome with diff = guess − answer and `getResult`'s verdict. Earlier results and the index are unchanged. The target state is that same verdict. |
| `GameMachine.NextAdvancesOrEnds` | app/routes/gameMachine.tsx:76-86 | NEXT in a result state keeps the results and fires nothing. Before the last question it moves to `question` at index + 1. At the last question it moves to `end` with the context unchanged. |
| `GameMachine.Run` | app/routes/gameMachine.tsx:10-124 | From a state whose index names a question, any sequence of events ends in such a state. |
| `GameMachine.RunKeepsValid` | app/routes/gameMachine.tsx:10-124 | Any sequence of events from a state satisfying the invariant ends in a state satisfying it. |
| `GameMachine.RunProgress` | app/routes/gameMachine.tsx:19-34 | Over any run the questions are fixed, the index does not decrease and old results are a prefix of new ones. The number of appended outcomes equals the number of sounds fired, which is at most the number of events. |
| `GameMachine.SignalsMatchOutcomes` | app/routes/gameMachine.tsx:72-106 | The k-th sound of a run is the entry sound of the k-th outcome the run recorded. |
| `GameMachine.EndIsFinal` | app/routes/gameMachine.tsx:120-122 | From `end`, no sequence of events changes the state or fires a sound. |
| `GameMachine.IgnoredEventsHaveNoEffect` | app/routes/gameMachine.tsx:48-119 | A run made only of events the current phase has no transition for changes nothing and fires nothing. |
| `GameMachine.PlayThrough` | app/routes/gameMachine.tsx:47-123 | Guessing `g[i]` for question `i` and pressing NEXT after each reaches `end`. The results are exactly `(g[i] − answer[i], getResult(g[i], answer[i]))` in question order, with one matching sound per question. |
| `GameMachine.EntrySignal` | app/routes/gameMachine.tsx:73 | Defines the entry sound of each result state: the miss sound for `incorrect` (line 73), the close sound for `close` (line 89), the celebration for `correct` (line 105). |
| `GameMachine.Handles` | app/routes/gameMachine.tsx:48-119 | Defines which events have a transition: GUESS in `question`, NEXT in the three result states, nothing at `end`. |
| `GameMachine.StandardQuizStarts` | app/routes/_index.tsx:37-50 | The home page's fixed list `GameMachine.StandardQuiz` has twelve questions, the first with answer 25, and a session started on it satisfies the machine invariant. |
| `GameMachine.TwoQuestionScenario` | app/routes/gameMachine.tsx:50-118 | With answers 50 and 10, the events GUESS 50, NEXT, GUESS 16, NEXT end with results `[(0, correct), (6, incorrect)]` and the celebration then miss sounds. |
| `GameMachine.SingleQuestionEndsAfterOneNext` | app/routes/gameMachine.tsx:76-86 | With one question, one GUESS and one NEXT reach `end` with one result. |
| `ResultScreen.Score` | app/Result.tsx:124 | The left fold `acc + |diff|` equals the sum of absolute diffs and is never negative. |
| `ResultScreen.ScoreZeroIffAllExact` | app/Result.tsx:124 | The score is 0 iff every diff is 0. |
| `ResultScreen.FinalScoreZeroIffAllCorrect` | app/Result.tsx:121-126 | At `end`, the score is 0 iff every result is `correct`. |
| `ResultScreen.PerfectPlayScoresZero` | app/Result.tsx:121-126 | Guessing every answer exactly ends the session with score 0. |
| `ResultScreen.TwoQuestionScenarioScore` | app/Result.tsx:124 | The two-question session above (guesses 50 and 16 against answers 50 and 10) scores 6. |
| `ResultScreen.DiffLabel` | app/Result.tsx:106-107 | The prefix is `+` iff diff > 0, `-` iff diff < 0, and empty iff diff = 0. The number shown is `|diff|`. |
| `ResultScreen.DiffLabelRoundTrip` | app/Result.tsx:106-107 | The diff can be read back from its prefix and magnitude. |
| `ResultScreen.DiffLabelInjective` | app/Result.tsx:106-107 | Different diffs get different labels. |
| `ResultScreen.ColourClasses` | app/Result.tsx:99-103 | Exactly one colour class is on for each result, chosen by its verdict alone. |
| `ResultScreen.ColourIdentifiesVerdict` | app/Result.tsx:99-103 | Different verdicts get different colours. |
| `ResultScreen.Tiles` | app/Result.tsx:78-80 | At `end` there is one tile per question, and tile `i` pairs `questions[i]` with `results[i]`. The index is always in bounds. |
| `PlayScreen.LastQuestionIffNextEnds` | app/Play.tsx:30 | In a result state, `isLastQuestion` holds iff NEXT will end the session. |
| `PlayScreen.ClickEvents` | app/Play.tsx:32-40 | A click sends at most one event: `GUESS(percentage)` iff in `question`, and `NEXT` iff in a result state or `end`. |
| `PlayScreen.ClickIsHandledBeforeEnd` | app/Play.tsx:32-40 | Before `end`, every click sends exactly one event and the machine has a transition for it. |
| `PlayScreen.ButtonLabel` | app/Play.tsx:114-116 | `Guess` iff in `question`. `Next` iff in a result state and not last. `Show my score..` iff in a result state and last. Empty iff at `end`. |
| `PlayScreen.Progress` | app/Play.tsx:56 | The first number shown is `index + 1` and the second is `|questions|`. The first is between 1 and the total, and equals the total iff on the last question. |
| `PlayScreen.ProgressCountsAnswers` | app/Play.tsx:56 | In a well-formed state the counter is one past the number of recorded outcomes while a guess is awaited, equals that number once a result is shown, and equals the total at `end`. |
| `PlayScreen.IsLastQuestion` | app/Play.tsx:30 | Defines `isLastQuestion`: the index is at or past the last position of the question list. |
| `PlayScreen.Revealed` | app/Play.tsx:67 | Defines when the answer (line 67) and the deviation (line 83) are visible: in a result state (tag `result`) other than `correct`. |
| `PlayScreen.Deviation` | app/Play.tsx:81-88 | The sign is `+` iff the percentage is above the answer, else `-`. The magnitude is `|answer − percentage|`. |
| `PlayScreen.SliderValue` | app/Play.tsx:101-105 | The slider changes the percentage only in `question`. Otherwise the value is kept. |
| `PlayScreen.StartScreen` | app/Play.tsx:26-27 | A fresh screen (slider at 50, initial machine) satisfies the screen invariant. |
| `PlayScreen.Interact` | app/Play.tsx:32-40 | A click or a slide keeps the screen invariant: while a result is shown, the percentage is the guess behind the latest diff. The questions do not change, and outside `question` the percentage does not change. |
| `PlayScreen.InteractAll` | app/Play.tsx:101-104 | The screen invariant holds after any sequence of clicks and slides. |
| `PlayScreen.DeviationMatchesRecordedDiff` | app/Play.tsx:81-88 | Whenever the deviation is revealed (a result other than `correct`), its sign and magnitude are those of the recorded diff. |
| `ShareCodec.AnchorCode` | app/routes/custom.tsx:37 | The anchor as it goes into the token: each of the nine anchors gets its own code below 9. The 0–8 numbering belongs to the integer-token stand-in; the application writes the anchor's name. |
| `ShareCodec.AnchorOfCode` | app/routes/custom_.p.tsx:17 | The anchor as it comes out of the token: codes 0–8 name the nine anchors, each anchor is found from its own code, and any other code names none. The numbering belongs to the integer-token stand-in. |
| `ShareCodec.AnchorCodeRoundTrip` | app/routes/custom_.p.tsx:17 | Every anchor is recovered from its code. |
| `ShareCodec.Encode` | app/routes/custom.tsx:37 | A list of n records becomes a token of 3n numbers. |
| `ShareCodec.Decode` | app/routes/custom_.p.tsx:17 | A token is read only if its length is a multiple of 3, giving a third as many records. |
| `ShareCodec.DecodeEncode` | app/routes/custom.tsx:37 | Decoding an encoded list returns the same list. |
| `ShareCodec.EncodeDecode` | app/routes/custom_.p.tsx:17 | A token that decodes is the encoding of what it decodes to. |
| `CustomEditor.AddQuestion` | app/routes/custom.tsx:28-30 | Appends `{s: 1, a: center, p: 50}` with the given id. The length grows by one and the existing entries are unchanged. |
| `CustomEditor.RemoveQuestion` | app/routes/custom.tsx:32-35 | For a valid index, the result is the list without exactly that entry, others in order. Any other index leaves the list unchanged. |
| `CustomEditor.RemoveUndoesAdd` | app/routes/custom.tsx:28-35 | Removing the entry just added restores the list. |
| `CustomEditor.ReplaceAt` | app/routes/custom.tsx:55 | Only entry `i` is replaced. The length and every other entry are unchanged. |
| `CustomEditor.ReplaceWithSameIsIdentity` | app/routes/custom.tsx:55 | Writing an entry back unchanged leaves the list as it was. |
| `CustomEditor.NextShape` | app/routes/custom.tsx:121 | `(s % 3) + 1` stays in 1..3 and cycles 1→2→3→1. |
| `CustomEditor.NextShapeThriceIsIdentity` | app/routes/custom.tsx:121 | Three shape clicks restore the shape, and one click always changes it. |
| `CustomEditor.OnAnchorUpdate` | app/routes/custom.tsx:118 | Sets the anchor. Shape, percentage and id are kept. |
| `CustomEditor.OnPercentageUpdate` | app/routes/custom.tsx:120 | Sets the percentage. Shape, anchor and id are kept. |
| `CustomEditor.OnNextShape` | app/routes/custom.tsx:121 | Advances the shape code. Anchor, percentage and id are kept. |
| `CustomEditor.CanAdd` | app/routes/custom.tsx:77 | Defines when the add button is enabled: fewer than 12 questions. |
| `CustomEditor.AddButtonText` | app/routes/custom.tsx:77-82 | "Add question" iff adding is enabled (fewer than 12), otherwise "Max 12 questions". |
| `CustomEditor.Project` | app/routes/custom.tsx:37 | The share payload keeps length and order, and carries each entry's `s`, `a`, `p`. |
| `CustomEditor.ProjectIgnoresIds` | app/routes/custom.tsx:37 | Changing ids does not change the payload. |
| `CustomEditor.ShareLink` | app/routes/custom.tsx:88 | The link exists iff there are at least 4 questions. Its token decodes to the projected list. |
| `CustomEditor.ShareText` | app/routes/custom.tsx:98 | "Open quiz" iff the link exists, otherwise "Add at least 4 questions to share". |
| `CustomEditor.Apply` | app/routes/custom.tsx:51-58 | No editor action takes a list of at most 12 past 12. A click on "Add question" changes the list iff adding is enabled. Removals and edits never lengthen the list. |
| `CustomEditor.ApplyAll` | app/routes/custom.tsx:77 | Any sequence of editor actions keeps a list of at most 12 at most 12. |
| `CustomPlay.ToQuestion` | app/routes/custom_.p.tsx:18 | answer = `p`, anchor = `a`, component = the shape looked up for `s`. |
| `CustomPlay.ParseCustomQuestions` | app/routes/custom_.p.tsx:16-19 | A token that fails to decode fails with the same error. Otherwise the result has the same length and order as the decoded records, each mapped by `ToQuestion`. |
| `CustomPlay.SharedQuizRoundTrip` | app/routes/custom_.p.tsx:16-19 | Decoding an editor list's token recovers, entry by entry, answer = `p`, anchor = `a` and a present component for `s`. |
| `CustomPlay.SharedLinkStartsSession` | app/routes/custom_.p.tsx:38-51 | The token of any link the editor offers decodes to 4 to 12 questions, from which the machine starts in a valid state. |

## Left out

- Shape geometry (`app/routes/Areas.tsx`: square roots, π, anchor offsets) is floating-point rendering. Only the shape and anchor enumerations are kept.
- The slider's sigmoid overflow, pointer handling and animation (`app/Slider.tsx`) are floating-point UI. The slider is modelled only as a source of integer values that is ignored while disabled.
- The animated counter (`app/Counter.tsx`) animates float values. It has no logic the model needs.
- Audio is left out: Howler playback, the random tap pitch, the sound setting and the confetti and `setTimeout` sound schedule of the result screen. Entry sounds are `Signal` values.
- The random quiz of `app/routes/random.tsx` uses `Math.random`. Any question list can be passed to `Initial`. The home page's fixed list is `GameMachine.StandardQuiz`.
- Base64 and JSON are left out. The token is a flat list of integers, three per record. Only the round trip between the editor and the decoder matters.
- `window.location`, the missing-`q` redirect, `history.replaceState`, framer-motion, `AnchorButtons` (nine buttons calling `onChange` with constants) and the `cn` class merger are I/O or styling.
- The result-state text ("Nope :(", "So close..", "Correct!") and the counter colour on the play screen are not modelled. They select on the phase the same way as the result tiles' colours.
- `nanoid` is random. Ids are action parameters, and no uniqueness is assumed or proved.
- Editor callbacks capture the index and entry at render time. The model applies each edit to the current list.
- `ShareCodec.Decode`: rejects an anchor code outside the nine anchors. JSON decoding would pass an unknown anchor string through to the renderer.
- `CustomPlay.ParseCustomQuestions`: records are typed (integer `p`, anchor from the enumeration). The source casts whatever JSON it reads, so a non-numeric `p` is not modelled. A shape code outside 1..3 is modelled: it gives no component (`None`), as the lookup gives `undefined`.
