# mentor-quest, modelled in Dafny

mentor-quest is a learning dashboard. A learner picks an interest and a level,
then chats with an AI mentor whose answers arrive as a server-sent event stream.
They can also take generated quizzes, follow a generated roadmap of
milestones, watch their progress figures and edit a profile. A Supabase edge
function sits between the browser and the AI gateway and forwards the chat.

This project models the logic of those pieces and proves what it promises:

- `common.dfy`: `Option` and `Result` (module `Wrappers`), the JavaScript string
  operations the code relies on (`JsText`: `trim`, `indexOf`, `slice`,
  `split`/`join`, `toUpperCase`, decimal printing), and chat messages
  (`Messages`).
- `ai_stream.dfy` (`AiStream`): `streamChat`, the line-buffering reader of the
  event stream, as two methods with loops (`StreamChat`, and `DrainLines` for
  its inner loop). `StreamChat` is proved equal to `StreamChatSpec`, which
  reads the concatenated body text line by line (`ScanText`). `DrainLines` is
  proved against `ScanText` of its buffer followed by the text still to come. Properties of the stream
  (sentinel, malformed line, non-data line, trailing text,
  chunking) are lemmas about `ScanText`. Also here: the error-message
  extraction shared with `invokeFunction`.
- `mentor_context.dfy` (`MentorContext`): the session state provider, a
  class with one field per state cell and one method per updater. Each
  updater is a pure function (`SetChat`, `Toggled`, `WithTopic`) with its
  properties proved.
- `chat_tab.dfy` (`ChatTab`): `handleSend` and `updateAssistant`. The
  callbacks of `streamChat` are replayed in the order it makes them.
- `quiz_tab.dfy` (`QuizTab`): the quiz state machine, with the answers so far
  kept as ghost state so that the score is tied to them.
- `roadmap_tab.dfy` (`RoadmapTab`): the reset on generate, the completed count
  and the rows whose checkboxes toggle milestones.
- `progress_tab.dfy` (`ProgressTab`): the number of quizzes, average accuracy,
  roadmap percentage and chart series, on exact rationals.
- `profile.dfy` (`Profile`): load/save normalisation of the profile form and
  the avatar initials.
- `chat_proxy.dfy` (`ChatProxy`): the chat edge function's decisions (preflight,
  defaults, the creativity and length labels, the system prompt, the gateway
  request and the mapping of gateway failures to client responses).

I/O is turned into parameters:

- the fetch response is a `Response` value whose body is a sequence of decoded
  chunks;
- `JSON.parse` with the property accesses after it is a function parameter
  (an oracle), `None` standing for a throw;
- `Date.now()` is a parameter `now`;
- `Deno.env.get` is a parameter `apiKey`;
- the gateway `fetch` is a function parameter `gateway`.

Two behaviours follow from the code and are proved as stated rather than as
one might expect:

- A data line that fails to parse is put back at the front of the buffer. It
  fails again on every later read, so it ends delivery for good
  (`MalformedEndsDelivery`, `PutBack`, and the `Blocked` invariant of
  `StreamChat`).
- The avatar shows `?` for an empty name, but `?` does not mean the name was
  empty. The name `?` shows `?` too (`QuestionMarkName`), and a name of spaces
  shows nothing at all (`SpacesOnlyHaveNoInitials`).

## Model

| member | source | states |
|---|---|---|
| `AiStream.BodyText` | src/lib/ai-stream.ts:28 | a response without a body, or with no chunks, reads as `""` |
| `AiStream.BodyTextOneChunk` | src/lib/ai-stream.ts:28 | a body of one chunk reads as that chunk |
| `AiStream.BodyTextAppend` | src/lib/ai-stream.ts:46 | the text of chunks read in two parts is the first part's text followed by the second's, as the buffer grows chunk by chunk |
| `AiStream.ErrorMessage` | src/lib/ai-stream.ts:29-32 | the message is never empty; it is the body's `error` field when that is a non-empty string, and "Request failed" otherwise (a throwing parse included) |
| `AiStream.StripCR` | src/lib/ai-stream.ts:52 | a line ending in `\r` loses exactly that one character; any other line is unchanged; a line without newline stays without |
| `AiStream.Payload` | src/lib/ai-stream.ts:54 | the payload is no longer than the text after `data: ` and neither starts nor ends with white space |
| `AiStream.PayloadOfLine` | src/lib/ai-stream.ts:54 | the payload is the text after `data: ` with only the white space at its two ends removed: a slice of it, with every character outside the slice white space |
| `JsText.TrimRemovesOnlyWhiteSpace` | src/lib/ai-stream.ts:54 | `trim` keeps one slice of its input and removes only white space, on both sides of it |
| `AiStream.Interpret` | src/lib/ai-stream.ts:53-59 | a line only ever emits non-empty content |
| `AiStream.InterpretCases` | src/lib/ai-stream.ts:52-63 | a line without the `data: ` prefix is skipped; a `[DONE]` payload finishes; a payload whose parse throws is malformed; otherwise the content is emitted exactly when it is a non-empty string, and it is the parsed content |
| `AiStream.InterpretStripped` | src/lib/ai-stream.ts:52 | removing a `\r` from a line already stripped does not change its action, so the pushed-back line is read the same way again |
| `AiStream.DeltasNonEmpty` | src/lib/ai-stream.ts:58-59 | every delivered delta is a non-empty string |
| `AiStream.CompleteLinesAreSplitPieces` | src/lib/ai-stream.ts:49-51 | the complete lines of a text are its pieces between newlines, all but the last |
| `AiStream.CompleteLinesHaveNoNewline` | src/lib/ai-stream.ts:49-51 | no complete line of a text contains a newline |
| `AiStream.ScanTextReadsCompleteLines` | src/lib/ai-stream.ts:49-51 | the reader handles exactly the newline-terminated lines of the text, each the text before its newline, in order |
| `AiStream.ScanAppend` | src/lib/ai-stream.ts:43-65 | reading `a + b` with `a` ending on a line boundary: the deltas of `b` follow those of `a` unless `a` stopped the reading, in which case `b` is never looked at |
| `AiStream.SentinelEndsDelivery` | src/lib/ai-stream.ts:52-55 | after any data line whose trimmed payload is `[DONE]`, with or without a trailing `\r`, the reading stops at the sentinel and no further delta is delivered, whatever follows |
| `AiStream.SentinelLine` | src/lib/ai-stream.ts:53-55 | the line `data: [DONE]` is such a sentinel line |
| `AiStream.MalformedEndsDelivery` | src/lib/ai-stream.ts:60-63 | after a data line whose parse throws, no delta from it or any later line is delivered |
| `AiStream.NonDataLineIgnored` | src/lib/ai-stream.ts:53 | a line not starting with `data: ` adds nothing and does not stop the reading |
| `AiStream.TrailingTextNotDelivered` | src/lib/ai-stream.ts:49 | text after the last newline is never delivered |
| `AiStream.DeltaEvents` | src/lib/ai-stream.ts:59 | one `onDelta` event per delta, in order, carrying exactly that text |
| `AiStream.StreamChatSpec` | src/lib/ai-stream.ts:27-66 | a non-OK response fails with the extracted error message; an OK response with no body fails with "No response body"; otherwise the callbacks are non-empty deltas followed by exactly one `onDone`, which comes last |
| `AiStream.StreamChatSpecCompleted` | src/lib/ai-stream.ts:41-66 | for an OK response with a body, the callbacks are the deltas read from the concatenated body text, then `onDone` |
| `AiStream.PutBack` | src/lib/ai-stream.ts:60-63 | the stripped line put back before the rest of the buffer blocks it: the buffer's reading is a malformed stop with no deltas, whatever arrives later |
| `AiStream.ReadingEnds` | src/lib/ai-stream.ts:65-66 | a buffer left without a newline, or blocked on a malformed line, yields no further delta when the body ends |
| `AiStream.DrainLines` | src/lib/ai-stream.ts:48-64 | the inner loop: the deltas it emits, followed by the reading of what it leaves in the buffer (or by the sentinel stop when it finishes), are the reading of the buffer plus the text still to come; when it does not finish, the buffer left has no newline or is blocked |
| `AiStream.StreamChat` | src/lib/ai-stream.ts:27-66 | the two nested loops over chunks and lines produce exactly `StreamChatSpec` of the response |
| `AiStream.ChunkingIrrelevant` | src/lib/ai-stream.ts:41-66 | two bodies with the same concatenated text give the same callbacks, however they are cut into chunks |
| `AiStream.SplitLineDeliveredOnce` | src/lib/ai-stream.ts:43-59 | any complete line that yields a delta, cut into two reads at any point (the newline included), yields that one delta and then `onDone` |
| `AiStream.SplitDataLineDeliveredOnce` | src/lib/ai-stream.ts:43-59 | the line `data: <json>` with a parsable, non-empty content, cut into two reads anywhere, yields that content once and then `onDone` |
| `AiStream.InvokeFunction` | src/lib/ai-stream.ts:81-87 | a non-OK response is an error whose message is exactly `ErrorMessage` of the parsed body (its `error` field or "Request failed"); an OK response is the decoded body |
| `AiStream.SameErrorMessage` | src/lib/ai-stream.ts:27-35 | both clients report the same message for the same failed response |
| `MentorContext.DomainKey` | src/lib/mentor-context.tsx:51 | the domain key is "" exactly when no interest is chosen, and the interest's name otherwise |
| `MentorContext.DomainKeyInjective` | src/lib/mentor-context.tsx:51 | different interests (including none) have different keys |
| `MentorContext.Lookup` | src/lib/mentor-context.tsx:52 | a key never written gives `[]`; a written key gives its history |
| `MentorContext.SetChat` | src/lib/mentor-context.tsx:55-59 | the current key gets the action applied to its current history, every other key keeps its history, and the keys are the old ones plus the current one |
| `MentorContext.SetChatFrame` | src/lib/mentor-context.tsx:55-59 | any other domain's history, written or not, is unchanged |
| `MentorContext.Toggled` | src/lib/mentor-context.tsx:68-72 | the length is kept; the milestone at an in-range index has its `completed` flipped and nothing else; every other milestone is unchanged |
| `MentorContext.ToggleTwice` | src/lib/mentor-context.tsx:68-72 | toggling the same index twice restores the roadmap |
| `MentorContext.ToggleOutOfRange` | src/lib/mentor-context.tsx:69-71 | an out-of-range index leaves the roadmap unchanged |
| `MentorContext.WithTopic` | src/lib/mentor-context.tsx:75 | the topic is appended exactly when it is absent, and is present afterwards |
| `MentorContext.WithTopicIdempotent` | src/lib/mentor-context.tsx:74-76 | adding a topic twice is the same as adding it once |
| `MentorContext.WithTopicNoDuplicates` | src/lib/mentor-context.tsx:74-76 | adding a topic keeps the list free of duplicates |
| `MentorContext.WithTopicContents` | src/lib/mentor-context.tsx:75 | the topics afterwards are the earlier ones and the new one |
| `MentorContext.MentorProvider.constructor` | src/lib/mentor-context.tsx:45-50 | no interest or level, no chats, results, roadmap or topics |
| `MentorContext.MentorProvider.ChatMessages` | src/lib/mentor-context.tsx:52 | the current domain's history, `[]` when it was never written |
| `MentorContext.MentorProvider.SetInterest` | src/lib/mentor-context.tsx:45 | sets the interest and nothing else |
| `MentorContext.MentorProvider.SetLevel` | src/lib/mentor-context.tsx:46 | sets the level and nothing else |
| `MentorContext.MentorProvider.SetChatMessages` | src/lib/mentor-context.tsx:53-62 | the current domain's history becomes the action applied to it; every other domain and every other field is unchanged |
| `MentorContext.MentorProvider.AddQuizResult` | src/lib/mentor-context.tsx:64-66 | the result is appended at the end, earlier results and other fields unchanged |
| `MentorContext.MentorProvider.SetRoadmap` | src/lib/mentor-context.tsx:49 | replaces the roadmap and nothing else |
| `MentorContext.MentorProvider.ToggleMilestone` | src/lib/mentor-context.tsx:68-72 | the roadmap becomes `Toggled` of the old one, other fields unchanged |
| `MentorContext.MentorProvider.AddTopic` | src/lib/mentor-context.tsx:74-76 | the topics become `WithTopic` of the old ones, still without duplicates, other fields unchanged |
| `ChatTab.UpdateAssistant` | src/components/dashboard/ChatTab.tsx:39-45 | the last message becomes the assistant's with the given content: it replaces an assistant message already last (the others unchanged), and is appended otherwise |
| `ChatTab.UpdateAssistantStep` | src/components/dashboard/ChatTab.tsx:36-45 | after each delta the history is the old history, the user message, and one assistant message holding the concatenation of the deltas so far |
| `ChatTab.FirstDelta` | src/components/dashboard/ChatTab.tsx:44 | the first delta appends the assistant message after the user's |
| `ChatTab.LaterDelta` | src/components/dashboard/ChatTab.tsx:41-42 | a later delta rewrites only the last message's content |
| `ChatTab.DeltaTextsOfEvents` | src/components/dashboard/ChatTab.tsx:52-53 | the `onDelta` texts of a completed stream are the deltas it read |
| `ChatTab.ChatScreen.constructor` | src/components/dashboard/ChatTab.tsx:16-19 | empty input, not loading, temperature 0.7, 1024 tokens |
| `ChatTab.ChatScreen.HandleSend` | src/components/dashboard/ChatTab.tsx:28-58 | a no-op when the trimmed input is empty or a request is in flight; otherwise the input is cleared, the request carries the prior history then the user message with the trimmed text, the topic is the first 50 characters, the history ends as the prior one, the user message and one assistant message with the deltas' concatenation, loading is cleared on `onDone` and on error, a failure's message is reported, and other domains are untouched |
| `ChatTab.ChatScreen.OnDelta` | src/components/dashboard/ChatTab.tsx:37-46 | `assistantContent` grows by the chunk, and the current domain's history becomes the transcript with one more delta while every other domain and field is unchanged |
| `ChatTab.ChatScreen.ReceiveReply` | src/components/dashboard/ChatTab.tsx:36-53 | replaying the callbacks grows the transcript delta by delta and clears loading exactly when `onDone` occurs |
| `QuizTab.CountCorrectSnoc` | src/components/dashboard/QuizTab.tsx:46 | one more answer adds one to the score exactly when it is the question's correct option |
| `QuizTab.AllCorrect` | src/components/dashboard/QuizTab.tsx:43-57 | all answers correct give a score equal to the number answered |
| `QuizTab.AllWrong` | src/components/dashboard/QuizTab.tsx:43-57 | all answers wrong give a score of 0 |
| `QuizTab.RecordedScore` | src/components/dashboard/QuizTab.tsx:54-56 | `finalScore or score` (a JavaScript logical or) is the accumulated score in both branches, zero included |
| `QuizTab.RecordedScoreBounds` | src/components/dashboard/QuizTab.tsx:53-57 | a finished quiz records a score between 0 and the number of questions, all of them when every answer was right |
| `QuizTab.AnswerStep` | src/components/dashboard/QuizTab.tsx:43-47 | answering an unanswered question records the option and adds one to the score exactly when it is correct, keeping the quiz state consistent |
| `QuizTab.NextStep` | src/components/dashboard/QuizTab.tsx:50-52 | moving from an answered, non-last question to the next keeps the quiz state consistent |
| `QuizTab.FinishStep` | src/components/dashboard/QuizTab.tsx:53-56 | finishing on the answered last question keeps the state consistent, with every question answered |
| `QuizTab.QuizScreen.constructor` | src/components/dashboard/QuizTab.tsx:18-24 | no questions, question 0, nothing selected, score 0, not finished |
| `QuizTab.QuizScreen.Generate` | src/components/dashboard/QuizTab.tsx:26-41 | on success the new questions and topic with current 0, nothing selected, score 0, not finished; on failure the quiz is kept and the message reported; loading ends false |
| `QuizTab.QuizScreen.HandleAnswer` | src/components/dashboard/QuizTab.tsx:43-47 | a no-op once an option is selected; otherwise selects it and adds one to the score exactly when it is correct |
| `QuizTab.QuizScreen.Next` | src/components/dashboard/QuizTab.tsx:49-58 | on a non-last question moves to the next with nothing selected; on the last one finishes with every question answered and records topic, the accumulated score, the number of questions and the time |
| `RoadmapTab.ResetCompleted` | src/components/dashboard/RoadmapTab.tsx:18 | same length, titles, descriptions and resources, every milestone open |
| `RoadmapTab.CompletedCount` | src/components/dashboard/RoadmapTab.tsx:40 | the number of completed milestones never exceeds the number of milestones |
| `RoadmapTab.CompletedCountExtremes` | src/components/dashboard/RoadmapTab.tsx:40 | none completed counts 0, all completed counts the length |
| `RoadmapTab.GeneratedHasNoneCompleted` | src/components/dashboard/RoadmapTab.tsx:18 | a generated roadmap shows 0 completed |
| `RoadmapTab.CompletedCountUpdate` | src/components/dashboard/RoadmapTab.tsx:40 | changing one milestone changes the count by its change of `completed` |
| `RoadmapTab.ToggleMovesCountByOne` | src/components/dashboard/RoadmapTab.tsx:54 | ticking a checkbox moves the count by exactly one, up or down |
| `RoadmapTab.ViewOf` | src/components/dashboard/RoadmapTab.tsx:26-54 | the generation prompt shows exactly when the roadmap is empty; otherwise the count is at most the length and each row toggles an in-range index holding its milestone |
| `RoadmapTab.CheckboxTogglesItsRow` | src/components/dashboard/RoadmapTab.tsx:51-54 | a row's checkbox flips that row's milestone and no other |
| `RoadmapTab.Generate` | src/components/dashboard/RoadmapTab.tsx:14-24 | on success the roadmap is the returned one with every milestone open; on failure it is kept and the message returned; the rest of the session is unchanged |
| `ProgressTab.Round` | src/components/dashboard/ProgressTab.tsx:14 | `Math.round`: the integer within half of the value, halves rounded up |
| `ProgressTab.Accuracy` | src/components/dashboard/ProgressTab.tsx:14 | not finite exactly when the total is 0; in [0, 100] for a well-formed result |
| `ProgressTab.SumAccuracy` | src/components/dashboard/ProgressTab.tsx:14 | the sum over no results is 0; a last result with a zero total makes the sum not finite |
| `ProgressTab.SumAccuracyBounds` | src/components/dashboard/ProgressTab.tsx:14 | with well-formed results the sum is finite and at most 100 per result |
| `ProgressTab.TotalQuizzes` | src/components/dashboard/ProgressTab.tsx:12 | the number of results |
| `ProgressTab.AvgAccuracy` | src/components/dashboard/ProgressTab.tsx:13-15 | 0 when there are no results |
| `ProgressTab.AvgAccuracyInRange` | src/components/dashboard/ProgressTab.tsx:13-15 | with well-formed results, a whole number in [0, 100] |
| `ProgressTab.ZeroTotalNotFinite` | src/components/dashboard/ProgressTab.tsx:14 | one result with a zero total makes the average not finite |
| `ProgressTab.RoadmapProgress` | src/components/dashboard/ProgressTab.tsx:16-18 | 0 for an empty roadmap, always in [0, 100] |
| `ProgressTab.RoadmapProgressExtremes` | src/components/dashboard/ProgressTab.tsx:16-18 | 100 when a non-empty roadmap is all completed, 0 when none is |
| `ProgressTab.ChartData` | src/components/dashboard/ProgressTab.tsx:20-23 | one bar per result, in order, named `Q{i+1}`, scored by its rounded accuracy |
| `ProgressTab.ChartNamesDistinct` | src/components/dashboard/ProgressTab.tsx:21 | no two bars have the same name |
| `Profile.OrEmpty` | src/pages/Profile.tsx:57-60 | `null` becomes `""`, any other value is kept |
| `Profile.OrNull` | src/pages/Profile.tsx:74-77 | `""` becomes `null`, a non-empty string is kept |
| `Profile.Load` | src/pages/Profile.tsx:55-61 | each of the four fields normalised with `?? ""` |
| `Profile.Save` | src/pages/Profile.tsx:73-78 | each of the four fields normalised by `or null`: an empty string becomes `null` |
| `Profile.LoadSave` | src/pages/Profile.tsx:57-60 | saving and loading back gives the same form |
| `Profile.SaveLoad` | src/pages/Profile.tsx:74-77 | loading and saving back gives the same row exactly when no column holds `""` |
| `Profile.Initials` | src/pages/Profile.tsx:88-90 | at most two characters; `?` for the empty name |
| `Profile.FirstChars` | src/pages/Profile.tsx:89 | at most one character per word |
| `Profile.FirstCharsSkipEmpty` | src/pages/Profile.tsx:89 | empty words add nothing: the first characters are those of the non-empty words, in order |
| `Profile.InitialsOfName` | src/pages/Profile.tsx:89 | a non-empty name shows the upper-cased first characters of its first two non-empty space-separated words |
| `Profile.InitialsOfWords` | src/pages/Profile.tsx:89 | words joined by single spaces show the upper-cased first letters of the first two words |
| `Profile.SpacesOnlyHaveNoInitials` | src/pages/Profile.tsx:88-90 | a name made of spaces only shows `""`, not `?` |
| `Profile.QuestionMarkName` | src/pages/Profile.tsx:88-90 | the name `?` also shows `?`, so the converse of "empty name shows `?`" does not hold |
| `ChatProxy.WithDefault` | supabase/functions/chat/index.ts:12 | a destructuring default applies to a missing field only: an explicit `null` stays `null` and a number is kept |
| `ChatProxy.Temperature` | supabase/functions/chat/index.ts:12 | a missing temperature is 0.7, `null` stays `null`, a given one is kept |
| `ChatProxy.MaxTokens` | supabase/functions/chat/index.ts:12 | a missing `max_tokens` is 1024, `null` stays `null`, a given one is kept |
| `ChatProxy.AsNumber` | supabase/functions/chat/index.ts:16 | in the comparisons a `null` temperature counts as 0 and a number as itself |
| `ChatProxy.AsInteger` | supabase/functions/chat/index.ts:17 | in the comparisons a `null` budget counts as 0 and a number as itself |
| `ChatProxy.CreativityLabel` | supabase/functions/chat/index.ts:16 | exactly one of four labels by the inclusive thresholds 0.3, 0.6 and 0.8 |
| `ChatProxy.CreativityMonotone` | supabase/functions/chat/index.ts:16 | a higher temperature never gives a less creative label |
| `ChatProxy.LengthLabel` | supabase/functions/chat/index.ts:17 | exactly one of four labels by the inclusive thresholds 512, 1024 and 2048 |
| `ChatProxy.LengthMonotone` | supabase/functions/chat/index.ts:17 | a larger budget never gives a shorter label |
| `ChatProxy.DefaultsLabels` | supabase/functions/chat/index.ts:12-17 | the defaults ask for the exploratory style and moderately detailed answers |
| `ChatProxy.NullParameters` | supabase/functions/chat/index.ts:12-17 | an explicit `null` temperature is forwarded as `null` and asks for the precise style; a `null` budget is forwarded as `null` and asks for brief answers |
| `ChatProxy.SystemPromptOpening` | supabase/functions/chat/index.ts:19-30 | the system prompt opens with the line naming the interest and the level |
| `ChatProxy.CallFor` | supabase/functions/chat/index.ts:32-48 | the gateway request carries the key, the model, streaming on, the parameters after their defaults, then the system prompt whose labels compare those parameters with `null` as 0, then the client's messages in order |
| `ChatProxy.Conversation` | supabase/functions/chat/index.ts:40-43 | the system prompt first, then the client's messages in order |
| `ChatProxy.ErrorForStatus` | supabase/functions/chat/index.ts:50-66 | 429 gives 429 "Rate limit exceeded. Please try again in a moment.", 402 gives 402 "AI usage limit reached. Please add credits.", any other status 500 "AI service error", always as JSON |
| `ChatProxy.Handle` | supabase/functions/chat/index.ts:8-77 | OPTIONS gets an empty 200 and no gateway call; a gateway call is made only with a parsed body and a non-empty key; the status is 200 exactly for the preflight and the passed-through stream |
| `ChatProxy.MissingKeyIs500` | supabase/functions/chat/index.ts:13-14 | without an API key no gateway call is made and the response is 500 "LOVABLE_API_KEY is not configured" |
| `ChatProxy.ForwardedRequest` | supabase/functions/chat/index.ts:19-70 | with a key, the gateway gets the key, the model, streaming on, the parameters with their defaults, the system prompt built from interest, level and the two labels, then the client's messages; a fetch that throws gives 500 with its message, a failed status maps by `ErrorForStatus`, and an OK stream is passed through as `text/event-stream` |

## Left out

- `fetch`, the stream reader and `TextDecoder` are not modelled: a body is the sequence of already-decoded chunks, so UTF-8 sequences split across chunks are not modelled.
- `JSON.parse` and the property accesses after it are oracles. The client's `parsed.error ||` and `if (content)` tests are modelled for string values only; a truthy non-string `error` or `content` is not.
- `JsText.UpperChar` upper-cases ASCII letters only, not the full Unicode case mapping of `toUpperCase`. Characters are Dafny `char`s, not UTF-16 code units, so `slice(0, 50)` and `n[0]` on text outside the Basic Multilingual Plane are not modelled.
- JavaScript's number arithmetic is exact rational arithmetic here. Infinity and NaN from a zero-total quiz are collapsed into one `NotFinite` value.
- `Date.now()` is the parameter `now` of `QuizTab.QuizScreen.Next`.
- The fallback messages "Chat failed", "Failed to generate quiz", "Failed to generate roadmap" and "Unknown error" apply only to throws of non-`Error` values, which the modelled code does not produce.
- The `try` around `JSON.parse` also covers `onDelta`, so a callback that throws would put its already delivered line back in the buffer and block the stream on it. Callbacks are replayed after the read, and the modelled callbacks do not throw, so this path is not modelled.
- Callbacks are not delivered while the stream is being read. `ChatTab.ChatScreen.HandleSend` replays the recorded callbacks after `StreamChat` returns, in the same order, so interleaving with other UI events is not modelled.
- The extra request fields that `handleSend` sends are the `ChatRequest` datatype. The serialisation to JSON and its reading by the edge function (`ChatProxy.ChatBody`) are not linked.
- In `ChatProxy.ChatBody`, an absent `interest` or `level` is printed as `null`. JavaScript would print a field missing from the JSON body as `undefined`; that case is not modelled.
- `ChatProxy.Handle`: a body that is not JSON, and the JSON `null` (whose destructuring throws), are the `Err` body and reach the catch-all 500. Every other JSON value that is not an object with `messages` (spreading `undefined` throws after the key check) is not modelled.
- `ChatProxy.Temperature` and `ChatProxy.MaxTokens`: a value that is neither a number nor `null` (a string, say) is not modelled; its comparisons and its forwarding would follow JavaScript's coercions.
- The CORS header values and `console.error` logging are not modelled. A response's headers are only its optional `Content-Type`.
- The text of the system prompt is a function (`ChatProxy.SystemPrompt`). Only its parameters are proved about, not its wording.
- The loading flag of the roadmap screen is not modelled. The one on the quiz screen is.
- `QuizTab.QuizScreen.HandleAnswer` and `QuizTab.QuizScreen.Next` require a quiz on screen that is not finished: the answer and next buttons are rendered only then (src/components/dashboard/QuizTab.tsx:60). `Next` also requires an option selected, because the next button is rendered only once one is (src/components/dashboard/QuizTab.tsx:122). The answer buttons are disabled after a selection (src/components/dashboard/QuizTab.tsx:110), and `HandleAnswer` also models the early return that guards against a second answer, as a no-op.
- Quiz and roadmap data from the edge functions are what `decode` returns. The quiz and roadmap edge functions themselves are not part of this model.
- Authentication, onboarding, routing, the Supabase select and update calls around the profile form, speech recognition, theming and all rendering are not modelled.
- React's asynchronous state batching is not modelled. Each handler is a sequence of state transitions applied in program order.
