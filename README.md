# Meeting assistant extension — a Dafny model

The extension reads live captions in a meeting page, turns each caption
that settles into a finished question into a request to a remote
messages API, and shows the answers in an overlay. Its logic sits in
three scripts, and the model keeps that split:

- **the page script** (`content.js`) holds the caption pipeline:
  - the last caption and a buffer, with a pause timer that fires once
    the speaker stops;
  - the completeness predicate;
  - the FIFO answer queue, drained by one loop under the `isProcessing`
    guard with one request outstanding;
  - the answer container (records and a shared loading indicator);
  - the debug log, capped at twenty entries.

  `Pipeline` gives the state and one function per operation, with the
  timers and the relay's replies as explicit events. `PipelineInvariant`
  proves the invariant every event keeps. `PipelineProperties` proves
  what the script promises. `Content.CaptionPipeline` is the script as a
  class whose methods update its fields in place; `RunQueue` is the
  drain loop itself, a `while` loop proved against `Pipeline.Drain`.
- **the background relay** (`background.js`) holds the only copy of the
  key and talks to the API. Each handler is a pure function
  (`Background`) from the outcomes of its storage read and its `fetch`
  to the request it sends and the response it returns. Those outcomes
  are the values of `Net`.
- **the settings page** (`options.js`) trims the typed key, rejects a
  blank one, probes the API with it and stores it only when the probe
  succeeds. `Options` holds `TestApiKey`, the effect of one save as a
  function, and the page as a class.

`Text` holds the string operations the scripts rely on:
- `trim`, which removes the ECMAScript WhiteSpace and LineTerminator code
  points (TAB, LF, VT, FF, CR, SPACE, NBSP, U+1680, U+2000–U+200A, U+2028,
  U+2029, U+202F, U+205F, U+3000, U+FEFF);
- `endsWith` and `includes` (with `StartsWith` as the helper `Includes` is stated with);
- the decimal rendering of a status code.

## Asynchrony

`processQueue` is an `async` function with an `await` in its loop. Up
to its first `await` it runs synchronously inside whatever called it:
that is `Pipeline.ProcessQueue`. Each later iteration runs when the reply
to the question in flight arrives: that is `Pipeline.ReplyArrives`.
Between those two points any other event can happen. The `Event` type
and `Step` let captions, timers and display timeouts interleave with
replies, and `PipelineInvariant.RunInv` covers every such interleaving.
`Pipeline.Drain` and `Content.CaptionPipeline.RunQueue` are the case in
which the loop runs on its own.

## Behaviour a reader might not expect

- **Failed request.** After a failed request the drain loop ends, where
  one might expect it to go on with the next question. The `catch` sits
  outside the `while`, so questions still queued stay queued until the
  next detected question restarts the loop. `DrainStopsAtFirstFailure`
  states this.
- **Error record text.** The record rendered for a failure carries the
  message the promise was rejected with. For a relay failure that is the
  relay's `answer`, i.e. `Error: ` followed by the message, not the bare
  failure message.
- **Untrimmed question.** The enqueued question is the untrimmed buffer
  text; only the completeness test trims.
- **Repeated caption.** A caption equal to the last one cancels a
  pending pause timer without arming a new one, where one might expect
  the timer to survive until *different* text arrives. `clearTimeout`
  runs before the comparison (content.js:82-85), so that caption is
  never evaluated. `SameCaptionOnlyCancelsTimer` and
  `RepeatedCaptionNeverEvaluated` state this. Reading the code suggests
  the case is common, not rare:
  - the observer watches the whole of `document.body` (content.js:194-195,
    205-207), so the script's own writes trigger it as well;
  - among those writes are the log entry `handleCaption` itself adds with
    debug mode on (content.js:6, 29-30) and the overlay changes
    (content.js:163, 179);
  - so a caption still on screen is read again about 750 ms after it was
    handled (content.js:11, 198-203), which cancels the 2000 ms pause timer
    (content.js:9) before it fires.

## Model

| member | source | states |
|---|---|---|
| Text.Trim | content.js:99-100 | the result is a contiguous slice of the input with only whitespace cut away on each side, and has no whitespace at either end |
| Text.TrimIdempotent | background.js:84 | trimming a trimmed string changes nothing |
| Text.TrimIgnoresPadding | options.js:10 | whitespace added on either side of any string disappears under trim |
| Text.Includes | background.js:87 | true exactly when the part occurs in the string at some offset |
| Text.EndsWith | content.js:100 | no contract of its own; `PipelineProperties.CompleteIffEndsWithQuestionMark` states that on a trimmed caption it holds exactly when the last character is `?` |
| Text.NatToString | background.js:74 | a status code renders as a non-empty string of decimal digits without leading zero |
| Text.NatToStringRoundTrip | background.js:74 | the rendering reads back as the number rendered |
| Text.NatToStringInjective | background.js:74 | two different status codes never give the same `Status N` text |
| Background.ApiErrorMessage | background.js:74 | no contract of its own; `Background.NonOkStatusWrapsTwice` states the message: `API Error: ` followed by the API's message or `Status N` |
| Background.AwaitAnswer | background.js:50-84 | no contract of its own; `Background.OkTextIsAnswer`, `Background.AnswerIsTrimmedText`, `Background.MissingTextIsInvalidFormat` and `Background.NonOkStatusWrapsTwice` state its outcome for each kind of response |
| Background.Rewrap | background.js:85-91 | no contract of its own; `Background.TransportFailureIsNetworkError`, `Background.NetworkErrorOnlyFromTransport` and `Background.PlainErrorIsNotTransport` state which errors become the network message and which are wrapped once |
| Background.ProcessQuestion | background.js:43-92 | no contract of its own; `Background.NoKeyFailsWithoutRequest`, `Background.QuestionRequestShape`, `Background.NonOkStatusWrapsTwice`, `Background.MissingTextIsInvalidFormat`, `Background.FailureShapes` and `Background.AnswerIsTrimmedText` state its request and its outcome |
| Background.HandleApiKeyCheck | background.js:95-138 | no contract of its own; `Background.KeyCheckValidIff` and `Background.KeyCheckErrors` state when a key is valid, when a probe is sent and each error message |
| Background.FirstText | background.js:79 | the first block's text is used exactly when `content`, `content[0]` and a non-empty `content[0].text` are all present |
| Background.HandleQuestionAsync | background.js:25-40 | exactly one response is sent; its status is `success` exactly when processing succeeded; it carries the answer on success and `Error: ` plus the message on failure; it sends the same request as `processQuestion` |
| Background.OnMessage | background.js:12-22 | a response is given, and `true` is returned, exactly for `question` and `checkApiKey` messages; these go to their handlers and any other type sends no request |
| Background.NoKeyFailsWithoutRequest | background.js:44-48 | with no key or an empty key, no request is sent and the failure is the configuration message, unwrapped |
| Background.QuestionRequest | background.js:50-68 | no contract of its own; `Background.QuestionRequestShape` states the endpoint, the key, the 600-token budget and the question as the one user message |
| Background.QuestionRequestShape | background.js:50-68 | with a key, exactly one request is sent: to the messages endpoint, with that key, 600 tokens and the question verbatim as the one user message |
| Background.NonOkStatusWrapsTwice | background.js:71-90 | a non-ok status with a readable JSON body fails with `Failed to get response: API Error: ` followed by the API's message, or by `Status N` when there is none |
| Background.MissingTextIsInvalidFormat | background.js:78-90 | an ok body without `content`, `content[0]` or non-empty text fails with `Failed to get response: ` followed by `Invalid API response format` |
| Background.PlainErrorIsNotTransport | background.js:85-90 | an error the script throws itself (name `Error`) is never taken for a transport failure and is wrapped once with `Failed to get response: ` |
| Background.TransportFailureIsNetworkError | background.js:85-89 | a `TypeError` whose message includes `Failed to fetch` gives the network message |
| Background.NetworkErrorOnlyFromTransport | background.js:85-90 | the network message arises only from such a `TypeError`, never from a status, an API message or a malformed body |
| Background.FailureShapes | background.js:43-92 | every failure is the storage error's own message (the read sits outside the `try`), the configuration message when the key is missing or empty, the network message, or one wrapping with `Failed to get response: ` |
| Background.AnswerIsTrimmedText | background.js:78-84 | a successful answer comes from an ok response; it is the trimmed first text block and is its own trim |
| Background.OkTextIsAnswer | background.js:77-84 | an ok body whose first text has no whitespace at either end yields exactly that text as the answer |
| Background.SuccessReply | background.js:27-32 | a successful `processQuestion` reaches the page as status `success` with the answer unchanged, and sends the same request |
| Background.OkAnswerRelayed | background.js:25-84 | an ok response whose first text has no whitespace at either end is relayed as that text with status `success`, after exactly one request for the question |
| Background.NoKeyReply | background.js:33-48 | with no key or an empty key stored, the page receives status `error` and `Error: ` followed by the configuration message, and no request is made |
| Background.NonOkReply | background.js:33-38 | for a non-ok status with an API message, the page receives `Error: Failed to get response: API Error: ` followed by that message |
| Net.ProbeRequest | background.js:104-120 | no contract of its own; `Background.KeyCheckValidIff` states that it is the request the key check sends exactly when a key is stored, and `Options.SaveSettingsEffect` that it is the probe the settings page sends for a non-blank key |
| Background.KeyCheckValidIff | background.js:95-138 | the key is reported valid exactly when a non-empty key is stored and the probe gets a 2xx status; a probe is sent exactly when a key is stored; an error is reported exactly when the key is invalid |
| Background.KeyCheckErrors | background.js:95-138 | the reported error is: `API key not configured` for a missing key; the API's message, or `Invalid API key`, for a non-ok status; `Failed to validate API key` for every exception |
| Options.TestApiKey | options.js:29-60 | true exactly when a response arrives with a 2xx status; false on every exception |
| Options.SaveSettingsEffect | options.js:9-27 | a probe is sent exactly when the trimmed key is non-empty; storage is written exactly when the probe also succeeds, and with the trimmed key; the status is `success` exactly when it was written; the message is the one for each case |
| Options.StoredIffValid | options.js:17-22 | storage changes only to the trimmed key of a successful probe, always does so then, and never stores an empty or padded key |
| Options.BlankKeyRejected | options.js:10-14 | an all-whitespace key: no probe, no write, `API key is required` |
| Options.PaddingNeverStored | options.js:10-22 | whitespace typed around a key changes nothing about the save |
| Options.OptionsPage.constructor | options.js:1 | the page loads over the stored key with an empty field and a hidden status line |
| Options.OptionsPage.InitOptions | options.js:3-7 | the field shows the stored key, or is empty when none is stored |
| Options.OptionsPage.ShowStatus | options.js:62-71 | the class becomes `status-message ` plus the kind, the text the message verbatim; the line is shown and a hide timer is armed |
| Options.OptionsPage.StatusTimerFires | options.js:68-70 | a hide timer firing hides the status line |
| Options.OptionsPage.SaveSettings | options.js:9-27 | the probe sent, the new stored key and the status line are those of `SaveSettingsEffect` for the field's value; the field is unchanged |
| Pipeline.PushLog | content.js:27-31 | the entry goes on top and the older entries follow in order; the list grows by one up to twenty entries and never beyond |
| Pipeline.Without | content.js:167 | removing an element takes every copy of it out of the children and keeps all the others |
| Pipeline.WithoutAt | content.js:167 | removing a child that appears once takes out exactly its position; the children before and after it keep their order |
| Pipeline.Log | content.js:19-34 | no contract of its own; `Pipeline.PushLog` states the list it builds and `PipelineInvariant.LogKeepsInv` that the cap of twenty holds |
| Pipeline.Init | content.js:191-224 | no contract of its own; `PipelineInvariant.InitInv` states that the loaded script satisfies the invariant |
| Pipeline.ShowLoadingIndicator | content.js:174-181 | no contract of its own; `PipelineProperties.PauseTimerEnqueuesIff` states that starting the loop puts the loader on top of the unchanged children, and `PipelineInvariant.Inv` that exactly one loader is shown while the loop runs |
| Pipeline.RemoveLoader | content.js:182-187 | no contract of its own; `PipelineProperties.RejectionEndsLoop` and `PipelineProperties.LastReplyEndsLoop` state that the loader is gone when the loop ends and the records stay |
| Pipeline.AnswerExpires | content.js:166-171 | no contract of its own; `PipelineProperties.AnswerExpiresRemovesOnlyIt` states that exactly the expiring record's position leaves, in order, and when the container hides |
| Pipeline.Unload | content.js:227-229 | no contract of its own; `PipelineInvariant.StepInv` states that the unload event keeps the invariant, and `Content.CaptionPipeline.Unload` that only the pause timer is cancelled |
| Pipeline.AddAnswerToUI | content.js:154-164 | no contract of its own; `PipelineProperties.AnswerPrepended` states that the record goes on top of the unchanged children and the container is shown |
| Pipeline.RemoveChild | content.js:166-187 | no contract of its own; `PipelineInvariant.RemoveChildKeepsChildren`, `Pipeline.WithoutAt` and `PipelineProperties.AnswerExpiresRemovesOnlyIt` state what is removed, what stays in order and when the container hides |
| Pipeline.HasEndPunctuation | content.js:99 | no contract of its own; `PipelineProperties.CompleteIffEndsWithQuestionMark` states that the `?` check implies it |
| Pipeline.IsCompleteQuestion | content.js:99-103 | no contract of its own; `PipelineProperties.CompleteIffEndsWithQuestionMark` and `PipelineProperties.PaddingDoesNotMatter` state exactly which captions pass |
| Pipeline.HandleCaption | content.js:78-95 | no contract of its own; `PipelineProperties.SameCaptionOnlyCancelsTimer`, `PipelineProperties.NewCaptionArmsTimer` and `PipelineInvariant.HandleCaptionInv` state its effect in both cases |
| Pipeline.ProcessCompleteCaption | content.js:97-110 | no contract of its own; `PipelineProperties.PauseTimerEnqueuesIff` and `PipelineInvariant.ProcessCompleteCaptionInv` state when the text is enqueued and what else changes |
| Pipeline.PauseTimerFires | content.js:90-93 | no contract of its own; `PipelineProperties.PauseTimerEnqueuesIff`, `PipelineProperties.SameTextDoesNotRetrigger` and `PipelineInvariant.PauseTimerFiresInv` state its effect |
| Pipeline.ProcessQueue | content.js:113-122 | no contract of its own; `PipelineProperties.ProcessQueueNoOp`, `PipelineProperties.PauseTimerEnqueuesIff` and `PipelineInvariant.ProcessQueueInv` state when the loop starts and what it sends |
| Pipeline.SendNext | content.js:120-122 | no contract of its own; `PipelineInvariant.SendNextAfterLoaderInv` states that the oldest question goes out and the FIFO invariant holds |
| Pipeline.Rejection | content.js:127-135 | no contract of its own; `PipelineProperties.RejectionEndsLoop` and `PipelineProperties.ResolvedReplyRenders` state what a rejecting and a resolving reply do |
| Pipeline.FinishDrain | content.js:147-150 | no contract of its own; `PipelineProperties.RejectionEndsLoop` and `PipelineProperties.LastReplyEndsLoop` state that the loader goes and the loop ends |
| Pipeline.ReplyArrives | content.js:124-150 | no contract of its own; `PipelineProperties.RejectionEndsLoop`, `PipelineProperties.ResolvedReplyRenders`, `PipelineProperties.LastReplyEndsLoop` and `PipelineInvariant.ReplyArrivesInv` state its effect for each kind of reply |
| Pipeline.Drain | content.js:120-150 | no contract of its own; `PipelineProperties.DrainStopsAtFirstFailure` and `PipelineProperties.DrainAllSucceed` state which questions are sent and how the loop ends |
| Pipeline.Step | content.js:78-229 | no contract of its own; `PipelineInvariant.StepInv` and `PipelineInvariant.RunInv` state that every enabled event keeps the invariant |
| PipelineInvariant.InitInv | content.js:222-224 | the loaded script satisfies the invariant |
| PipelineInvariant.AddAnswerKeepsChildren | content.js:154-164 | a new record is fresh, keeps the children distinct, leaves the loader count alone and shows the container |
| PipelineInvariant.RemoveChildKeepsChildren | content.js:166-171 | a removal keeps the children distinct, removes the loader when it is the target, and leaves the container displayed exactly when it has children |
| PipelineInvariant.LogKeepsInv | content.js:19-34 | logging keeps the invariant and the twenty-entry cap |
| PipelineInvariant.SendNextAfterLoaderInv | content.js:120-122 | shifting and sending the oldest question under the loader keeps FIFO order and makes it the one question in flight |
| PipelineInvariant.ProcessQueueInv | content.js:113-122 | starting the drain loop keeps the invariant |
| PipelineInvariant.ProcessCompleteCaptionInv | content.js:97-110 | evaluating a caption keeps the invariant |
| PipelineInvariant.HandleCaptionInv | content.js:78-95 | reading a caption keeps the invariant |
| PipelineInvariant.PauseTimerFiresInv | content.js:90-93 | the pause timer firing keeps the invariant |
| PipelineInvariant.ClearBufferInv | content.js:92 | with no pause timer pending, clearing the caption buffer keeps the invariant |
| PipelineInvariant.ReplyArrivesInv | content.js:124-150 | the drain loop resuming with any reply keeps the invariant |
| PipelineInvariant.StepInv | content.js:78-229 | every enabled event keeps the invariant |
| PipelineInvariant.RunInv | content.js:78-229 | the invariant holds after any sequence of enabled events |
| PipelineInvariant.ReachableInv | content.js:113-151 | in every reachable state: the questions sent, then those still queued, are exactly the questions detected, in order; the log holds at most twenty entries; at most one loader is shown; the container is displayed exactly when it has children |
| PipelineProperties.CompleteIffEndsWithQuestionMark | content.js:99-103 | a caption is a complete question exactly when its trimmed text ends with `?`; the punctuation check is implied by the `?` check |
| PipelineProperties.PaddingDoesNotMatter | content.js:99-100 | whitespace around a caption does not change whether it is a question |
| PipelineProperties.SameCaptionOnlyCancelsTimer | content.js:82-85 | a caption equal to the last one only logs and cancels the pending timer; no timer is armed |
| PipelineProperties.NewCaptionArmsTimer | content.js:85-93 | a different caption sets buffer and last caption to it and arms the timer; nothing else changes but the log |
| PipelineProperties.PauseTimerEnqueuesIff | content.js:90-110 | when the timer fires, the buffer is appended untrimmed at the tail exactly when it is a complete question; the buffer is cleared and the last caption kept; otherwise queue, requests and answers are untouched; an idle loop starts and sends the oldest question |
| PipelineProperties.RepeatedCaptionNeverEvaluated | content.js:78-95 | reading the same caption twice from the loaded state leaves no pause timer armed, so it is never evaluated and nothing is enqueued |
| PipelineProperties.OneRequestOutstanding | content.js:120-137 | any enabled event that sends a question does so only when no question is in flight, or is the reply to the one that is |
| PipelineProperties.SameTextDoesNotRetrigger | content.js:90-92 | the evaluated text seen again arms no timer and enqueues nothing |
| PipelineProperties.ProcessQueueNoOp | content.js:114 | `processQueue` changes nothing while the loop runs or when the queue is empty |
| PipelineProperties.AnswerPrepended | content.js:163-164 | a record is rendered on top of the existing children, which keep their order, and the container is shown |
| PipelineProperties.AnswerExpiresRemovesOnlyIt | content.js:166-171 | an expiring record is the only child removed, the children before and after it keep their order, and the container is hidden exactly when it is then empty |
| PipelineProperties.RejectionEndsLoop | content.js:144-150 | a rejected reply renders exactly one `Error` record with the rejection message, removes the loader, ends the loop, and leaves the queued questions queued |
| PipelineProperties.ResolvedReplyRenders | content.js:139-143 | a resolved reply renders its answer on top under the question in flight, or nothing for an empty answer; the next queued question is then sent |
| PipelineProperties.LastReplyEndsLoop | content.js:139-150 | the last resolved reply ends the loop and removes the loader; the records stay |
| PipelineProperties.DrainStopsAtFirstFailure | content.js:120-150 | with `k` resolving replies and then a rejection, the loop sends exactly the next `k` queued questions in order, renders the `Error` record with the rejection message on top, removes the loader and stops; the rest of the queue stays queued and later replies are never awaited |
| PipelineProperties.DrainAllSucceed | content.js:120-150 | with enough resolving replies the loop sends every queued question in order, empties the queue, removes the loader and stops |
| PipelineProperties.QuestionSentAlone | content.js:85-122 | a new complete caption, once the pause passes with the loop idle, is the one question in flight, sent verbatim under the loader |
| PipelineProperties.SentQuestionRejected | content.js:128-146 | a new complete caption settling on an idle loop is sent alone; a reply the relay marks as an error renders one `Error` record carrying the reply's text at the top, removes the loader and ends the loop |
| PipelineProperties.NoKeyRendersError | content.js:128-146 | a question asked without a stored key is sent to the relay, which sends no request and answers with an error; the page renders an `Error` record reading `Error: ` plus the configuration message, and the loop ends |
| PipelineProperties.QuestionAnswered | content.js:139-141 | a question the relay answers successfully with a non-empty answer is shown with that answer under the question as captioned, and the loop ends |
| PipelineProperties.MeetingQuestionIsComplete | content.js:99-103 | `What time is the meeting?` passes both checks |
| PipelineProperties.ThreePmAnswer | background.js:78-84 | an ok body whose first text is `3 PM` is relayed as the success answer `3 PM`, after one request for the question |
| PipelineProperties.MeetingQuestionAnsweredThreePm | content.js:78-150 | the caption `What time is the meeting?` settling on an idle loop is sent once; the relay asks the API once and answers `3 PM`; the page shows `3 PM` under that question and the loop ends |
| Content.CaptionPipeline.constructor | content.js:222-224 | the loaded script's state, with the three start-up log lines |
| Content.CaptionPipeline.Log | content.js:19-34 | the fields change as `Pipeline.Log` says: entry on top, the oldest dropped beyond twenty |
| Content.CaptionPipeline.HandleCaption | content.js:78-95 | the fields change as `Pipeline.HandleCaption` says, and the invariant is kept |
| Content.CaptionPipeline.PauseTimerFires | content.js:90-93 | the fields change as `Pipeline.PauseTimerFires` says, and the invariant is kept |
| Content.CaptionPipeline.ProcessCompleteCaption | content.js:97-110 | the fields change as `Pipeline.ProcessCompleteCaption` says |
| Content.CaptionPipeline.ProcessQueue | content.js:113-122 | the fields change as `Pipeline.ProcessQueue` says |
| Content.CaptionPipeline.SendNext | content.js:120-122 | the fields change as `Pipeline.SendNext` says |
| Content.CaptionPipeline.ReplyArrives | content.js:124-150 | the fields change as `Pipeline.ReplyArrives` says, and the invariant is kept |
| Content.CaptionPipeline.FinishDrain | content.js:147-150 | the loader is removed and the loop flag cleared |
| Content.CaptionPipeline.RunQueue | content.js:113-151 | nothing happens while the loop runs or with an empty queue; otherwise the state is `Pipeline.Drain` of the started loop over the replies; the invariant is kept |
| Content.CaptionPipeline.AddAnswerToUI | content.js:154-164 | the fields change as `Pipeline.AddAnswerToUI` says |
| Content.CaptionPipeline.ShowLoadingIndicator | content.js:174-181 | the fields change as `Pipeline.ShowLoadingIndicator` says |
| Content.CaptionPipeline.RemoveChild | content.js:166-171 | the fields change as `Pipeline.RemoveChild` says |
| Content.CaptionPipeline.RemoveLoader | content.js:182-187 | the fields change as `Pipeline.RemoveLoader` says |
| Content.CaptionPipeline.AnswerExpires | content.js:166-171 | the fields change as `Pipeline.AnswerExpires` says, and the invariant is kept |
| Content.CaptionPipeline.Unload | content.js:227-229 | only the pause timer is cancelled, and the invariant is kept |

## Left out

- Building and styling the overlay elements, and the `innerHTML` template of a record (content.js:37-75, 155-161), are presentation only. The containers are sequences of children.
- The `MutationObserver`, the caption selector and `debounce` (content.js:191-220) are host-page plumbing. A debounced read of a non-empty caption is the `CaptionRead` event.
- Timer durations (750 ms, 2000 ms, 30 s, 3 s) and log time stamps are wall-clock time. Expiry is an explicit event; a log entry is its level and message.
- `console` output is not modelled.
- The install listener is not modelled.
- `logError` and the page-loaded notifier at the end of `background.js` are not part of this model.
- `fetch`, `chrome.storage` and `chrome.runtime.sendMessage` are foreign I/O. Each call is replaced by an outcome value supplied by the caller (`FetchOutcome`, `StorageRead`, `Reply`).
- Options.OptionsPage.SaveSettings: the storage write (options.js:22) is taken to succeed. A rejected write would show its error message in the status line.
- Options.OptionsPage.InitOptions: a rejected storage read leaves the field untouched in the source and is not modelled.
- Background.AwaitAnswer: JSON values of the wrong type (a non-string `text`, a `null` body, a non-array `content`) are not modelled. `content[0].text` is a string or absent.
- Pipeline.ReplyArrives: a relay response that is `undefined` without `lastError` is not modelled. In the source it makes the callback throw, leaving the loop waiting forever. The relay always responds.
- Content.CaptionPipeline.RunQueue: covers the loop running with nothing in between. Other events during an `await` are covered by `Pipeline.Step` instead.
- Strings are sequences of Unicode scalar values, not UTF-16 code units. This matters only for characters outside the Basic Multilingual Plane.
