/**
 * What the caption pipeline promises, stated over its operations:
 * which captions become questions, what a repeated caption does, how the
 * drain loop orders requests and stops at the first failure, and two
 * end-to-end runs through the relay.
 */
module PipelineProperties {
  import opened Wrappers
  import opened Text
  import opened Net
  import opened Pipeline
  import opened PipelineInvariant
  import Background

  // ---------------------------------------------------------------------
  // The question predicate

  /** Of the two checks, the `?` one decides: a caption is a complete
      question exactly when its trimmed text ends with `?`. */
  lemma CompleteIffEndsWithQuestionMark(text: string)
    ensures IsCompleteQuestion(text) <==> Trim(text) != [] && Trim(text)[|Trim(text)| - 1] == '?'
    ensures EndsWith(Trim(text), "?") ==> HasEndPunctuation(Trim(text))
  {
    var t := Trim(text);
    if t != [] {
      assert t[|t| - 1..] == [t[|t| - 1]];
    }
  }

  /** Whitespace around a caption does not change whether it is a
      question. */
  lemma PaddingDoesNotMatter(pre: string, text: string, post: string)
    requires forall k :: 0 <= k < |pre| ==> IsWhitespace(pre[k])
    requires forall k :: 0 <= k < |post| ==> IsWhitespace(post[k])
    ensures IsCompleteQuestion(pre + text + post) <==> IsCompleteQuestion(text)
  {
    TrimIgnoresPadding(pre, text, post);
  }

  // ---------------------------------------------------------------------
  // Caption handling

  /** A caption equal to the last one only cancels the pending timer (and
      logs); no timer is armed and nothing else changes. */
  lemma SameCaptionOnlyCancelsTimer(s: State, text: string)
    requires text == s.lastCaption
    ensures HandleCaption(s, text)
         == Log(s, Debug, "Caption received: " + Quoted(text)).(pauseTimerArmed := false)
  {
  }

  /** A new caption replaces both the buffer and the last caption and arms
      exactly one pause timer; queue, answers and requests are untouched. */
  lemma NewCaptionArmsTimer(s: State, text: string)
    requires text != s.lastCaption
    ensures HandleCaption(s, text)
         == Log(s, Debug, "Caption received: " + Quoted(text))
              .(captionBuffer := text, lastCaption := text, pauseTimerArmed := true)
  {
  }

  /** When the pause timer fires the buffer is enqueued, untrimmed and at
      the tail, exactly when it is a complete question, and the buffer is
      cleared while the last caption is kept.  Enqueuing an idle queue
      starts the loop, which sends the oldest question at once. */
  lemma PauseTimerEnqueuesIff(s: State)
    requires Inv(s) && s.pauseTimerArmed
    ensures var t := PauseTimerFires(s);
            && t.captionBuffer == "" && t.lastCaption == s.lastCaption && !t.pauseTimerArmed
            && (t.detected == s.detected + [s.captionBuffer] <==> IsCompleteQuestion(s.captionBuffer))
            && (!IsCompleteQuestion(s.captionBuffer) ==>
                  t.detected == s.detected && t.answerQueue == s.answerQueue && t.sent == s.sent
                  && t.answers == s.answers && t.isProcessing == s.isProcessing && t.inFlight == s.inFlight)
            && (IsCompleteQuestion(s.captionBuffer) && s.isProcessing ==>
                  t.answerQueue == s.answerQueue + [s.captionBuffer] && t.sent == s.sent
                  && t.answers == s.answers && t.inFlight == s.inFlight)
            && (IsCompleteQuestion(s.captionBuffer) && !s.isProcessing ==>
                  var q := s.answerQueue + [s.captionBuffer];
                  && t.isProcessing && t.inFlight == Some(q[0])
                  && t.sent == s.sent + [q[0]] && t.answerQueue == q[1..]
                  && t.answers == [Loader] + s.answers)
  {
    var t := PauseTimerFires(s);
    if !IsCompleteQuestion(s.captionBuffer) {
      assert t.detected != s.detected + [s.captionBuffer] by {
        assert |t.detected| == |s.detected|;
      }
    }
  }

  /** After the timer has evaluated a caption, seeing the same text again
      does not arm a new timer, so it cannot be enqueued twice. */
  lemma SameTextDoesNotRetrigger(s: State)
    requires Inv(s) && s.pauseTimerArmed
    ensures var t := HandleCaption(PauseTimerFires(s), s.captionBuffer);
            && !t.pauseTimerArmed && t.captionBuffer == ""
            && t.detected == PauseTimerFires(s).detected
  {
    var u := PauseTimerFires(s);
    PauseTimerEnqueuesIff(s);
    assert u.lastCaption == s.captionBuffer;
    SameCaptionOnlyCancelsTimer(u, s.captionBuffer);
  }

  /** Reading the same caption twice from the start leaves no timer armed,
      so the caption is never evaluated and nothing is enqueued. */
  lemma RepeatedCaptionNeverEvaluated(q: string)
    requires q != ""
    ensures Trace(Init(), [CaptionRead(q), CaptionRead(q)])
    ensures var s := Run(Init(), [CaptionRead(q), CaptionRead(q)]);
            && !s.pauseTimerArmed && s.lastCaption == q && s.detected == [] && s.answerQueue == []
  {
    var events := [CaptionRead(q), CaptionRead(q)];
    var s1 := HandleCaption(Init(), q);
    var s2 := HandleCaption(s1, q);
    assert s1.lastCaption == q && s1.detected == [];
    assert Step(Init(), events[0]) == s1;
    assert events[1..] == [CaptionRead(q)];
    assert Step(s1, events[1]) == s2;
    assert [CaptionRead(q)][1..] == [];
    assert Run(s1, [CaptionRead(q)]) == Run(s2, []);
    assert Run(Init(), events) == Run(s1, events[1..]);
  }

  /** At most one request is outstanding: an event sends a question only
      when none is in flight, or when it is the reply to the one that is. */
  lemma OneRequestOutstanding(s: State, e: Event)
    requires Inv(s) && Enabled(s, e)
    ensures Step(s, e).sent != s.sent ==> s.inFlight.None? || e.ReplyReceived?
  {
    if e.PauseTimeout? && s.inFlight.Some? {
      PauseTimerEnqueuesIff(s);
    }
  }

  // ---------------------------------------------------------------------
  // The answer container

  /** A record is rendered on top of the children already shown, and the
      container is displayed. */
  lemma AnswerPrepended(s: State, question: string, answer: string)
    ensures var t := AddAnswerToUI(s, question, answer);
            && |t.answers| == |s.answers| + 1 && t.answers[1..] == s.answers
            && t.answers[0].AnswerRecord? && t.answers[0].question == question && t.answers[0].answer == answer
            && t.answersShown
  {
  }

  /** When a record's display time runs out exactly that record goes, the
      other children stay in their order, and the container is hidden
      exactly when nothing is left in it. */
  lemma {:induction false} AnswerExpiresRemovesOnlyIt(s: State, record: Child)
    requires Inv(s) && record.AnswerRecord? && record in s.answers
    ensures var t := AnswerExpires(s, record);
            && record !in t.answers
            && |t.answers| == |s.answers| - 1
            && (forall c :: c in t.answers <==> c in s.answers && c != record)
            && (t.answersShown <==> t.answers != [])
            && t.isProcessing == s.isProcessing && t.answerQueue == s.answerQueue
            && exists i :: 0 <= i < |s.answers| && s.answers[i] == record
                           && t.answers == s.answers[..i] + s.answers[i + 1..]
  {
    var t := AnswerExpires(s, record);
    var i :| 0 <= i < |s.answers| && s.answers[i] == record;
    RemoveChildKeepsChildren(s, record);
    assert multiset(s.answers)[record] == 1;
    assert |multiset(t.answers)| == |multiset(s.answers)| - 1;
    forall c
      ensures c in t.answers <==> c in s.answers && c != record
    {
      assert c in t.answers <==> c in multiset(t.answers);
      assert c in s.answers <==> c in multiset(s.answers);
    }
    WithoutAt(s.answers, i);
  }

  // ---------------------------------------------------------------------
  // The drain loop, one reply at a time

  /** `processQueue` changes nothing while the loop runs or when the queue
      is empty. */
  lemma ProcessQueueNoOp(s: State)
    requires s.isProcessing || s.answerQueue == []
    ensures ProcessQueue(s) == s
  {
  }

  /** A rejected reply renders exactly one `Error` record carrying the
      rejection message, removes the loader, ends the loop and leaves the
      queued questions queued. */
  lemma RejectionEndsLoop(s: State, reply: Reply)
    requires s.inFlight.Some? && Rejection(reply).Some?
    ensures var t := ReplyArrives(s, reply);
            var record := AnswerRecord(s.nextRecordId, "Error", Rejection(reply).value);
            && !t.isProcessing && t.inFlight.None?
            && t.answerQueue == s.answerQueue && t.sent == s.sent
            && t.answers == [record] + Without(s.answers, Loader)
            && multiset(t.answers) == multiset(s.answers)[Loader := 0] + multiset{record}
            && Loader !in t.answers && t.answersShown
  {
    var message := Rejection(reply).value;
    var record := AnswerRecord(s.nextRecordId, "Error", message);
    var s1 := Log(s.(inFlight := None), Error, "Error processing queue: " + message);
    var s2 := AddAnswerToUI(s1, "Error", message);
    assert s2.answers == [record] + s.answers;
    var t := FinishDrain(s2);
    assert t == ReplyArrives(s, reply);
    WithoutCons(record, s.answers, Loader);
    assert multiset(t.answers) == multiset([record] + s.answers)[Loader := 0];
    assert t.answers != [];
  }

  /** A resolved reply with a non-empty answer renders it on top under the
      question in flight; with an empty answer it renders nothing.  Either
      way the next question is sent when one waits. */
  lemma ResolvedReplyRenders(s: State, reply: Reply)
    requires s.isProcessing && s.inFlight.Some? && Rejection(reply).None? && s.answerQueue != []
    ensures var t := ReplyArrives(s, reply);
            var answer := reply.response.answer;
            && t.isProcessing && t.inFlight == Some(s.answerQueue[0])
            && t.sent == s.sent + [s.answerQueue[0]] && t.answerQueue == s.answerQueue[1..]
            && (answer != "" ==> t.answers == [AnswerRecord(s.nextRecordId, s.inFlight.value, answer)] + s.answers)
            && (answer == "" ==> t.answers == s.answers && t.nextRecordId == s.nextRecordId)
  {
  }

  /** The last resolved reply ends the loop: the loader is removed once
      and the container keeps whatever records it had. */
  lemma LastReplyEndsLoop(s: State, reply: Reply)
    requires s.inFlight.Some? && Rejection(reply).None? && s.answerQueue == []
    ensures var t := ReplyArrives(s, reply);
            var answer := reply.response.answer;
            && !t.isProcessing && t.inFlight.None? && t.sent == s.sent && t.answerQueue == []
            && Loader !in t.answers
            && (answer != "" ==> t.answers == [AnswerRecord(s.nextRecordId, s.inFlight.value, answer)]
                                              + Without(s.answers, Loader))
            && (answer == "" ==> t.answers == Without(s.answers, Loader))
  {
    var answer := reply.response.answer;
    var s0 := s.(inFlight := None);
    if answer != "" {
      var record := AnswerRecord(s.nextRecordId, s.inFlight.value, answer);
      var s1 := Log(AddAnswerToUI(s0, s.inFlight.value, answer), Info, "Answer received for: " + Quoted(s.inFlight.value));
      assert s1.answers == [record] + s.answers;
      assert ReplyArrives(s, reply) == FinishDrain(s1);
      WithoutCons(record, s.answers, Loader);
    } else {
      assert ReplyArrives(s, reply) == FinishDrain(s0);
    }
  }

  // ---------------------------------------------------------------------
  // The drain loop over a whole sequence of replies

  /** Every reply in `replies` resolves the awaited promise. */
  predicate AllResolve(replies: seq<Reply>) {
    replies == [] || (Rejection(replies[0]).None? && AllResolve(replies[1..]))
  }

  /** Sending the head of `queue` and then `k - 1` more questions sends its
      first `k`. */
  lemma ShiftSlices(sent: seq<string>, queue: seq<string>, k: nat)
    requires 0 < k <= |queue|
    ensures queue[1..][k - 1..] == queue[k..]
    ensures sent + [queue[0]] + queue[1..][..k - 1] == sent + queue[..k]
  {
    assert [queue[0]] + queue[1..][..k - 1] == queue[..k];
  }

  /** One step of the loop over a list of replies. */
  lemma DrainStep(s: State, reply: Reply, rest: seq<Reply>)
    requires s.inFlight.Some?
    ensures Drain(s, [reply] + rest) == Drain(ReplyArrives(s, reply), rest)
  {
    assert ([reply] + rest)[1..] == rest;
  }

  /** With the replies in `resolved` resolving and `failing` rejecting,
      the loop sends exactly the next `|resolved|` queued questions, in
      queue order, renders one `Error` record on top, removes the loader
      and stops; the rest of the queue stays queued and the replies after
      `failing` are never awaited. */
  lemma {:induction false} DrainStopsAtFirstFailure(s: State, resolved: seq<Reply>, failing: Reply, rest: seq<Reply>)
    requires s.isProcessing && s.inFlight.Some?
    requires AllResolve(resolved) && |resolved| <= |s.answerQueue| && Rejection(failing).Some?
    ensures var k := |resolved|;
            var t := Drain(s, resolved + [failing] + rest);
            && !t.isProcessing && t.inFlight.None?
            && t.answerQueue == s.answerQueue[k..]
            && t.sent == s.sent + s.answerQueue[..k]
            && Loader !in t.answers
            && t.answers != [] && t.answers[0].AnswerRecord?
            && t.answers[0].question == "Error" && t.answers[0].answer == Rejection(failing).value
    decreases |resolved|
  {
    if resolved == [] {
      assert resolved + [failing] + rest == [failing] + rest;
      DrainStep(s, failing, rest);
      RejectionEndsLoop(s, failing);
    } else {
      assert resolved + [failing] + rest == [resolved[0]] + (resolved[1..] + [failing] + rest);
      DrainStep(s, resolved[0], resolved[1..] + [failing] + rest);
      ResolvedReplyRenders(s, resolved[0]);
      DrainStopsAtFirstFailure(ReplyArrives(s, resolved[0]), resolved[1..], failing, rest);
      ShiftSlices(s.sent, s.answerQueue, |resolved|);
    }
  }

  /** When every reply resolves and there are more of them than queued
      questions, the loop sends every queued question in queue order,
      empties the queue, removes the loader and stops. */
  lemma {:induction false} DrainAllSucceed(s: State, replies: seq<Reply>)
    requires s.isProcessing && s.inFlight.Some?
    requires AllResolve(replies) && |replies| > |s.answerQueue|
    ensures var t := Drain(s, replies);
            && !t.isProcessing && t.inFlight.None?
            && t.answerQueue == [] && t.sent == s.sent + s.answerQueue
            && Loader !in t.answers
    decreases |s.answerQueue|
  {
    if s.answerQueue == [] {
      DrainLast(s, replies);
    } else {
      DrainAllSucceedStep(s, replies[0], replies[1..]);
      assert [replies[0]] + replies[1..] == replies;
    }
  }

  lemma {:induction false} DrainAllSucceedStep(s: State, first: Reply, rest: seq<Reply>)
    requires s.isProcessing && s.inFlight.Some? && s.answerQueue != []
    requires Rejection(first).None? && AllResolve(rest) && |rest| >= |s.answerQueue|
    ensures var t := Drain(s, [first] + rest);
            && !t.isProcessing && t.inFlight.None?
            && t.answerQueue == [] && t.sent == s.sent + s.answerQueue
            && Loader !in t.answers
    decreases |s.answerQueue|, 0
  {
    DrainStep(s, first, rest);
    ResolvedReplyRenders(s, first);
    var t1 := ReplyArrives(s, first);
    assert |t1.answerQueue| < |s.answerQueue| && |rest| > |t1.answerQueue|;
    DrainAllSucceed(t1, rest);
    ShiftSlices(s.sent, s.answerQueue, |s.answerQueue|);
    assert s.answerQueue[1..][..|s.answerQueue| - 1] == s.answerQueue[1..];
    assert s.answerQueue[..|s.answerQueue|] == s.answerQueue;
  }

  lemma DrainLast(s: State, replies: seq<Reply>)
    requires s.isProcessing && s.inFlight.Some? && s.answerQueue == []
    requires replies != [] && Rejection(replies[0]).None?
    ensures var t := Drain(s, replies);
            && !t.isProcessing && t.inFlight.None?
            && t.answerQueue == [] && t.sent == s.sent
            && Loader !in t.answers
  {
    var t1 := ReplyArrives(s, replies[0]);
    assert Drain(s, replies) == Drain(t1, replies[1..]);
    LastReplyEndsLoop(s, replies[0]);
  }

  // ---------------------------------------------------------------------
  // End to end: a caption, the pause, the relay's answer

  /** A caption that differs from the last one is read, and no other
      caption comes before its pause timer fires. */
  function Settle(s: State, text: string): State
    requires text != s.lastCaption
  {
    PauseTimerFires(HandleCaption(s, text))
  }

  /** A caption that differs from the last one and is a complete question
      is, once the pause timer fires on an idle loop, the one question in
      flight, sent verbatim, under the loader. */
  lemma QuestionSentAlone(s: State, question: string)
    requires Inv(s) && !s.isProcessing && s.answerQueue == []
    requires question != s.lastCaption && IsCompleteQuestion(question)
    ensures var t := PauseTimerFires(HandleCaption(s, question));
            && t.isProcessing && t.inFlight == Some(question) && t.answerQueue == []
            && t.sent == s.sent + [question] && t.answers == [Loader] + s.answers
  {
    HandleCaptionInv(s, question);
    PauseTimerEnqueuesIff(HandleCaption(s, question));
  }

  /** The caption `question` is read and its pause timer fires: the
      question goes out alone; the relay's rejection with `message` then
      comes back, is rendered at the top as an `Error` record carrying
      that message, the loader is gone and the loop ends. */
  predicate RejectedAfterPause(s: State, question: string, message: string) {
    question != s.lastCaption
    && var t := PauseTimerFires(HandleCaption(s, question));
       && t.inFlight == Some(question) && t.sent == s.sent + [question]
       && var u := ReplyArrives(t, Delivered(Background.QuestionResponse(message, Background.StatusError)));
          && !u.isProcessing && Loader !in u.answers
          && u.answers != [] && u.answers[0] == AnswerRecord(t.nextRecordId, "Error", message)
  }

  /** A question sent on its own that the relay rejects with `message` is
      rendered as an `Error` record carrying that message, and the loop
      ends. */
  lemma SentQuestionRejected(s: State, question: string, message: string)
    requires Inv(s) && !s.isProcessing && s.answerQueue == []
    requires question != s.lastCaption && IsCompleteQuestion(question)
    ensures RejectedAfterPause(s, question, message)
  {
    var t := PauseTimerFires(HandleCaption(s, question));
    var reply := Delivered(Background.QuestionResponse(message, Background.StatusError));
    QuestionSentAlone(s, question);
    assert Rejection(reply) == Some(message);
    RejectionEndsLoop(t, reply);
  }

  /** The text the relay answers with when no key is stored. */
  const NoKeyAnswer := "Error: " + Background.NoKeyMessage

  /** A caption that becomes a question is sent to the relay on its own;
      when the relay has no key stored it sends no request and answers
      with an error, and the page renders an `Error` record whose text
      carries the `Error: ` prefix the relay added. */
  lemma NoKeyRendersError(s: State, question: string, fetch: FetchOutcome)
    requires Inv(s) && !s.isProcessing && s.answerQueue == []
    requires question != s.lastCaption && IsCompleteQuestion(question)
    ensures Background.HandleQuestionAsync(question, Read(None), fetch)
         == Background.Exchange(None, Background.QuestionResponse(NoKeyAnswer, Background.StatusError))
    ensures RejectedAfterPause(s, question, NoKeyAnswer)
  {
    Background.NoKeyReply(question, None, fetch);
    SentQuestionRejected(s, question, NoKeyAnswer);
  }

  /** A question the relay answers successfully with a non-empty answer is
      shown with that answer, under the question as it was captioned, and
      the loop ends. */
  lemma QuestionAnswered(s: State, question: string, answer: string)
    requires Inv(s) && !s.isProcessing && s.answerQueue == []
    requires question != s.lastCaption && IsCompleteQuestion(question) && answer != ""
    ensures var t := PauseTimerFires(HandleCaption(s, question));
            && t.inFlight == Some(question) && t.sent == s.sent + [question]
            && var u := ReplyArrives(t, Delivered(Background.QuestionResponse(answer, Background.StatusSuccess)));
               && !u.isProcessing && Loader !in u.answers
               && u.answers != [] && u.answers[0] == AnswerRecord(t.nextRecordId, question, answer)
  {
    var t := PauseTimerFires(HandleCaption(s, question));
    var reply := Delivered(Background.QuestionResponse(answer, Background.StatusSuccess));
    QuestionSentAlone(s, question);
    assert Background.StatusSuccess != Background.StatusError by {
      assert Background.StatusSuccess[0] == 's' && Background.StatusError[0] == 'e';
    }
    assert Rejection(reply).None?;
    LastReplyEndsLoop(t, reply);
  }

  /** `What time is the meeting?` passes both checks. */
  lemma MeetingQuestionIsComplete()
    ensures IsCompleteQuestion("What time is the meeting?")
  {
    var question := "What time is the meeting?";
    assert question[0] == 'W' && question[|question| - 1] == '?';
    assert TrimStart(question) == question;
    assert TrimEnd(question) == question;
    assert Trim(question) == question;
    assert question[|question| - 1..] == "?";
  }

  /** The relay's side of the worked example: an ok response whose text
      is `3 PM` reaches the page as the answer `3 PM`. */
  lemma ThreePmAnswer(question: string, apiKey: string)
    requires apiKey != ""
    ensures Background.HandleQuestionAsync(question, Read(Some(apiKey)),
                                           Responded(200, Json(None, Some([ContentBlock(Some("3 PM"))]))))
         == Background.Exchange(Some(Background.QuestionRequest(apiKey, question)),
                                Background.QuestionResponse("3 PM", Background.StatusSuccess))
  {
    var text := "3 PM";
    assert text[0] == '3' && text[|text| - 1] == 'M';
    Background.OkAnswerRelayed(question, apiKey, 200, text);
  }

  /** The question of the worked example. */
  const MeetingQuestion: string := "What time is the meeting?"

  /** The worked example end to end: the caption `What time is the
      meeting?` settles while the loop is idle, the relay asks the API once
      and gets `3 PM`, and the page shows `3 PM` under that question with
      the loop over. */
  lemma MeetingQuestionAnsweredThreePm(s: State, apiKey: string)
    requires Inv(s) && !s.isProcessing && s.answerQueue == []
    requires s.lastCaption != MeetingQuestion && apiKey != ""
    ensures Background.HandleQuestionAsync(MeetingQuestion, Read(Some(apiKey)),
                                           Responded(200, Json(None, Some([ContentBlock(Some("3 PM"))]))))
         == Background.Exchange(Some(Background.QuestionRequest(apiKey, MeetingQuestion)),
                                Background.QuestionResponse("3 PM", Background.StatusSuccess))
    ensures var t := Settle(s, MeetingQuestion);
            && t.inFlight == Some(MeetingQuestion) && t.sent == s.sent + [MeetingQuestion]
            && var u := ReplyArrives(t, Delivered(Background.QuestionResponse("3 PM", Background.StatusSuccess)));
               && !u.isProcessing && Loader !in u.answers
               && u.answers != [] && u.answers[0] == AnswerRecord(t.nextRecordId, MeetingQuestion, "3 PM")
  {
    var q := MeetingQuestion;
    var answer := "3 PM";
    assert answer[0] == '3';
    MeetingQuestionIsComplete();
    ThreePmAnswer(q, apiKey);
    QuestionAnswered(s, q, answer);
  }
}
