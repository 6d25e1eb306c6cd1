/**
 * The invariant every event of the caption pipeline keeps: questions
 * reach the relay in the order they were detected, at most one is in
 * flight and only while the drain loop runs, the loader is on the page
 * exactly while the loop runs, each rendered child appears once, the
 * answer container is displayed exactly when it has children, and the log
 * never holds more than twenty entries.
 */
module PipelineInvariant {
  import opened Wrappers
  import opened Pipeline

  /** Every child appears once and every record's id was handed out. */
  ghost predicate ChildrenDistinct(cs: seq<Child>, nextRecordId: nat) {
    && (forall c | c in cs :: multiset(cs)[c] == 1)
    && (forall c | c in cs && c.AnswerRecord? :: c.id < nextRecordId)
  }

  ghost predicate Inv(s: State) {
    // FIFO: what was detected is what was sent followed by what waits
    && s.detected == s.sent + s.answerQueue
    // one request outstanding, exactly while the loop runs: the last sent
    && (s.isProcessing <==> s.inFlight.Some?)
    && (s.inFlight.Some? ==> s.sent != [] && s.inFlight.value == s.sent[|s.sent| - 1])
    // the single loader is shown exactly while the loop runs
    && multiset(s.answers)[Loader] == (if s.isProcessing then 1 else 0)
    && ChildrenDistinct(s.answers, s.nextRecordId)
    && s.answersShown == (s.answers != [])
    // an armed timer will evaluate the last caption seen
    && (s.pauseTimerArmed ==> s.captionBuffer == s.lastCaption)
    && |s.logs| <= LogCapacity
    && s.logsShown == (s.logs != [])
  }

  lemma InitInv()
    ensures Inv(Init())
  {
  }

  lemma {:induction false} AddAnswerKeepsChildren(s: State, question: string, answer: string)
    requires ChildrenDistinct(s.answers, s.nextRecordId)
    ensures var t := AddAnswerToUI(s, question, answer);
            && ChildrenDistinct(t.answers, t.nextRecordId)
            && multiset(t.answers)[Loader] == multiset(s.answers)[Loader]
            && t.answers != [] && t.answersShown
  {
    var r := AnswerRecord(s.nextRecordId, question, answer);
    var t := AddAnswerToUI(s, question, answer);
    assert r !in s.answers;
    forall c | c in t.answers
      ensures multiset(t.answers)[c] == 1
    {
      if c != r {
        assert c in s.answers;
      }
    }
  }

  lemma {:induction false} RemoveChildKeepsChildren(s: State, c: Child)
    requires ChildrenDistinct(s.answers, s.nextRecordId)
    requires s.answersShown == (s.answers != [])
    ensures var t := RemoveChild(s, c);
            && ChildrenDistinct(t.answers, t.nextRecordId)
            && multiset(t.answers)[Loader] == (if c == Loader then 0 else multiset(s.answers)[Loader])
            && t.answersShown == (t.answers != [])
  {
    var t := RemoveChild(s, c);
    forall x | x in t.answers
      ensures multiset(t.answers)[x] == 1 && (x.AnswerRecord? ==> x.id < t.nextRecordId)
    {
      assert x in multiset(t.answers);
      assert x in s.answers;
    }
    if t.answers != [] {
      assert t.answers[0] in multiset(s.answers);
    }
  }

  lemma LogKeepsInv(s: State, level: Level, message: string)
    requires Inv(s)
    ensures Inv(Log(s, level, message))
  {
  }

  lemma {:induction false} SendNextAfterLoaderInv(s: State)
    requires s.answerQueue != [] && s.isProcessing && s.inFlight.None?
    requires s.detected == s.sent + s.answerQueue
    requires multiset(s.answers)[Loader] == 1
    requires ChildrenDistinct(s.answers, s.nextRecordId) && s.answersShown == (s.answers != [])
    requires (s.pauseTimerArmed ==> s.captionBuffer == s.lastCaption)
    requires |s.logs| <= LogCapacity
    ensures Inv(SendNext(s))
  {
    var t := SendNext(s);
    assert s.answerQueue == [s.answerQueue[0]] + s.answerQueue[1..];
    assert t.sent + t.answerQueue == s.sent + s.answerQueue;
  }

  lemma {:induction false} ProcessQueueInv(s: State)
    requires Inv(s)
    ensures Inv(ProcessQueue(s))
  {
    if !(s.isProcessing || s.answerQueue == []) {
      var s1 := ShowLoadingIndicator(s.(isProcessing := true));
      assert Loader !in s.answers;
      forall c | c in s1.answers
        ensures multiset(s1.answers)[c] == 1
      {
        if c != Loader {
          assert c in s.answers;
        }
      }
      SendNextAfterLoaderInv(s1);
    }
  }

  lemma {:induction false} ProcessCompleteCaptionInv(s: State, text: string)
    requires Inv(s)
    ensures Inv(ProcessCompleteCaption(s, text))
    ensures ProcessCompleteCaption(s, text).pauseTimerArmed == s.pauseTimerArmed
  {
    if IsCompleteQuestion(text) {
      var s1 := Log(s, Info, "Complete question detected: " + Quoted(text));
      var s2 := s1.(answerQueue := s1.answerQueue + [text], detected := s1.detected + [text]);
      assert s2.detected == s2.sent + s2.answerQueue;
      ProcessQueueInv(s2);
    }
  }

  lemma HandleCaptionInv(s: State, text: string)
    requires Inv(s)
    ensures Inv(HandleCaption(s, text))
  {
    LogKeepsInv(s, Debug, "Caption received: " + Quoted(text));
  }

  lemma PauseTimerFiresInv(s: State)
    requires Inv(s) && s.pauseTimerArmed
    ensures Inv(PauseTimerFires(s))
  {
    var s1 := s.(pauseTimerArmed := false);
    ProcessCompleteCaptionInv(s1, s.captionBuffer);
    ClearBufferInv(ProcessCompleteCaption(s1, s.captionBuffer));
  }

  /** With no timer pending, the buffer can be cleared. */
  lemma ClearBufferInv(t: State)
    requires Inv(t) && !t.pauseTimerArmed
    ensures Inv(t.(captionBuffer := ""))
  {
  }

  lemma {:induction false} ReplyArrivesInv(s: State, reply: Reply)
    requires Inv(s) && s.inFlight.Some?
    ensures Inv(ReplyArrives(s, reply))
  {
    var question := s.inFlight.value;
    var s0 := s.(inFlight := None);
    match Rejection(reply)
    case Some(message) =>
      var s1 := Log(s0, Error, "Error processing queue: " + message);
      AddAnswerKeepsChildren(s1, "Error", message);
      RemoveChildKeepsChildren(AddAnswerToUI(s1, "Error", message), Loader);
    case None =>
      var answer := reply.response.answer;
      if answer != "" {
        AddAnswerKeepsChildren(s0, question, answer);
      }
      var s1 := if answer != "" then Log(AddAnswerToUI(s0, question, answer), Info, "Answer received for: " + Quoted(question))
                else s0;
      if s1.answerQueue != [] {
        SendNextAfterLoaderInv(s1);
      } else {
        RemoveChildKeepsChildren(s1, Loader);
      }
  }

  lemma {:induction false} StepInv(s: State, e: Event)
    requires Inv(s) && Enabled(s, e)
    ensures Inv(Step(s, e))
  {
    match e
    case CaptionRead(text) => HandleCaptionInv(s, text);
    case PauseTimeout => PauseTimerFiresInv(s);
    case ReplyReceived(reply) => ReplyArrivesInv(s, reply);
    case DisplayTimeout(record) => RemoveChildKeepsChildren(s, record);
    case PageUnload => assert Unload(s) == s.(pauseTimerArmed := false);
  }

  /** `events` can happen one after the other from `s`. */
  ghost predicate Trace(s: State, events: seq<Event>)
    decreases |events|
  {
    events == [] || (Enabled(s, events[0]) && Trace(Step(s, events[0]), events[1..]))
  }

  /** The state after `events`. */
  function Run(s: State, events: seq<Event>): State
    requires Trace(s, events)
    decreases |events|
  {
    if events == [] then s else Run(Step(s, events[0]), events[1..])
  }

  /** The invariant holds after any sequence of enabled events. */
  lemma {:induction false} RunInv(s: State, events: seq<Event>)
    requires Inv(s) && Trace(s, events)
    ensures Inv(Run(s, events))
    decreases |events|
  {
    if events != [] {
      StepInv(s, events[0]);
      RunInv(Step(s, events[0]), events[1..]);
    }
  }

  /** Over any run from the initial state: the relay receives questions in
      detection order, and the log and the loader stay bounded. */
  lemma ReachableInv(events: seq<Event>)
    requires Trace(Init(), events)
    ensures var s := Run(Init(), events);
            && s.detected == s.sent + s.answerQueue
            && |s.logs| <= LogCapacity
            && multiset(s.answers)[Loader] <= 1
            && (s.answersShown <==> s.answers != [])
  {
    InitInv();
    RunInv(Init(), events);
  }
}
