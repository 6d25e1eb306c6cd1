/**
 * The page script as the object it is: module-level variables that its
 * handlers update in place.  Each method changes the fields as the
 * corresponding function of `Pipeline` says, and the event handlers keep
 * the invariant of `PipelineInvariant`.  `RunQueue` is the drain loop of
 * `processQueue` itself, run with the relay's replies to its awaits.
 */
module Content {
  import opened Wrappers
  import opened Pipeline
  import opened PipelineInvariant

  class CaptionPipeline {
    var lastCaption: string
    var captionBuffer: string
    var pauseTimerArmed: bool
    var answerQueue: seq<string>
    var isProcessing: bool
    var inFlight: Option<string>
    var answers: seq<Child>
    var answersShown: bool
    var nextRecordId: nat
    var logs: seq<LogEntry>
    var logsShown: bool
    /** What has been enqueued and what has been sent, for the proofs. */
    ghost var detected: seq<string>
    ghost var sent: seq<string>

    /** The fields as one `Pipeline.State`. */
    ghost function Current(): State
      reads this
    {
      State(lastCaption, captionBuffer, pauseTimerArmed, answerQueue, isProcessing, inFlight,
            answers, answersShown, nextRecordId, logs, logsShown, detected, sent)
    }

    ghost predicate Valid()
      reads this
    {
      Inv(Current())
    }

    /** The script loads: empty state, the observer set up, three log
        lines. */
    constructor ()
      ensures Current() == Init() && Valid()
    {
      lastCaption, captionBuffer, pauseTimerArmed := "", "", false;
      answerQueue, isProcessing, inFlight := [], false, None;
      answers, answersShown, nextRecordId := [], false, 0;
      logs, logsShown := [], false;
      detected, sent := [], [];
      new;
      Log(Info, "Initializing caption observer...");
      Log(Info, "Caption observer initialized successfully");
      Log(Info, "Meeting Assistant initialized");
      InitInv();
    }

    /** `log`: the entry goes on top, the oldest goes once there are more
        than twenty. */
    method Log(level: Level, message: string)
      modifies this
      ensures Current() == Pipeline.Log(old(Current()), level, message)
    {
      logsShown := true;
      logs := [LogEntry(level, message)] + logs;
      if |logs| > LogCapacity {
        logs := logs[..|logs| - 1];
      }
    }

    /** `handleCaption`. */
    method HandleCaption(text: string)
      requires Valid()
      modifies this
      ensures Current() == Pipeline.HandleCaption(old(Current()), text) && Valid()
    {
      HandleCaptionInv(Current(), text);
      Log(Debug, "Caption received: " + Quoted(text));
      pauseTimerArmed := false;
      if text != lastCaption {
        captionBuffer := text;
        lastCaption := text;
        pauseTimerArmed := true;
      }
    }

    /** The pause timer's callback. */
    method PauseTimerFires()
      requires Valid() && pauseTimerArmed
      modifies this
      ensures Current() == Pipeline.PauseTimerFires(old(Current())) && Valid()
    {
      ghost var s := Current();
      var text := captionBuffer;
      pauseTimerArmed := false;
      assert Current() == s.(pauseTimerArmed := false);
      ProcessCompleteCaption(text);
      ghost var s1 := Current();
      assert s1 == Pipeline.ProcessCompleteCaption(s.(pauseTimerArmed := false), s.captionBuffer);
      captionBuffer := "";
      assert Current() == s1.(captionBuffer := "");
      assert Current() == Pipeline.PauseTimerFires(s);
      PauseTimerFiresInv(s);
    }

    /** `processCompleteCaption`. */
    method ProcessCompleteCaption(text: string)
      modifies this
      ensures Current() == Pipeline.ProcessCompleteCaption(old(Current()), text)
    {
      if IsCompleteQuestion(text) {
        Log(Info, "Complete question detected: " + Quoted(text));
        answerQueue := answerQueue + [text];
        detected := detected + [text];
        ProcessQueue();
      } else {
        Log(Debug, "Incomplete or non-question caption: " + Quoted(text));
      }
    }

    /** `processQueue` up to its first `await`. */
    method ProcessQueue()
      modifies this
      ensures Current() == Pipeline.ProcessQueue(old(Current()))
    {
      if isProcessing || answerQueue == [] {
        return;
      }
      isProcessing := true;
      ShowLoadingIndicator();
      SendNext();
    }

    /** The head of the drain loop: shift, log, send. */
    method SendNext()
      requires answerQueue != []
      modifies this
      ensures Current() == Pipeline.SendNext(old(Current()))
    {
      var question := answerQueue[0];
      answerQueue := answerQueue[1..];
      Log(Info, "Processing question: " + Quoted(question));
      inFlight := Some(question);
      sent := sent + [question];
    }

    /** The drain loop resumes with `reply`: the rest of the loop body, or
        the `catch` block, and the `finally` block when the loop ends. */
    method ReplyArrives(reply: Reply)
      requires Valid() && inFlight.Some?
      modifies this
      ensures Current() == Pipeline.ReplyArrives(old(Current()), reply) && Valid()
    {
      ghost var s := Current();
      var question := inFlight.value;
      inFlight := None;
      ghost var s0 := Current();
      assert s0 == s.(inFlight := None);
      match Rejection(reply) {
      case Some(message) =>
        Log(Error, "Error processing queue: " + message);
        AddAnswerToUI("Error", message);
        FinishDrain();
        assert Current() == Pipeline.FinishDrain(Pipeline.AddAnswerToUI(
                              Pipeline.Log(s0, Error, "Error processing queue: " + message), "Error", message));
      case None =>
        var answer := reply.response.answer;
        if answer != "" {
          AddAnswerToUI(question, answer);
          Log(Info, "Answer received for: " + Quoted(question));
        }
        ghost var s1 := Current();
        assert s1 == (if answer != "" then Pipeline.Log(Pipeline.AddAnswerToUI(s0, question, answer), Info, "Answer received for: " + Quoted(question))
                      else s0);
        if answerQueue != [] {
          SendNext();
          assert Current() == Pipeline.SendNext(s1);
        } else {
          FinishDrain();
          assert Current() == Pipeline.FinishDrain(s1);
        }
      }
      assert Current() == Pipeline.ReplyArrives(s, reply);
      ReplyArrivesInv(s, reply);
    }

    /** The `finally` block. */
    method FinishDrain()
      modifies this
      ensures Current() == Pipeline.FinishDrain(old(Current()))
    {
      RemoveLoader();
      isProcessing := false;
    }

    /** `processQueue` as a whole, with `replies` the relay's replies to its
        awaits in order: when the loop is not already running and there is
        a question, it runs until it ends or the replies run out, and
        `used` of them were awaited.  Otherwise nothing happens. */
    method RunQueue(replies: seq<Reply>) returns (used: nat)
      requires Valid()
      modifies this
      ensures Valid() && used <= |replies|
      ensures old(isProcessing) || old(answerQueue) == [] ==> Current() == old(Current()) && used == 0
      ensures !old(isProcessing) && old(answerQueue) != [] ==>
                Current() == Drain(Pipeline.ProcessQueue(old(Current())), replies)
    {
      used := 0;
      if isProcessing || answerQueue == [] {
        return;
      }
      ghost var start := Pipeline.ProcessQueue(Current());
      ProcessQueueInv(Current());
      ProcessQueue();
      assert replies[used..] == replies;
      while isProcessing && used < |replies|
        invariant Valid() && used <= |replies|
        invariant Drain(Current(), replies[used..]) == Drain(start, replies)
        decreases |replies| - used
      {
        ghost var c := Current();
        assert replies[used..][1..] == replies[used + 1..];
        assert Drain(c, replies[used..]) == Drain(Pipeline.ReplyArrives(c, replies[used]), replies[used + 1..]);
        ReplyArrives(replies[used]);
        used := used + 1;
      }
      assert Drain(Current(), replies[used..]) == Current();
    }

    /** `addAnswerToUI`, the display timer armed by it being the
        `AnswerExpires` event. */
    method AddAnswerToUI(question: string, answer: string)
      modifies this
      ensures Current() == Pipeline.AddAnswerToUI(old(Current()), question, answer)
    {
      answers := [AnswerRecord(nextRecordId, question, answer)] + answers;
      answersShown := true;
      nextRecordId := nextRecordId + 1;
    }

    /** `showLoadingIndicator`. */
    method ShowLoadingIndicator()
      modifies this
      ensures Current() == Pipeline.ShowLoadingIndicator(old(Current()))
    {
      answers := [Loader] + answers;
      answersShown := true;
    }

    /** The DOM `remove` of one child of the answer container, then the
        emptiness check that hides it. */
    method RemoveChild(c: Child)
      modifies this
      ensures Current() == Pipeline.RemoveChild(old(Current()), c)
    {
      answers := Without(answers, c);
      if answers == [] {
        answersShown := false;
      }
    }

    /** The function `showLoadingIndicator` returns. */
    method RemoveLoader()
      modifies this
      ensures Current() == Pipeline.RemoveLoader(old(Current()))
    {
      RemoveChild(Loader);
    }

    /** The display timer of `record` fires. */
    method AnswerExpires(record: Child)
      requires Valid() && record.AnswerRecord?
      modifies this
      ensures Current() == Pipeline.AnswerExpires(old(Current()), record) && Valid()
    {
      RemoveChildKeepsChildren(Current(), record);
      RemoveChild(record);
    }

    /** The `unload` listener. */
    method Unload()
      requires Valid()
      modifies this
      ensures Current() == Pipeline.Unload(old(Current())) && Valid()
    {
      pauseTimerArmed := false;
    }
  }
}
