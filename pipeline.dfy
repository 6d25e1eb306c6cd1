/**
 * The caption-to-question pipeline of the page script, as a state and one
 * function per operation giving the state after it.  Timers and the
 * relay are events: the pause timer expiring, the reply to the one
 * outstanding question arriving, an answer's display time running out,
 * the page unloading.  The `while` loop that drains the queue awaits each
 * reply, so each of its iterations after the first runs when a reply
 * arrives (`ReplyArrives`); `Drain` strings those together when nothing
 * else happens in between.
 */
module Pipeline {
  import opened Wrappers
  import opened Text
  import Background

  // ---------------------------------------------------------------------
  // The debug log: newest entry first, at most LogCapacity entries

  datatype Level = Info | Debug | Error

  /** A log line: its level and its message (the wall-clock time stamp in
      front of it is not modelled). */
  datatype LogEntry = LogEntry(level: Level, message: string)

  const LogCapacity: nat := 20

  /** Prepends `entry`, then drops the oldest entry when the list has grown
      beyond the cap. */
  function PushLog(logs: seq<LogEntry>, entry: LogEntry): (r: seq<LogEntry>)
    ensures |logs| <= LogCapacity ==> |r| <= LogCapacity
    ensures |r| == (if |logs| < LogCapacity then |logs| + 1 else |logs|)
    ensures r[0] == entry && r[1..] == logs[..|r| - 1]
  {
    var l := [entry] + logs;
    if |l| > LogCapacity then l[..|l| - 1] else l
  }

  /** The message text `"..."` around a caption or question. */
  function Quoted(text: string): string {
    "\"" + text + "\""
  }

  // ---------------------------------------------------------------------
  // The state

  /** A child of the answer container: the shared loading indicator, or a
      rendered answer (`id` tells apart records with the same text, as
      distinct DOM elements are told apart). */
  datatype Child = Loader | AnswerRecord(id: nat, question: string, answer: string)

  /** What the relay's callback receives: `chrome.runtime.lastError` set,
      or the relay's response. */
  datatype Reply =
    | RuntimeError(message: string)
    | Delivered(response: Background.QuestionResponse)

  datatype State = State(
    lastCaption: string,          // the last caption text seen
    captionBuffer: string,        // the caption waiting for the pause timer
    pauseTimerArmed: bool,        // a pause timer is pending
    answerQueue: seq<string>,     // questions waiting to be sent, oldest first
    isProcessing: bool,           // the drain loop is running
    inFlight: Option<string>,     // the question whose reply the loop awaits
    answers: seq<Child>,          // the answer container's children, first shown on top
    answersShown: bool,           // the answer container is displayed
    nextRecordId: nat,            // tells rendered records apart
    logs: seq<LogEntry>,          // the log container's children, newest first
    logsShown: bool,              // the log container is displayed
    detected: seq<string>,        // every question ever enqueued, in order
    sent: seq<string>)            // every question sent to the relay, in order

  /** `log`: with debug mode on, every level is shown and the container
      is displayed. */
  function Log(s: State, level: Level, message: string): State {
    s.(logs := PushLog(s.logs, LogEntry(level, message)), logsShown := true)
  }

  /** The state once the script has loaded and set up its observer. */
  function Init(): State {
    var s := State("", "", false, [], false, None, [], false, 0, [], false, [], []);
    var s1 := Log(s, Info, "Initializing caption observer...");
    var s2 := Log(s1, Info, "Caption observer initialized successfully");
    Log(s2, Info, "Meeting Assistant initialized")
  }

  // ---------------------------------------------------------------------
  // The answer container

  /** The children without `c` (the DOM `remove` of that element; nothing
      changes when it is not there). */
  function Without(cs: seq<Child>, c: Child): (r: seq<Child>)
    ensures multiset(r) == multiset(cs)[c := 0]
    ensures c !in r
    ensures c !in cs ==> r == cs
  {
    if cs == [] then []
    else
      assert cs == [cs[0]] + cs[1..];
      if cs[0] == c then Without(cs[1..], c) else [cs[0]] + Without(cs[1..], c)
  }

  /** Removing one child leaves the children in front of it in front. */
  lemma WithoutCons(x: Child, cs: seq<Child>, c: Child)
    requires x != c
    ensures Without([x] + cs, c) == [x] + Without(cs, c)
  {
    assert ([x] + cs)[1..] == cs;
  }

  /** Removing a child that appears once takes out exactly its position:
      the children before and after it keep their order. */
  lemma {:induction false} WithoutAt(cs: seq<Child>, i: nat)
    requires i < |cs| && multiset(cs)[cs[i]] == 1
    ensures Without(cs, cs[i]) == cs[..i] + cs[i + 1..]
    decreases i
  {
    var c := cs[i];
    assert cs == [cs[0]] + cs[1..];
    assert multiset(cs) == multiset([cs[0]]) + multiset(cs[1..]);
    if i == 0 {
      assert c !in multiset(cs[1..]);
      assert Without(cs, c) == Without(cs[1..], c);
    } else {
      assert cs[0] != c;
      assert cs[1..][i - 1] == c;
      WithoutAt(cs[1..], i - 1);
      assert Without(cs, c) == [cs[0]] + Without(cs[1..], c);
      assert cs[..i] == [cs[0]] + cs[1..][..i - 1];
      assert cs[i + 1..] == cs[1..][i..];
    }
  }

  /** `addAnswerToUI`: a new record on top, the container displayed. */
  function AddAnswerToUI(s: State, question: string, answer: string): State {
    s.(answers := [AnswerRecord(s.nextRecordId, question, answer)] + s.answers,
       answersShown := true,
       nextRecordId := s.nextRecordId + 1)
  }

  /** `showLoadingIndicator`: the loader on top, the container displayed. */
  function ShowLoadingIndicator(s: State): State {
    s.(answers := [Loader] + s.answers, answersShown := true)
  }

  /** Removes one child, then hides the container when it has no children
      left (otherwise its display is left as it was). */
  function RemoveChild(s: State, c: Child): State {
    var rest := Without(s.answers, c);
    s.(answers := rest, answersShown := if rest == [] then false else s.answersShown)
  }

  /** The function `showLoadingIndicator` returns. */
  function RemoveLoader(s: State): State {
    RemoveChild(s, Loader)
  }

  /** The display timer of `record` fires. */
  function AnswerExpires(s: State, record: Child): State
    requires record.AnswerRecord?
  {
    RemoveChild(s, record)
  }

  // ---------------------------------------------------------------------
  // Caption handling

  /** `/[.!?]$/` on an already trimmed text. */
  predicate HasEndPunctuation(t: string) {
    t != [] && (t[|t| - 1] == '.' || t[|t| - 1] == '!' || t[|t| - 1] == '?')
  }

  /** Both checks of `processCompleteCaption`, on the trimmed text. */
  predicate IsCompleteQuestion(text: string) {
    var t := Trim(text);
    EndsWith(t, "?") && HasEndPunctuation(t)
  }

  /** `handleCaption`: any pending pause timer is cancelled; a text that
      differs from the last one replaces buffer and last caption and arms a
      new timer. */
  function HandleCaption(s: State, text: string): State {
    var s1 := Log(s, Debug, "Caption received: " + Quoted(text)).(pauseTimerArmed := false);
    if text != s1.lastCaption then s1.(captionBuffer := text, lastCaption := text, pauseTimerArmed := true)
    else s1
  }

  /** `processCompleteCaption`: a complete question is appended to the
      queue, untrimmed, and the queue is kicked. */
  function ProcessCompleteCaption(s: State, text: string): State {
    if IsCompleteQuestion(text) then
      var s1 := Log(s, Info, "Complete question detected: " + Quoted(text));
      ProcessQueue(s1.(answerQueue := s1.answerQueue + [text], detected := s1.detected + [text]))
    else
      Log(s, Debug, "Incomplete or non-question caption: " + Quoted(text))
  }

  /** The pause timer's callback: the buffer is evaluated, then cleared.
      The last caption is kept. */
  function PauseTimerFires(s: State): State
    requires s.pauseTimerArmed
  {
    ProcessCompleteCaption(s.(pauseTimerArmed := false), s.captionBuffer).(captionBuffer := "")
  }

  /** The page unloads: the pause timer is cancelled. */
  function Unload(s: State): State {
    s.(pauseTimerArmed := false)
  }

  // ---------------------------------------------------------------------
  // Queue processing

  /** The head of the drain loop: shift the oldest question, log it, send
      it to the relay and await the reply. */
  function SendNext(s: State): State
    requires s.answerQueue != []
  {
    var question := s.answerQueue[0];
    var s1 := Log(s.(answerQueue := s.answerQueue[1..]), Info, "Processing question: " + Quoted(question));
    s1.(inFlight := Some(question), sent := s1.sent + [question])
  }

  /** `processQueue` up to its first `await`: nothing happens while the
      loop already runs or when the queue is empty; otherwise the loop
      starts under the loader and sends the oldest question. */
  function ProcessQueue(s: State): State {
    if s.isProcessing || s.answerQueue == [] then s
    else SendNext(ShowLoadingIndicator(s.(isProcessing := true)))
  }

  /** The message a reply rejects the awaited promise with, or `None` when
      it resolves it. */
  function Rejection(reply: Reply): Option<string> {
    match reply
    case RuntimeError(message) => Some(message)
    case Delivered(response) =>
      if response.status == Background.StatusError then Some(response.answer) else None
  }

  /** The `finally` block: the loader goes, the loop is over. */
  function FinishDrain(s: State): State {
    RemoveLoader(s).(isProcessing := false)
  }

  /** The drain loop resumes with the reply to the question in flight.  A
      rejection renders one `Error` record and ends the loop, leaving the
      rest of the queue queued; a resolved reply renders its answer when it
      is non-empty and goes on with the next question or ends the loop. */
  function ReplyArrives(s: State, reply: Reply): State
    requires s.inFlight.Some?
  {
    var question := s.inFlight.value;
    var s0 := s.(inFlight := None);
    match Rejection(reply)
    case Some(message) =>
      FinishDrain(AddAnswerToUI(Log(s0, Error, "Error processing queue: " + message), "Error", message))
    case None =>
      var answer := reply.response.answer;
      var s1 := if answer != "" then Log(AddAnswerToUI(s0, question, answer), Info, "Answer received for: " + Quoted(question))
                else s0;
      if s1.answerQueue != [] then SendNext(s1) else FinishDrain(s1)
  }

  /** The drain loop given the relay's replies in order, with no other
      event in between: it stops when the loop has ended or the replies
      run out. */
  function Drain(s: State, replies: seq<Reply>): State
    decreases |replies|
  {
    if s.inFlight.None? || replies == [] then s
    else Drain(ReplyArrives(s, replies[0]), replies[1..])
  }

  // ---------------------------------------------------------------------
  // Events

  datatype Event =
    | CaptionRead(text: string)
    | PauseTimeout
    | ReplyReceived(reply: Reply)
    | DisplayTimeout(record: Child)
    | PageUnload

  /** Which events can happen: the observer hands over only a non-empty
      caption text, a timer fires only when armed, a reply only comes to a
      question in flight, a display timer belongs to a record. */
  predicate Enabled(s: State, e: Event) {
    match e
    case CaptionRead(text) => text != ""
    case PauseTimeout => s.pauseTimerArmed
    case ReplyReceived(_) => s.inFlight.Some?
    case DisplayTimeout(record) => record.AnswerRecord?
    case PageUnload => true
  }

  function Step(s: State, e: Event): State
    requires Enabled(s, e)
  {
    match e
    case CaptionRead(text) => HandleCaption(s, text)
    case PauseTimeout => PauseTimerFires(s)
    case ReplyReceived(reply) => ReplyArrives(s, reply)
    case DisplayTimeout(record) => AnswerExpires(s, record)
    case PageUnload => Unload(s)
  }
}
