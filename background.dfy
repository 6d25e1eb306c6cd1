/**
 * The background relay: the only script that holds the API key and calls
 * the remote messages API.  Each handler is a straight-line mapping from
 * the outcomes of its storage read and its `fetch` to the request it
 * sends (if any) and the response it hands back, so every handler here is
 * a function of those outcomes.
 */
module Background {
  import opened Wrappers
  import opened Text
  import opened Net

  /** The token budget of a question request. */
  const MaxTokens: nat := 600

  const NoKeyMessage: string :=
    "API key not configured." + " Please set up your API key in the extension settings."
  const NetworkMessage: string := "Network error." + " Please check your internet connection."
  const WrapPrefix: string := "Failed to get response: "
  const InvalidFormatMessage: string := "Invalid API response format"
  const ApiErrorPrefix: string := "API Error: "

  /** What one handler did: the request it sent (`None` when it sent none)
      and what it produced. */
  datatype Exchange<T> = Exchange(sent: Option<Request>, response: T)

  /** The request for one question: 600 tokens, the question verbatim as
      the single user message. */
  function QuestionRequest(apiKey: string, question: string): Request {
    MessagesRequest(apiKey, MaxTokens, question)
  }

  /** `data.content[0].text` when `content`, `content[0]` and its `text`
      are all present and the text is non-empty; `None` otherwise. */
  function FirstText(content: Option<seq<ContentBlock>>): (t: Option<string>)
    ensures t.Some? <==> content.Some? && |content.value| > 0 && Truthy(content.value[0].text)
    ensures t.Some? ==> t == content.value[0].text && t.value != ""
  {
    if content.None? || content.value == [] then None
    else if !Truthy(content.value[0].text) then None
    else content.value[0].text
  }

  /** The message of the error thrown for a non-ok status: the API's own
      `error.message`, or `Status N` when that is absent or empty. */
  function ApiErrorMessage(errorMessage: Option<string>, status: nat): string {
    ApiErrorPrefix + (if Truthy(errorMessage) then errorMessage.value else "Status " + NatToString(status))
  }

  /** The `try` block of `processQuestion` after the request is sent:
      the trimmed answer text, or the error that escapes the block. */
  function AwaitAnswer(fetch: FetchOutcome): Result<string, ErrorInfo> {
    match fetch
    case Rejected(e) => Failure(e)
    case Responded(status, body) =>
      match body
      case Unreadable(e) => Failure(e)
      case Json(errorMessage, content) =>
        if !fetch.Ok() then Failure(PlainError(ApiErrorMessage(errorMessage, status)))
        else if FirstText(content).None? then Failure(PlainError(InvalidFormatMessage))
        else Success(Trim(FirstText(content).value))
  }

  /** The `catch` block of `processQuestion`: a transport failure becomes
      the network message, anything else is wrapped once. */
  function Rewrap(e: ErrorInfo): string {
    if e.name == "TypeError" && Includes(e.message, "Failed to fetch") then NetworkMessage
    else WrapPrefix + e.message
  }

  /** `processQuestion`: the answer to `question`, or the message of the
      error it throws.  The storage read and the missing-key check sit
      outside the `try`, so their errors are not rewrapped. */
  function ProcessQuestion(question: string, storage: StorageRead, fetch: FetchOutcome)
    : Exchange<Result<string, string>>
  {
    match storage
    case ReadRejected(e) => Exchange(None, Failure(e.message))
    case Read(apiKey) =>
      if !Truthy(apiKey) then Exchange(None, Failure(NoKeyMessage))
      else
        var sent := Some(QuestionRequest(apiKey.value, question));
        match AwaitAnswer(fetch)
        case Success(answer) => Exchange(sent, Success(answer))
        case Failure(e) => Exchange(sent, Failure(Rewrap(e)))
  }

  /** The response `handleQuestionAsync` sends back to the page. */
  datatype QuestionResponse = QuestionResponse(answer: string, status: string)

  const StatusSuccess: string := "success"
  const StatusError: string := "error"

  /** `handleQuestionAsync`: exactly one response, a success carrying the
      answer or an error carrying `Error: ` and the message. */
  function HandleQuestionAsync(question: string, storage: StorageRead, fetch: FetchOutcome)
    : (r: Exchange<QuestionResponse>)
    ensures r.sent == ProcessQuestion(question, storage, fetch).sent
    ensures r.response.status == StatusSuccess || r.response.status == StatusError
    ensures r.response.status == StatusSuccess <==> ProcessQuestion(question, storage, fetch).response.Success?
    ensures ProcessQuestion(question, storage, fetch).response.Success? ==>
              r.response.answer == ProcessQuestion(question, storage, fetch).response.value
    ensures ProcessQuestion(question, storage, fetch).response.Failure? ==>
              r.response.answer == "Error: " + ProcessQuestion(question, storage, fetch).response.error
  {
    var x := ProcessQuestion(question, storage, fetch);
    match x.response
    case Success(answer) => Exchange(x.sent, QuestionResponse(answer, StatusSuccess))
    case Failure(message) => Exchange(x.sent, QuestionResponse("Error: " + message, StatusError))
  }

  /** The response `handleApiKeyCheck` sends back. */
  datatype KeyCheckResponse = KeyCheckResponse(valid: bool, error: Option<string>)

  const KeyMissingMessage: string := "API key not configured"
  const KeyRejectedMessage: string := "Invalid API key"
  const KeyCheckFailedMessage: string := "Failed to validate API key"

  /** `handleApiKeyCheck`: the storage read, the probe request and the
      body read all sit inside one `try`, so any exception gives the same
      fixed message. */
  function HandleApiKeyCheck(storage: StorageRead, fetch: FetchOutcome): Exchange<KeyCheckResponse> {
    match storage
    case ReadRejected(_) => Exchange(None, KeyCheckResponse(false, Some(KeyCheckFailedMessage)))
    case Read(apiKey) =>
      if !Truthy(apiKey) then Exchange(None, KeyCheckResponse(false, Some(KeyMissingMessage)))
      else
        var sent := Some(ProbeRequest(apiKey.value));
        match fetch
        case Rejected(_) => Exchange(sent, KeyCheckResponse(false, Some(KeyCheckFailedMessage)))
        case Responded(_, body) =>
          if fetch.Ok() then Exchange(sent, KeyCheckResponse(true, None))
          else
            match body
            case Unreadable(_) => Exchange(sent, KeyCheckResponse(false, Some(KeyCheckFailedMessage)))
            case Json(errorMessage, _) =>
              Exchange(sent, KeyCheckResponse(false, Some(if Truthy(errorMessage) then errorMessage.value
                                                          else KeyRejectedMessage)))
  }

  /** A runtime message: its `type` and, for questions, its `question`. */
  datatype Message = Message(kind: string, question: string)

  datatype Reply = AnswerReply(answer: QuestionResponse) | KeyCheckReply(check: KeyCheckResponse)

  /** What the message listener did: the request it sent, the one response
      it gave (`None`: no response), and whether it returned `true` to keep
      the channel open for an asynchronous response. */
  datatype Dispatched = Dispatched(sent: Option<Request>, reply: Option<Reply>, keepsChannelOpen: bool)

  /** The `onMessage` listener: questions go to `handleQuestionAsync`,
      key checks to `handleApiKeyCheck`, anything else is ignored. */
  function OnMessage(message: Message, storage: StorageRead, fetch: FetchOutcome): (d: Dispatched)
    ensures d.reply.Some? <==> message.kind == "question" || message.kind == "checkApiKey"
    ensures d.keepsChannelOpen <==> d.reply.Some?
    ensures d.reply.None? ==> d.sent.None?
    ensures message.kind == "question" ==>
              d.reply == Some(AnswerReply(HandleQuestionAsync(message.question, storage, fetch).response))
              && d.sent == ProcessQuestion(message.question, storage, fetch).sent
    ensures message.kind == "checkApiKey" ==>
              d.reply == Some(KeyCheckReply(HandleApiKeyCheck(storage, fetch).response))
              && d.sent == HandleApiKeyCheck(storage, fetch).sent
  {
    if message.kind == "question" then
      var x := HandleQuestionAsync(message.question, storage, fetch);
      Dispatched(x.sent, Some(AnswerReply(x.response)), true)
    else if message.kind == "checkApiKey" then
      var x := HandleApiKeyCheck(storage, fetch);
      Dispatched(x.sent, Some(KeyCheckReply(x.response)), true)
    else
      Dispatched(None, None, false)
  }

  // ---------------------------------------------------------------------
  // Properties of processQuestion

  /** Without a key no request is made and the failure carries the
      configuration message exactly, not wrapped. */
  lemma NoKeyFailsWithoutRequest(question: string, apiKey: Option<string>, fetch: FetchOutcome)
    requires !Truthy(apiKey)
    ensures ProcessQuestion(question, Read(apiKey), fetch) == Exchange(None, Failure(NoKeyMessage))
  {
  }

  /** With a key, exactly one request is sent: the key, 600 tokens and the
      question verbatim as the one user message. */
  lemma QuestionRequestShape(question: string, apiKey: Option<string>, fetch: FetchOutcome)
    requires Truthy(apiKey)
    ensures var sent := ProcessQuestion(question, Read(apiKey), fetch).sent;
            && sent.Some?
            && sent.value.endpoint == ApiEndpoint
            && sent.value.apiKey == apiKey.value
            && sent.value.maxTokens == 600
            && sent.value.messages == [ChatMessage("user", question)]
  {
  }

  /** A non-ok status fails with the API's message, or `Status N`, behind
      both the inner `API Error: ` and the outer wrapping prefix. */
  lemma NonOkStatusWrapsTwice(question: string, apiKey: Option<string>, status: nat,
                              errorMessage: Option<string>, content: Option<seq<ContentBlock>>)
    requires Truthy(apiKey) && !(200 <= status <= 299)
    ensures ProcessQuestion(question, Read(apiKey), Responded(status, Json(errorMessage, content))).response
         == Failure(WrapPrefix + (ApiErrorPrefix
                    + (if Truthy(errorMessage) then errorMessage.value else "Status " + NatToString(status))))
  {
    var e := PlainError(ApiErrorMessage(errorMessage, status));
    assert AwaitAnswer(Responded(status, Json(errorMessage, content))) == Failure(e);
    PlainErrorIsNotTransport(e.message);
  }

  /** A success body without `content`, `content[0]` or a non-empty
      `content[0].text` fails with the wrapped format message. */
  lemma MissingTextIsInvalidFormat(question: string, apiKey: Option<string>, status: nat,
                                   errorMessage: Option<string>, content: Option<seq<ContentBlock>>)
    requires Truthy(apiKey) && 200 <= status <= 299
    requires content.None? || content.value == [] || !Truthy(content.value[0].text)
    ensures ProcessQuestion(question, Read(apiKey), Responded(status, Json(errorMessage, content))).response
         == Failure(WrapPrefix + InvalidFormatMessage)
  {
    assert FirstText(content).None?;
    assert AwaitAnswer(Responded(status, Json(errorMessage, content))) == Failure(PlainError(InvalidFormatMessage));
    PlainErrorIsNotTransport(InvalidFormatMessage);
  }

  /** An error the scripts throw themselves is wrapped once, never taken
      for a transport failure. */
  lemma PlainErrorIsNotTransport(message: string)
    ensures Rewrap(PlainError(message)) == WrapPrefix + message
  {
    assert PlainError(message).name[0] == 'E' && "TypeError"[0] == 'T';
  }

  /** A transport failure (`TypeError` mentioning `Failed to fetch`) gives
      the network message. */
  lemma TransportFailureIsNetworkError(question: string, apiKey: Option<string>, message: string)
    requires Truthy(apiKey) && Includes(message, "Failed to fetch")
    ensures ProcessQuestion(question, Read(apiKey), Rejected(ErrorInfo("TypeError", message))).response
         == Failure(NetworkMessage)
  {
  }

  /** Once the key is read, the network message arises only from a
      `TypeError` mentioning `Failed to fetch`: never from an HTTP status,
      an API error message or a malformed body. */
  lemma NetworkErrorOnlyFromTransport(question: string, apiKey: Option<string>, fetch: FetchOutcome)
    requires ProcessQuestion(question, Read(apiKey), fetch).response == Failure(NetworkMessage)
    ensures Truthy(apiKey)
    ensures match fetch
            case Rejected(e) => e.name == "TypeError" && Includes(e.message, "Failed to fetch")
            case Responded(_, body) =>
              body.Unreadable? && body.error.name == "TypeError" && Includes(body.error.message, "Failed to fetch")
  {
    assert NoKeyMessage[0] == 'A' && NetworkMessage[0] == 'N';
    if Truthy(apiKey) {
      match AwaitAnswer(fetch)
      case Success(_) =>
      case Failure(e) => WrappedIsNotNetworkMessage(e.message);
    }
  }

  lemma WrappedIsNotNetworkMessage(message: string)
    ensures WrapPrefix + message != NetworkMessage
  {
    assert (WrapPrefix + message)[0] == 'F' && NetworkMessage[0] == 'N';
  }

  /** Every failure is the storage error's own message (the read sits
      outside the `try`), the configuration message, the network message,
      or one level of `Failed to get response: `. */
  lemma FailureShapes(question: string, storage: StorageRead, fetch: FetchOutcome)
    requires ProcessQuestion(question, storage, fetch).response.Failure?
    ensures var m := ProcessQuestion(question, storage, fetch).response.error;
            || (storage.ReadRejected? && m == storage.error.message)
            || (storage.Read? && !Truthy(storage.apiKey) && m == NoKeyMessage)
            || m == NetworkMessage
            || StartsWith(m, WrapPrefix)
  {
    if storage.Read? && Truthy(storage.apiKey) {
      match AwaitAnswer(fetch)
      case Success(_) =>
      case Failure(e) =>
        assert (WrapPrefix + e.message)[..|WrapPrefix|] == WrapPrefix;
    }
  }

  /** A successful answer is the trimmed `content[0].text` of an ok
      response, so it has no whitespace at either end. */
  lemma AnswerIsTrimmedText(question: string, storage: StorageRead, fetch: FetchOutcome)
    requires ProcessQuestion(question, storage, fetch).response.Success?
    ensures storage.Read? && Truthy(storage.apiKey)
    ensures fetch.Responded? && fetch.Ok() && fetch.body.Json?
    ensures var answer := ProcessQuestion(question, storage, fetch).response.value;
            && FirstText(fetch.body.content).Some?
            && answer == Trim(FirstText(fetch.body.content).value)
            && Trim(answer) == answer
  {
    TrimIdempotent(FirstText(fetch.body.content).value);
  }

  // ---------------------------------------------------------------------
  // Properties of the responses the page receives

  /** An ok response whose first block's text has no whitespace at either
      end is relayed to the page as that text, with status `success`,
      after one request for the question. */
  lemma OkAnswerRelayed(question: string, apiKey: string, status: nat, text: string)
    requires apiKey != "" && 200 <= status <= 299
    requires text != [] && !IsWhitespace(text[0]) && !IsWhitespace(text[|text| - 1])
    ensures HandleQuestionAsync(question, Read(Some(apiKey)), Responded(status, Json(None, Some([ContentBlock(Some(text))]))))
         == Exchange(Some(QuestionRequest(apiKey, question)), QuestionResponse(text, StatusSuccess))
  {
    var fetch := Responded(status, Json(None, Some([ContentBlock(Some(text))])));
    OkTextIsAnswer(status, text);
    assert ProcessQuestion(question, Read(Some(apiKey)), fetch)
        == Exchange(Some(QuestionRequest(apiKey, question)), Success(text));
    SuccessReply(question, Read(Some(apiKey)), fetch, text);
  }

  /** The `try` block yields a trimmed first text unchanged. */
  lemma OkTextIsAnswer(status: nat, text: string)
    requires 200 <= status <= 299
    requires text != [] && !IsWhitespace(text[0]) && !IsWhitespace(text[|text| - 1])
    ensures AwaitAnswer(Responded(status, Json(None, Some([ContentBlock(Some(text))])))) == Success(text)
  {
    TrimOfTrimmed(text);
    assert FirstText(Some([ContentBlock(Some(text))])) == Some(text);
  }

  /** A successful `processQuestion` reaches the page as `success` with
      the answer unchanged. */
  lemma SuccessReply(question: string, storage: StorageRead, fetch: FetchOutcome, answer: string)
    requires ProcessQuestion(question, storage, fetch).response == Success(answer)
    ensures HandleQuestionAsync(question, storage, fetch)
         == Exchange(ProcessQuestion(question, storage, fetch).sent, QuestionResponse(answer, StatusSuccess))
  {
  }

  /** With no key or an empty key stored, the page sees the configuration
      failure as `Error: ` followed by the configuration message, and no
      request is made. */
  lemma NoKeyReply(question: string, apiKey: Option<string>, fetch: FetchOutcome)
    requires !Truthy(apiKey)
    ensures HandleQuestionAsync(question, Read(apiKey), fetch)
         == Exchange(None, QuestionResponse("Error: " + NoKeyMessage, StatusError))
  {
  }

  /** For a non-ok status the page sees three prefixes in front of the
      API's message: `Error: `, `Failed to get response: ` and `API Error: `. */
  lemma NonOkReply(question: string, apiKey: string, status: nat, message: string,
                   content: Option<seq<ContentBlock>>)
    requires apiKey != "" && message != "" && !(200 <= status <= 299)
    ensures HandleQuestionAsync(question, Read(Some(apiKey)), Responded(status, Json(Some(message), content))).response
         == QuestionResponse("Error: " + (WrapPrefix + (ApiErrorPrefix + message)), StatusError)
  {
    NonOkStatusWrapsTwice(question, Some(apiKey), status, Some(message), content);
  }

  // ---------------------------------------------------------------------
  // Properties of handleApiKeyCheck

  /** The key is reported valid exactly when a non-empty key is stored and
      the probe request gets a 2xx status; a request is sent exactly when
      a non-empty key is stored. */
  lemma KeyCheckValidIff(storage: StorageRead, fetch: FetchOutcome)
    ensures var x := HandleApiKeyCheck(storage, fetch);
            && (x.response.valid <==> storage.Read? && Truthy(storage.apiKey) && fetch.Responded? && fetch.Ok())
            && (x.sent.Some? <==> storage.Read? && Truthy(storage.apiKey))
            && (x.sent.Some? ==> x.sent == Some(ProbeRequest(storage.apiKey.value)))
            && (x.response.valid <==> x.response.error.None?)
  {
  }

  /** Why a key is reported invalid: missing, the API's own message or the
      fixed rejection message for a non-ok status, and the fixed
      validation-failure message for every exception. */
  lemma KeyCheckErrors(storage: StorageRead, fetch: FetchOutcome)
    ensures var r := HandleApiKeyCheck(storage, fetch).response;
            && (storage.Read? && !Truthy(storage.apiKey) ==> r == KeyCheckResponse(false, Some(KeyMissingMessage)))
            && (storage.ReadRejected? ==> r == KeyCheckResponse(false, Some(KeyCheckFailedMessage)))
            && (storage.Read? && Truthy(storage.apiKey) && fetch.Rejected? ==>
                  r == KeyCheckResponse(false, Some(KeyCheckFailedMessage)))
            && (storage.Read? && Truthy(storage.apiKey) && fetch.Responded? && !fetch.Ok() ==>
                  r == match fetch.body
                       case Unreadable(_) => KeyCheckResponse(false, Some(KeyCheckFailedMessage))
                       case Json(m, _) => KeyCheckResponse(false, Some(if Truthy(m) then m.value else KeyRejectedMessage)))
  {
  }
}
