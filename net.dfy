/**
 * The extension's view of the outside world: the answers the
 * synchronized storage and the remote messages API can give, and the
 * HTTP request both scripts that talk to the API build.  Storage and
 * `fetch` are not modelled; each call is replaced by one of these
 * outcome values, supplied by the caller.
 */
module Net {
  import opened Wrappers

  /** A JavaScript `Error` as far as the scripts look at it: its `name`
      (`"TypeError"`, `"SyntaxError"`, `"Error"`, ...) and its `message`. */
  datatype ErrorInfo = ErrorInfo(name: string, message: string)

  /** What `new Error(message)` creates. */
  function PlainError(message: string): ErrorInfo {
    ErrorInfo("Error", message)
  }

  /** One element of the `content` array of a messages-API body; `text`
      is `None` when the property is absent. */
  datatype ContentBlock = ContentBlock(text: Option<string>)

  /** The outcome of `await response.json()`: either it rejects, or it
      yields an object of which the scripts read `error.message` and
      `content`. */
  datatype ResponseBody =
    | Unreadable(error: ErrorInfo)
    | Json(errorMessage: Option<string>, content: Option<seq<ContentBlock>>)

  /** The outcome of one `await fetch(...)`: it rejects (a transport
      failure is a `TypeError`), or a response arrives with an HTTP
      status and a body. */
  datatype FetchOutcome =
    | Rejected(error: ErrorInfo)
    | Responded(status: nat, body: ResponseBody)
  {
    /** `response.ok`: the status is in the range 200-299. */
    predicate Ok()
      requires Responded?
    {
      200 <= status <= 299
    }
  }

  /** The outcome of `await chrome.storage.sync.get(['apiKey'])`: it
      rejects, or it yields the stored key (`None` when nothing is stored). */
  datatype StorageRead =
    | ReadRejected(error: ErrorInfo)
    | Read(apiKey: Option<string>)

  /** JavaScript truthiness of a value that is a string or undefined:
      both `undefined` and `''` are falsy. */
  predicate Truthy(s: Option<string>) {
    s.Some? && s.value != ""
  }

  const ApiEndpoint: string := "https://api.anthropic.com/v1/messages"
  const ApiVersion: string := "2023-06-01"
  const ModelName: string := "claude-3-sonnet-20240229"

  /** The token budget and prompt of the request that only checks that a
      key is accepted. */
  const ProbeMaxTokens: nat := 10
  const ProbePrompt: string := "test"

  datatype ChatMessage = ChatMessage(role: string, content: string)

  /** A `POST` to the messages endpoint with the JSON headers, the API
      version header, the direct-browser-access opt-in and the key header. */
  datatype Request = Request(
    endpoint: string,
    version: string,
    apiKey: string,
    model: string,
    maxTokens: nat,
    messages: seq<ChatMessage>)

  /** A single-turn request whose one user message is `prompt`, verbatim. */
  function MessagesRequest(apiKey: string, maxTokens: nat, prompt: string): Request {
    Request(ApiEndpoint, ApiVersion, apiKey, ModelName, maxTokens, [ChatMessage("user", prompt)])
  }

  /** The minimal request used to check that a key is accepted. */
  function ProbeRequest(apiKey: string): Request {
    MessagesRequest(apiKey, ProbeMaxTokens, ProbePrompt)
  }
}
