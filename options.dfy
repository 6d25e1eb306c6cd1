/**
 * The settings page: one text field for the API key, a save action that
 * checks the key against the remote API before storing it, and a status
 * line that hides itself again after a while.
 */
module Options {
  import opened Wrappers
  import opened Text
  import opened Net

  const KeyRequiredMessage: string := "API key is required"
  const InvalidKeyMessage: string := "Invalid API key." + " Please check your key and try again."
  const SavedMessage: string := "Settings saved successfully!"
  const StatusSuccess: string := "success"
  const StatusError: string := "error"

  /** `testApiKey`, given the outcome of its probe request: the key is good
      exactly when the response status is 2xx.  A rejected `fetch`, and a
      failure to read the body of a non-ok response, are both caught and
      give `false` as well. */
  function TestApiKey(outcome: FetchOutcome): (valid: bool)
    ensures valid <==> outcome.Responded? && 200 <= outcome.status <= 299
  {
    match outcome
    case Rejected(_) => false
    case Responded(_, _) => outcome.Ok()
  }

  /** The externally visible effect of one `saveSettings`: the probe
      request it sends, the key it writes to storage, and the status line
      it shows (`message`, `kind`). */
  datatype SaveEffect = SaveEffect(probe: Option<Request>, write: Option<string>, message: string, kind: string)

  /** What `saveSettings` does with the field's value `rawKey` when the
      probe for the trimmed key has outcome `outcome`. */
  function SaveSettingsEffect(rawKey: string, outcome: FetchOutcome): (e: SaveEffect)
    ensures e.probe.Some? <==> Trim(rawKey) != ""
    ensures e.probe.Some? ==> e.probe.value == ProbeRequest(Trim(rawKey))
    ensures e.write.Some? <==> Trim(rawKey) != "" && TestApiKey(outcome)
    ensures e.write.Some? ==> e.write.value == Trim(rawKey)
    ensures e.kind == StatusSuccess <==> e.write.Some?
    ensures e.kind == StatusSuccess || e.kind == StatusError
    ensures e.message == (if Trim(rawKey) == "" then KeyRequiredMessage
                          else if !TestApiKey(outcome) then InvalidKeyMessage
                          else SavedMessage)
  {
    var apiKey := Trim(rawKey);
    if apiKey == "" then SaveEffect(None, None, KeyRequiredMessage, StatusError)
    else if !TestApiKey(outcome) then SaveEffect(Some(ProbeRequest(apiKey)), None, InvalidKeyMessage, StatusError)
    else SaveEffect(Some(ProbeRequest(apiKey)), Some(apiKey), SavedMessage, StatusSuccess)
  }

  /** The settings page and the one storage entry it owns. */
  class OptionsPage {
    /** `apiKey` in the synchronized storage (`None`: nothing stored). */
    var storedKey: Option<string>
    /** The value of the key input field. */
    var keyField: string
    /** The status line: its class, its text, whether it is shown. */
    var statusClass: string
    var statusText: string
    var statusShown: bool
    /** Status-hiding timers armed by `ShowStatus` that have not fired. */
    var pendingHides: nat

    /** A freshly loaded page over the given storage content. */
    constructor (stored: Option<string>)
      ensures storedKey == stored && keyField == ""
      ensures statusClass == "" && statusText == "" && !statusShown && pendingHides == 0
    {
      storedKey := stored;
      keyField := "";
      statusClass, statusText, statusShown := "", "", false;
      pendingHides := 0;
    }

    /** `initOptions`: the field shows the stored key, or is empty when no
        key is stored. */
    method InitOptions()
      modifies this`keyField
      ensures keyField == (if storedKey.Some? then storedKey.value else "")
    {
      keyField := if Truthy(storedKey) then storedKey.value else "";
    }

    /** `showStatus`: class and text set verbatim, the line shown, and a
        timer armed to hide it. */
    method ShowStatus(message: string, kind: string)
      modifies this`statusClass, this`statusText, this`statusShown, this`pendingHides
      ensures statusClass == "status-message " + kind && statusText == message
      ensures statusShown && pendingHides == old(pendingHides) + 1
    {
      statusClass := "status-message " + kind;
      statusText := message;
      statusShown := true;
      pendingHides := pendingHides + 1;
    }

    /** One of the status-hiding timers fires. */
    method StatusTimerFires()
      requires pendingHides > 0
      modifies this`statusShown, this`pendingHides
      ensures !statusShown && pendingHides == old(pendingHides) - 1
    {
      statusShown := false;
      pendingHides := pendingHides - 1;
    }

    /** `saveSettings`, with `outcome` the answer to the probe request (used
        only when a probe is sent).  Returns the probe request sent, if any.
        Storage changes only when the trimmed key is non-empty and the probe
        succeeds; the field itself is left as typed. */
    method SaveSettings(outcome: FetchOutcome) returns (probe: Option<Request>)
      modifies this`storedKey, this`statusClass, this`statusText, this`statusShown, this`pendingHides
      ensures var e := SaveSettingsEffect(old(keyField), outcome);
              && probe == e.probe
              && storedKey == (if e.write.Some? then e.write else old(storedKey))
              && statusClass == "status-message " + e.kind
              && statusText == e.message
              && statusShown
              && pendingHides == old(pendingHides) + 1
    {
      var apiKey := Trim(keyField);
      if apiKey == "" {
        probe := None;
        ShowStatus(KeyRequiredMessage, StatusError);
        return;
      }
      probe := Some(ProbeRequest(apiKey));
      var isValid := TestApiKey(outcome);
      if !isValid {
        ShowStatus(InvalidKeyMessage, StatusError);
        return;
      }
      storedKey := Some(apiKey);
      ShowStatus(SavedMessage, StatusSuccess);
    }
  }

  /** Only a validated key is ever stored, and it is stored trimmed: after
      a save, storage holds either what it held before or the trimmed
      field value, and the latter exactly when the probe succeeded. */
  lemma StoredIffValid(rawKey: string, outcome: FetchOutcome, before: Option<string>)
    ensures var e := SaveSettingsEffect(rawKey, outcome);
            var after := if e.write.Some? then e.write else before;
            && (after != before ==> after == Some(Trim(rawKey)) && TestApiKey(outcome))
            && (Trim(rawKey) != "" && TestApiKey(outcome) ==> after == Some(Trim(rawKey)))
            && (after.Some? && after != before ==> after.value != "" && Trim(after.value) == after.value)
  {
    TrimIdempotent(rawKey);
  }

  /** A key that is blank after trimming needs no probe, stores nothing and
      reports that a key is required, whatever the probe would have said. */
  lemma BlankKeyRejected(rawKey: string, outcome: FetchOutcome)
    requires forall k :: 0 <= k < |rawKey| ==> IsWhitespace(rawKey[k])
    ensures SaveSettingsEffect(rawKey, outcome) == SaveEffect(None, None, KeyRequiredMessage, StatusError)
  {
    TrimIgnoresPadding(rawKey, "", "");
    assert rawKey + "" + "" == rawKey;
  }

  /** Surrounding whitespace typed around a key never reaches storage. */
  lemma PaddingNeverStored(pre: string, key: string, post: string, outcome: FetchOutcome)
    requires forall k :: 0 <= k < |pre| ==> IsWhitespace(pre[k])
    requires forall k :: 0 <= k < |post| ==> IsWhitespace(post[k])
    ensures SaveSettingsEffect(pre + key + post, outcome) == SaveSettingsEffect(key, outcome)
  {
    TrimIgnoresPadding(pre, key, post);
  }
}
