/** The browser-side `beforeSend` hook: a narrower drop test than the
    server's, and no scrubbing of the event. */
module SentryClient {
  import opened Common
  import opened SentryEvents
  import SentryServer

  /** The words whose presence in the first exception message drops a
      browser event, compared case-sensitively. */
  const ClientWords: seq<string> := ["password", "token"]

  /** A browser event: the exception interface the hook inspects and the
      rest of the payload, which the hook never touches. */
  datatype ClientEvent = ClientEvent(exception: Option<ExceptionInfo>, payload: map<string, string>)

  /** `beforeSend(event)`: `null` when the first exception message
      mentions a word of `ClientWords`, otherwise the event unchanged. */
  function BeforeSend(e: ClientEvent): (r: Option<ClientEvent>)
    ensures r.None? <==> Sensitive(e.exception, ClientWords)
    ensures r.Some? ==> r.value == e
  {
    if Sensitive(e.exception, ClientWords) then None else Some(e)
  }

  /** The drop test spelled out: the first message includes `password` or
      `token`. */
  lemma DropsIff(e: ClientEvent)
    ensures BeforeSend(e).None? <==>
      FirstMessage(e.exception).Some? &&
      (Contains(FirstMessage(e.exception).value, "password") ||
       Contains(FirstMessage(e.exception).value, "token"))
  {
    if FirstMessage(e.exception).Some? {
      var m := FirstMessage(e.exception).value;
      if Contains(m, "password") {
        assert "password" in ClientWords;
      }
      if Contains(m, "token") {
        assert "token" in ClientWords;
      }
    }
  }

  /** Every event the browser drops, the server would drop as well: its
      words include the browser's. */
  lemma ClientDropImpliesServerDrop(exception: Option<ExceptionInfo>)
    requires Sensitive(exception, ClientWords)
    ensures Sensitive(exception, SentryServer.SensitiveWords)
  {
    assert "password" in SentryServer.SensitiveWords && "token" in SentryServer.SensitiveWords;
    SensitiveMonotone(exception, ClientWords, SentryServer.SensitiveWords);
  }

  /** A message that mentions `key` or `secret` but neither `password` nor
      `token` is sent by the browser and dropped by the server. */
  lemma ServerOnlyWords(e: ClientEvent)
    requires FirstMessage(e.exception).Some?
    requires var m := FirstMessage(e.exception).value;
      (Contains(m, "key") || Contains(m, "secret")) &&
      !Contains(m, "password") && !Contains(m, "token")
    ensures BeforeSend(e) == Some(e)
    ensures Sensitive(e.exception, SentryServer.SensitiveWords)
  {
    DropsIff(e);
    SentryServer.SensitiveOnEachWord(e.exception);
  }

  /** An event without a first exception message is always sent. */
  lemma NoMessageSent(e: ClientEvent)
    requires FirstMessage(e.exception).None?
    ensures BeforeSend(e) == Some(e)
  {
    NoMessageNotSensitive(e.exception, ClientWords);
  }
}
