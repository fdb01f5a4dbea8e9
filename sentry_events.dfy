/** The part of a Sentry event both `beforeSend` hooks look at: the
    exception interface and its first value's message. */
module SentryEvents {
  import opened Common

  /** One entry of `event.exception.values`; `value` is its message. */
  datatype ExceptionValue = ExceptionValue(value: Option<string>)

  /** `event.exception`, whose `values` list may be absent. */
  datatype ExceptionInfo = ExceptionInfo(values: Option<seq<ExceptionValue>>)

  /** `event.exception?.values?.[0]?.value`: the message of the first
      exception value, when there is one. */
  function FirstMessage(exception: Option<ExceptionInfo>): (r: Option<string>)
    ensures r.Some? <==>
      exception.Some? && exception.value.values.Some? && |exception.value.values.value| > 0 &&
      exception.value.values.value[0].value.Some?
    ensures r.Some? ==> r.value == exception.value.values.value[0].value.value
  {
    match exception
    case None => None
    case Some(info) =>
      match info.values
      case None => None
      case Some(vs) => if |vs| == 0 then None else vs[0].value
  }

  /** The message mentions, case-sensitively, one of `words`. */
  predicate Mentions(message: string, words: seq<string>) {
    exists w :: w in words && Contains(message, w)
  }

  /** The hook's drop test: the first exception message mentions one of
      `words`. */
  predicate Sensitive(exception: Option<ExceptionInfo>, words: seq<string>) {
    FirstMessage(exception).Some? && Mentions(FirstMessage(exception).value, words)
  }

  /** Only `values[0]` is inspected: what follows it never changes the
      decision, and a first value without a message is never dropped. */
  lemma OnlyFirstValueInspected(first: ExceptionValue, later: seq<ExceptionValue>, words: seq<string>)
    ensures Sensitive(Some(ExceptionInfo(Some([first] + later))), words) <==>
      first.value.Some? && Mentions(first.value.value, words)
    ensures first.value.None? ==> !Sensitive(Some(ExceptionInfo(Some([first] + later))), words)
  {
    assert ([first] + later)[0] == first;
  }

  /** An event with no exception, no values list, an empty list or a first
      value without a message is never dropped. */
  lemma NoMessageNotSensitive(exception: Option<ExceptionInfo>, words: seq<string>)
    requires FirstMessage(exception).None?
    ensures !Sensitive(exception, words)
  {
  }

  /** A drop test with fewer words drops fewer events. */
  lemma SensitiveMonotone(exception: Option<ExceptionInfo>, fewer: seq<string>, more: seq<string>)
    requires forall w :: w in fewer ==> w in more
    requires Sensitive(exception, fewer)
    ensures Sensitive(exception, more)
  {
    var w :| w in fewer && Contains(FirstMessage(exception).value, w);
    assert w in more;
  }
}
