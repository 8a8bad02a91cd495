/**
 * The deletion guard of `ResourceHandler.delete_object`: when the client's
 * delete fails with an `ApiError`, the guard either swallows the error (after
 * logging it) or re-raises it, deciding by substrings of the error's status
 * message and by the two flags of the call.
 */
module Guard {
  import opened Wrappers
  import opened Text

  /** The parts of lightkube's `ApiError` that matter: the HTTP status code and `err.status.message`, which may be `None`. */
  datatype ApiError = ApiError(code: int, message: Option<string>)

  /** Which branch of the `except ApiError` handler runs. */
  datatype Decision =
    | IgnoreNotFound      // "Ignoring not found error", the error is swallowed
    | IgnoreUnauthorized  // "Ignoring unauthorized error", the error is swallowed
    | Reraise             // the error leaves delete_object

  const NotFoundText := "not found"
  const UnauthorizedText := "(Unauthorized)"

  /**
   * The handler's decision for a failed delete whose status message is
   * `message`. The not-found test is made first, so a message containing both
   * texts is swallowed as not-found whenever `ignoreNotFound` is set.
   */
  function Classify(message: Option<string>, ignoreNotFound: bool, ignoreUnauthorized: bool): (d: Decision)
    ensures message.None? ==> d == Reraise
    ensures d == IgnoreNotFound <==>
      message.Some? && ignoreNotFound && Occurs(NotFoundText, message.value)
    ensures d == IgnoreUnauthorized <==>
      message.Some? && ignoreUnauthorized && Occurs(UnauthorizedText, message.value) &&
      !(ignoreNotFound && Occurs(NotFoundText, message.value))
    ensures d == Reraise <==>
      message.None? ||
      !((ignoreNotFound && Occurs(NotFoundText, message.value)) ||
        (ignoreUnauthorized && Occurs(UnauthorizedText, message.value)))
  {
    match message
    case None => Reraise
    case Some(m) =>
      if Contains(m, NotFoundText) && ignoreNotFound then IgnoreNotFound
      else if Contains(m, UnauthorizedText) && ignoreUnauthorized then IgnoreUnauthorized
      else Reraise
  }

  /**
   * What leaves `delete_object` when the client's delete answered `failure`
   * (`None` when the delete went through): the same error when it is
   * re-raised, `None` when the call returns normally.
   */
  function Guarded(failure: Option<ApiError>, ignoreNotFound: bool, ignoreUnauthorized: bool): (escaped: Option<ApiError>)
    ensures escaped.Some? ==> escaped == failure
    ensures escaped.None? <==>
      failure.None? ||
      (failure.value.message.Some? &&
       ((ignoreNotFound && Occurs(NotFoundText, failure.value.message.value)) ||
        (ignoreUnauthorized && Occurs(UnauthorizedText, failure.value.message.value))))
  {
    if failure.Some? && Classify(failure.value.message, ignoreNotFound, ignoreUnauthorized) == Reraise
    then failure else None
  }

  /** With both flags at their default, `False`, every failed delete propagates. */
  lemma StrictGuardReraisesAll(failure: Option<ApiError>)
    ensures Guarded(failure, false, false) == failure
  {
  }

  /**
   * The order of the two tests on any message that contains both texts:
   * with both flags set it is swallowed as not-found, with only
   * `ignoreUnauthorized` set it is swallowed as unauthorized, with only
   * `ignoreNotFound` set it is swallowed as not-found, and with neither it
   * is re-raised.
   */
  lemma NotFoundTestedFirst(m: string)
    requires Occurs(NotFoundText, m) && Occurs(UnauthorizedText, m)
    ensures Classify(Some(m), true, true) == IgnoreNotFound
    ensures Classify(Some(m), false, true) == IgnoreUnauthorized
    ensures Classify(Some(m), true, false) == IgnoreNotFound
    ensures Classify(Some(m), false, false) == Reraise
  {
  }
}
