/** The driver-error classifier of util.go: substring tests on the error's
    message sort an error into retryable, duplicate, both or neither. */
module Classify {
  import opened Wrappers
  import opened Text

  function Message(err: MaybeError): string
    requires err.Some?
  {
    err.value.message
  }

  /** A timeout or cancellation surfaced by the driver. */
  predicate IsCtxError(err: MaybeError) {
    err.Some? && Contains(Message(err), "context")
  }

  predicate IsConnectionError(err: MaybeError) {
    err.Some? && Contains(Message(err), "connection")
  }

  /** The error a freshly restarted frontend gives before `use` took effect. */
  predicate IsNoDatabaseError(err: MaybeError) {
    err.Some? && Contains(Message(err), "No database selected")
  }

  predicate IsRetryableError(err: MaybeError) {
    if err.None? then false
    else IsCtxError(err) || IsConnectionError(err) || IsNoDatabaseError(err)
  }

  predicate IsDuplicateError(err: MaybeError) {
    err.Some? && (Contains(Message(err), "Duplicate") || Contains(Message(err), "exists"))
  }

  /** A nil error is in no class. */
  lemma NilIsUnclassified()
    ensures !IsCtxError(None) && !IsConnectionError(None) && !IsNoDatabaseError(None)
    ensures !IsRetryableError(None) && !IsDuplicateError(None)
  {
  }

  /** Duplicate exactly when the message has "Duplicate" or "exists" at some
      position, letter case included. */
  lemma DuplicateIff(err: MaybeError)
    ensures IsDuplicateError(err) <==>
      err.Some? && ((exists i: nat :: OccursAt(err.value.message, "Duplicate", i)) ||
                    (exists i: nat :: OccursAt(err.value.message, "exists", i)))
  {
    if err.Some? {
      ContainsIff(err.value.message, "Duplicate");
      ContainsIff(err.value.message, "exists");
    }
  }

  /** Retryable exactly when the message has "context", "connection" or
      "No database selected" at some position. */
  lemma RetryableIff(err: MaybeError)
    ensures IsRetryableError(err) <==>
      err.Some? && ((exists i: nat :: OccursAt(err.value.message, "context", i)) ||
                    (exists i: nat :: OccursAt(err.value.message, "connection", i)) ||
                    (exists i: nat :: OccursAt(err.value.message, "No database selected", i)))
  {
    if err.Some? {
      ContainsIff(err.value.message, "context");
      ContainsIff(err.value.message, "connection");
      ContainsIff(err.value.message, "No database selected");
    }
  }

  /** The classes overlap: a message mentioning both "connection" and
      "exists" is retryable and duplicate at once. */
  lemma ClassesOverlap(a: string, b: string, c: string)
    ensures var err := Some(Error(a + "connection" + b + "exists" + c));
      IsRetryableError(err) && IsDuplicateError(err)
  {
    var m := a + "connection" + b + "exists" + c;
    assert m == a + "connection" + (b + "exists" + c);
    ContainsInfix(a, "connection", b + "exists" + c);
    assert m == (a + "connection" + b) + "exists" + c;
    ContainsInfix(a + "connection" + b, "exists", c);
  }
}
