/** The fault-injecting answer that the Kafka publisher test double installs
    on its mocked producer. Every call of the one-argument
    `send(ProducerRecord)` is decided here (the callback overload is not
    instrumented): the submission throws, or it returns a pending delivery whose
    timed `get` fails, or it returns a pending delivery that resolves normally.

    The only state is one flag, `failed`, shared by BOTH sentinel values: the
    first sentinel to arrive fires its fault and disarms the other one too.
 */
module FaultInjection {

  /** Value whose first occurrence makes the submission itself throw. */
  const FailValue: string := "fail"

  /** Value whose first occurrence yields a delivery that fails when awaited. */
  const FutureFailValue: string := "futurefail"

  /** A record value that can trigger a fault while the stub is still armed.
      Matching is exact string equality, nothing looser. */
  predicate IsSentinel(value: string) {
    value == FailValue || value == FutureFailValue
  }

  /** The test double's state: whether an injected fault has already fired.
      A freshly built stub has `failed == false`. */
  datatype Stub = Stub(failed: bool) {
    predicate Armed() { !failed }
  }

  const Initial: Stub := Stub(false)

  /** What one call of the producer's `send` does. */
  datatype SendResult =
    | Thrown                               // `send` raised before any handle existed
    | Pending(failsOnTimedGet: bool)       // `send` returned a pending delivery
  {
    /** An injected fault: either the submission threw, or its delivery fails. */
    predicate IsFault() {
      Thrown? || failsOnTimedGet
    }
  }

  /** The decision for one send together with the stub's state afterwards. */
  datatype Sent = Sent(result: SendResult, after: Stub)

  /** One send of a record whose decoded value is `value`. The "fail" check is
      made first and, when it fires, no pending handle is created; otherwise a
      pending handle is created and armed to fail only for a first "futurefail". */
  function Send(s: Stub, value: string): (r: Sent)
    // A fault is injected exactly when the stub is armed and the value is a sentinel.
    ensures r.result.IsFault() <==> s.Armed() && IsSentinel(value)
    // Which fault: a throw for "fail", a failing delivery for "futurefail".
    ensures r.result.Thrown? <==> s.Armed() && value == FailValue
    ensures r.result == Pending(true) <==> s.Armed() && value == FutureFailValue
    // Afterwards the flag is set precisely when it was set already or a sentinel arrived.
    ensures r.after.failed <==> s.failed || IsSentinel(value)
  {
    if value == FailValue && !s.failed then
      Sent(Thrown, Stub(true))
    else
      var disarmed := value == FutureFailValue && !s.failed;
      if disarmed then Sent(Pending(true), Stub(true))
      else Sent(Pending(false), s)
  }

  /** A value other than the two sentinels always gets a normal pending
      delivery and leaves the flag as it was. */
  lemma OrdinaryValueIsDelivered(s: Stub, value: string)
    requires !IsSentinel(value)
    ensures Send(s, value) == Sent(Pending(false), s)
  {
  }

  /** The first "fail" throws, creates no pending delivery, and disarms the stub. */
  lemma ArmedFailThrows(s: Stub)
    requires s.Armed()
    ensures Send(s, FailValue) == Sent(Thrown, Stub(true))
  {
  }

  /** Once disarmed, "fail" no longer throws: it gets a normal pending delivery. */
  lemma DisarmedFailIsDelivered(s: Stub)
    requires !s.Armed()
    ensures Send(s, FailValue) == Sent(Pending(false), s)
  {
  }

  /** The first "futurefail" is accepted but its delivery fails on the timed
      get, and the stub is disarmed. */
  lemma ArmedFutureFailFailsOnGet(s: Stub)
    requires s.Armed()
    ensures Send(s, FutureFailValue) == Sent(Pending(true), Stub(true))
  {
  }

  /** Once disarmed, "futurefail" gets a delivery that resolves normally. */
  lemma DisarmedFutureFailIsDelivered(s: Stub)
    requires !s.Armed()
    ensures Send(s, FutureFailValue) == Sent(Pending(false), s)
  {
  }

  /** The flag is monotone: no send clears it, and a disarmed stub is a fixed
      point of every send. */
  lemma SendKeepsFlag(s: Stub, value: string)
    requires s.failed
    ensures Send(s, value).after == s
    ensures !Send(s, value).result.IsFault()
  {
  }
}
