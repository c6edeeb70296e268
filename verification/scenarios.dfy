/** Concrete runs of the test double from a freshly built stub. */
module Scenarios {
  import opened FaultInjection
  import opened SendSequence

  /** A "fail" in the middle of a batch throws for that record only; the
      records around it are delivered and the batch goes on past it. */
  lemma FailInMiddleOfBatch()
    ensures Run(Initial, ["ok", "fail", "ok"])
         == Trace([Pending(false), Thrown, Pending(false)], Stub(true))
  {
  }

  /** "fail" throws once; the second "fail" is delivered. */
  lemma FailOnlyOnce()
    ensures Run(Initial, ["fail", "fail"]).results == [Thrown, Pending(false)]
  {
  }

  /** "futurefail" fails on the timed get once; the second one resolves. */
  lemma FutureFailOnlyOnce()
    ensures Run(Initial, ["futurefail", "futurefail"]).results == [Pending(true), Pending(false)]
  {
  }

  /** The two sentinels share one flag: a fired "fail" disarms "futurefail",
      and a fired "futurefail" disarms "fail". */
  lemma SentinelsShareOneFlag()
    ensures Run(Initial, ["fail", "futurefail"]).results == [Thrown, Pending(false)]
    ensures Run(Initial, ["futurefail", "fail"]).results == [Pending(true), Pending(false)]
  {
  }

  /** Matching is exact: a value that merely contains or differs in case from
      a sentinel is an ordinary value. */
  lemma NearMissesAreOrdinary()
    ensures Run(Initial, ["FAIL", "fail ", "futurefail!"]).results
         == [Pending(false), Pending(false), Pending(false)]
  {
  }
}
