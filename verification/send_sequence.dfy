/** Sequences of sends through one test double. The producer's `send` is
    answered once per call, in call order, and the `failed` flag lives on the
    stub rather than on the mocked producer, so it persists across every send
    and across every producer the same stub builds.
 */
module SendSequence {
  import opened FaultInjection

  /** The decisions for a run of sends, in order, and the stub afterwards. */
  datatype Trace = Trace(results: seq<SendResult>, after: Stub)

  /** Some value among the first `n` of `values` is a sentinel. */
  predicate SentinelBefore(values: seq<string>, n: nat)
    requires n <= |values|
  {
    exists j :: 0 <= j < n && IsSentinel(values[j])
  }

  predicate HasSentinel(values: seq<string>) {
    SentinelBefore(values, |values|)
  }

  lemma HasSentinelCons(values: seq<string>)
    requires values != []
    ensures HasSentinel(values) <==> IsSentinel(values[0]) || HasSentinel(values[1..])
  {
  }

  /** The sends of `values`, one after the other, starting from `s`. */
  function Run(s: Stub, values: seq<string>): (t: Trace)
    // One result per value sent.
    ensures |t.results| == |values|
    // The flag ends set exactly when it started set or some sentinel was sent.
    ensures t.after.failed <==> s.failed || HasSentinel(values)
    decreases |values|
  {
    if values == [] then Trace([], s)
    else
      var first := Send(s, values[0]);
      var rest := Run(first.after, values[1..]);
      HasSentinelCons(values);
      Trace([first.result] + rest.results, rest.after)
  }

  /** Reference definition of the i-th decision, without folding: the i-th
      send is a fault exactly when the stub started armed, no earlier value
      was a sentinel, and the i-th value is one. */
  function Expected(s: Stub, values: seq<string>, i: nat): (r: SendResult)
    requires i < |values|
  {
    if s.failed || SentinelBefore(values, i) then Pending(false)
    else if values[i] == FailValue then Thrown
    else Pending(values[i] == FutureFailValue)
  }

  lemma SentinelBeforeShift(values: seq<string>, i: nat)
    requires 0 < i <= |values|
    ensures SentinelBefore(values, i) <==> IsSentinel(values[0]) || SentinelBefore(values[1..], i - 1)
  {
  }

  /** The fold and the reference definition agree at every position: each
      value gets exactly the decision its position calls for, in input order. */
  lemma {:induction false} RunMatchesExpected(s: Stub, values: seq<string>)
    ensures forall i :: 0 <= i < |values| ==> Run(s, values).results[i] == Expected(s, values, i)
    decreases |values|
  {
    if values != [] {
      var first := Send(s, values[0]);
      RunMatchesExpected(first.after, values[1..]);
      forall i | 0 <= i < |values|
        ensures Run(s, values).results[i] == Expected(s, values, i)
      {
        if i > 0 {
          SentinelBeforeShift(values, i);
          assert Run(s, values).results[i] == Run(first.after, values[1..]).results[i - 1];
          assert values[1..][i - 1] == values[i];
        }
      }
    }
  }

  /** The i-th send is a fault exactly when it carries the first sentinel of
      the run and the stub started armed. */
  lemma FaultIsFirstSentinel(s: Stub, values: seq<string>, i: nat)
    requires i < |values|
    ensures Run(s, values).results[i].IsFault()
        <==> s.Armed() && IsSentinel(values[i]) && !SentinelBefore(values, i)
  {
    RunMatchesExpected(s, values);
  }

  /** Two faults in one run are the same fault. */
  lemma AtMostOneFaultPosition(s: Stub, values: seq<string>, i: nat, j: nat)
    requires i < |values| && j < |values|
    requires Run(s, values).results[i].IsFault() && Run(s, values).results[j].IsFault()
    ensures i == j
  {
    FaultIsFirstSentinel(s, values, i);
    FaultIsFirstSentinel(s, values, j);
    EarlierSentinel(values, i, j);
    EarlierSentinel(values, j, i);
  }

  lemma EarlierSentinel(values: seq<string>, k: nat, n: nat)
    requires k < |values| && n <= |values| && IsSentinel(values[k])
    ensures k < n ==> SentinelBefore(values, n)
  {
  }

  /** Number of injected faults among `results`. */
  function FaultCount(results: seq<SendResult>): (n: nat) {
    if results == [] then 0
    else (if results[0].IsFault() then 1 else 0) + FaultCount(results[1..])
  }

  /** A run injects one fault if the stub started armed and some sentinel was
      sent, and none otherwise; from a fresh stub, at most one ever. */
  lemma {:induction false} RunFaultCount(s: Stub, values: seq<string>)
    ensures FaultCount(Run(s, values).results) == (if s.Armed() && HasSentinel(values) then 1 else 0)
    decreases |values|
  {
    if values != [] {
      var first := Send(s, values[0]);
      RunFaultCount(first.after, values[1..]);
      HasSentinelCons(values);
      assert Run(s, values).results[1..] == Run(first.after, values[1..]).results;
    }
  }

  lemma AtMostOneFault(values: seq<string>)
    ensures FaultCount(Run(Initial, values).results) <= 1
  {
    RunFaultCount(Initial, values);
  }

  /** Once disarmed, a stub stays disarmed and every later send is delivered
      normally. */
  lemma {:induction false} DisarmedRunIsQuiet(s: Stub, values: seq<string>)
    requires s.failed
    ensures Run(s, values).after == s
    ensures forall i :: 0 <= i < |values| ==> Run(s, values).results[i] == Pending(false)
    decreases |values|
  {
    if values != [] {
      DisarmedRunIsQuiet(s, values[1..]);
      assert Run(s, values).results[1..] == Run(s, values[1..]).results;
    }
  }

  /** Running two batches through the same stub is running their
      concatenation: the flag carries over from the first to the second. */
  lemma {:induction false} RunAppend(s: Stub, a: seq<string>, b: seq<string>)
    ensures Run(s, a + b)
         == Trace(Run(s, a).results + Run(Run(s, a).after, b).results, Run(Run(s, a).after, b).after)
    decreases |a|
  {
    if a == [] {
      assert a + b == b;
    } else {
      var first := Send(s, a[0]);
      assert (a + b)[0] == a[0];
      assert (a + b)[1..] == a[1..] + b;
      RunAppend(first.after, a[1..], b);
    }
  }

  /** The mocked producer answering one send at a time, with the stub's flag
      updated in place between calls. */
  method SendAll(s: Stub, values: seq<string>) returns (results: seq<SendResult>, after: Stub)
    ensures |results| == |values|
    ensures forall i :: 0 <= i < |values| ==> results[i] == Expected(s, values, i)
    ensures after.failed <==> s.failed || HasSentinel(values)
    ensures Trace(results, after) == Run(s, values)
  {
    var failed := s.failed;
    results := [];
    var k := 0;
    while k < |values|
      invariant 0 <= k <= |values|
      invariant |results| == k
      invariant failed <==> s.failed || SentinelBefore(values, k)
      invariant forall i :: 0 <= i < k ==> results[i] == Expected(s, values, i)
    {
      var value := values[k];
      var r: SendResult;
      if value == FailValue && !failed {
        failed := true;
        r := Thrown;
      } else {
        r := Pending(value == FutureFailValue && !failed);
        if value == FutureFailValue {
          failed := true;
        }
      }
      assert SentinelBefore(values, k + 1) <==> SentinelBefore(values, k) || IsSentinel(values[k]);
      results := results + [r];
      k := k + 1;
    }
    after := Stub(failed);
    RunMatchesExpected(s, values);
    assert results == Run(s, values).results;
  }
}
