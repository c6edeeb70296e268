# Fault-injecting Kafka producer stub

This project models the fault-injection logic of `StubPublishKafka`, the test
double that NiFi's Kafka publish processor tests use in place of a real Kafka
producer. The stub installs an answer on the one-argument
`Producer.send(ProducerRecord)` of a mocked producer. For every call of that
overload, the answer decides one of three things from the record's decoded
value and one boolean field, `failed`:

- the submission throws (`Thrown`);
- `send` returns a pending delivery whose timed `get` fails (`Pending(true)`);
- `send` returns a pending delivery that resolves normally (`Pending(false)`).

The value `"fail"` makes the submission throw. The value `"futurefail"` makes
the delivery fail on its timed `get`. Each fires only while `failed` is still
false, and firing sets it. Both sentinels share that one flag, so whichever
fires first disarms the stub for both.

Modules:

- `FaultInjection` (`fault_injection.dfy`): the stub state `Stub(failed)`, the
  per-send decision `Send`, and the per-send properties.
- `SendSequence` (`send_sequence.dfy`): `Run`, a fold of `Send` over a sequence
  of record values. `Expected` is a closed-form reference for the i-th decision
  that needs no fold. The lemmas connect the two and prove "at most one fault",
  monotonicity of the flag and composition of batches. `SendAll` is the loop
  form of the same thing: the mocked producer answering calls one at a time.
- `Scenarios` (`scenarios.dfy`): concrete runs from a fresh stub.

The record value is taken as an already decoded `string`. Sends are strictly
sequential.

Both sentinels are guarded by the single `failed` field
(`StubPublishKafka.java:44`, `:82-88`), so a fired "fail" suppresses a later
"futurefail" and the reverse. `Scenarios.SentinelsShareOneFlag` states this.

## Model

| member | source | states |
|---|---|---|
| FaultInjection.Send | nifi-nar-bundles/nifi-kafka-bundle/nifi-kafka-pubsub-processors/src/test/java/org/apache/nifi/processors/kafka/pubsub/StubPublishKafka.java:80-91 | A send injects a fault exactly when the stub is armed and the value is a sentinel. The fault is a throw for "fail" and a failing delivery for "futurefail". Afterwards the flag is set iff it was set before or the value was a sentinel. |
| FaultInjection.OrdinaryValueIsDelivered | nifi-nar-bundles/nifi-kafka-bundle/nifi-kafka-pubsub-processors/src/test/java/org/apache/nifi/processors/kafka/pubsub/StubPublishKafka.java:82-91 | A value other than exactly "fail" or "futurefail" gets a normal pending delivery and leaves the flag unchanged. |
| FaultInjection.ArmedFailThrows | nifi-nar-bundles/nifi-kafka-bundle/nifi-kafka-pubsub-processors/src/test/java/org/apache/nifi/processors/kafka/pubsub/StubPublishKafka.java:82-85 | "fail" sent to an armed stub throws, yields no pending delivery, and sets the flag. |
| FaultInjection.DisarmedFailIsDelivered | nifi-nar-bundles/nifi-kafka-bundle/nifi-kafka-pubsub-processors/src/test/java/org/apache/nifi/processors/kafka/pubsub/StubPublishKafka.java:82-91 | "fail" sent once the flag is set does not throw; it gets a normal pending delivery. |
| FaultInjection.ArmedFutureFailFailsOnGet | nifi-nar-bundles/nifi-kafka-bundle/nifi-kafka-pubsub-processors/src/test/java/org/apache/nifi/processors/kafka/pubsub/StubPublishKafka.java:86-89 | "futurefail" sent to an armed stub returns a pending delivery whose timed get fails, and sets the flag. |
| FaultInjection.DisarmedFutureFailIsDelivered | nifi-nar-bundles/nifi-kafka-bundle/nifi-kafka-pubsub-processors/src/test/java/org/apache/nifi/processors/kafka/pubsub/StubPublishKafka.java:86-91 | "futurefail" sent once the flag is set returns a delivery that resolves normally. |
| FaultInjection.SendKeepsFlag | nifi-nar-bundles/nifi-kafka-bundle/nifi-kafka-pubsub-processors/src/test/java/org/apache/nifi/processors/kafka/pubsub/StubPublishKafka.java:82-88 | The flag is monotone. Once it is set, no send clears it, and a send injects no fault. |
| SendSequence.Run | nifi-nar-bundles/nifi-kafka-bundle/nifi-kafka-pubsub-processors/src/test/java/org/apache/nifi/processors/kafka/pubsub/StubPublishKafka.java:76-93 | A run of sends yields exactly one result per value. The flag ends set iff it started set or some value was a sentinel. |
| SendSequence.RunMatchesExpected | nifi-nar-bundles/nifi-kafka-bundle/nifi-kafka-pubsub-processors/src/test/java/org/apache/nifi/processors/kafka/pubsub/StubPublishKafka.java:76-93 | Result i, in input order, is what the closed-form reference prescribes for position i. That is a fault only for the first sentinel of the run while the stub started armed; otherwise it is a normal delivery. |
| SendSequence.FaultIsFirstSentinel | nifi-nar-bundles/nifi-kafka-bundle/nifi-kafka-pubsub-processors/src/test/java/org/apache/nifi/processors/kafka/pubsub/StubPublishKafka.java:82-88 | Send i is a fault iff the stub started armed, value i is a sentinel, and no earlier value was one. |
| SendSequence.AtMostOneFaultPosition | nifi-nar-bundles/nifi-kafka-bundle/nifi-kafka-pubsub-processors/src/test/java/org/apache/nifi/processors/kafka/pubsub/StubPublishKafka.java:82-88 | Any two faulted positions in one run are the same position. |
| SendSequence.RunFaultCount | nifi-nar-bundles/nifi-kafka-bundle/nifi-kafka-pubsub-processors/src/test/java/org/apache/nifi/processors/kafka/pubsub/StubPublishKafka.java:82-88 | A run injects exactly one fault if the stub started armed and some value was a sentinel, and zero otherwise. |
| SendSequence.AtMostOneFault | nifi-nar-bundles/nifi-kafka-bundle/nifi-kafka-pubsub-processors/src/test/java/org/apache/nifi/processors/kafka/pubsub/StubPublishKafka.java:44-44 | From a freshly built stub (flag false), any sequence of sends injects at most one fault, thrown or deferred. |
| SendSequence.DisarmedRunIsQuiet | nifi-nar-bundles/nifi-kafka-bundle/nifi-kafka-pubsub-processors/src/test/java/org/apache/nifi/processors/kafka/pubsub/StubPublishKafka.java:82-91 | From a disarmed stub, every send of any run is a normal delivery, and the stub is unchanged. |
| SendSequence.RunAppend | nifi-nar-bundles/nifi-kafka-bundle/nifi-kafka-pubsub-processors/src/test/java/org/apache/nifi/processors/kafka/pubsub/StubPublishKafka.java:42-44 | The flag is a field of the stub, not of the mocked producer. So two batches sent through one stub behave like their concatenation, with the flag carried from the first into the second. |
| SendSequence.SendAll | nifi-nar-bundles/nifi-kafka-bundle/nifi-kafka-pubsub-processors/src/test/java/org/apache/nifi/processors/kafka/pubsub/StubPublishKafka.java:76-93 | Answering the sends one at a time, with the flag updated in place, gives one result per value in order. Each result matches the closed-form reference, and the whole agrees with the fold `Run`. |
| Scenarios.FailInMiddleOfBatch | nifi-nar-bundles/nifi-kafka-bundle/nifi-kafka-pubsub-processors/src/test/java/org/apache/nifi/processors/kafka/pubsub/StubPublishKafka.java:82-91 | ["ok","fail","ok"] gives delivered, thrown, delivered. The records after the throw are still answered. |
| Scenarios.FailOnlyOnce | nifi-nar-bundles/nifi-kafka-bundle/nifi-kafka-pubsub-processors/src/test/java/org/apache/nifi/processors/kafka/pubsub/StubPublishKafka.java:82-86 | A second "fail" is not thrown. |
| Scenarios.FutureFailOnlyOnce | nifi-nar-bundles/nifi-kafka-bundle/nifi-kafka-pubsub-processors/src/test/java/org/apache/nifi/processors/kafka/pubsub/StubPublishKafka.java:86-91 | A second "futurefail" resolves normally. |
| Scenarios.SentinelsShareOneFlag | nifi-nar-bundles/nifi-kafka-bundle/nifi-kafka-pubsub-processors/src/test/java/org/apache/nifi/processors/kafka/pubsub/StubPublishKafka.java:82-88 | A fired "fail" disarms a later "futurefail", and a fired "futurefail" disarms a later "fail". |
| Scenarios.NearMissesAreOrdinary | nifi-nar-bundles/nifi-kafka-bundle/nifi-kafka-pubsub-processors/src/test/java/org/apache/nifi/processors/kafka/pubsub/StubPublishKafka.java:82-87 | Sentinel matching is exact string equality. Values differing in case or by extra characters are ordinary. |

## Left out

- `buildKafkaResource` (reflection on private fields, `Unsafe.allocateInstance`, building properties through `buildKafkaProperties`): this is wiring of the test double into the processor, with no decision logic.
- Mockito mechanics (`mock`, `when`, `then`, `thenThrow`): only their effect is modelled, as `SendResult` values. The value a mocked `Future.get` returns when it does not throw is not modelled.
- The two-argument `send(record, callback)` overload: the stub does not instrument it, so on the mock it returns Mockito's default and never reads or sets `failed`. Only the one-argument `send(ProducerRecord)` is modelled.
- The exception objects themselves (`RuntimeException("intentional")`, `ExecutionException`): they are the `Thrown` and `Pending(true)` results.
- UTF-8 decoding of the record's bytes: the model takes the decoded value as a string. A record with a null value, which would make the decoding throw, is not modelled.
- The `failRandomly` parameter of `instrumentProducer`: the code never reads it, so it has no effect to model.
- The `volatile` modifiers and any concurrent use of the stub: sends are modelled as strictly sequential.
- The real `PublishKafka` / `KafkaPublisher` publish, await and aggregate protocol: `PublishKafka.java` and `KafkaPublisher.java` are not part of this model.
