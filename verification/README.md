# Hedera mirror node: publish metrics, entity-id parsing, signature types

A Dafny model of three small pieces of the Hedera mirror node.

- **Publish instrumentation of the monitor** (`PublishMetrics`, `PublishHistory`).
  `PublishMetrics.record` wraps every publish call and classifies how it ended.
  The status label is `SUCCESS`, the precheck status, the receipt status, or the
  exception's simple class name. It then updates a success counter, a multiset
  of failure labels, and three `computeIfAbsent` maps keyed by
  `Tags(scenario, status, type)`: submit timers, handle timers and duration
  gauges. `status` is the periodic reporter. It keeps a two-slot memory
  (`lastCount`, `lastElapsed`) to compute the rate between ticks.
  The model runs the calls one after another. The state is the immutable
  `Metrics` value, and `Record` and `Status` are pure step functions.
  The publish function's outcome, the start time and the current time are
  parameters. A timer is the sequence of milliseconds recorded on it. A
  gauge is its entry in the map plus the identity it registers.
  `PublishHistory` runs any sequence of calls and ticks and proves the
  counting properties over it.
- **Entity-id parsing** (`EntityId`). `getEntityObFromString` splits
  `"num"` or `"shard.realm.num"` on `.` and rejects any other number of
  parts. JavaScript's `String.prototype.split` is written out as `Split`,
  and proved to be the inverse of `Join`.
- **Signature-type names** (`SignatureType`). `getName` looks a protobuf id
  up in a five-entry table and falls back to `UNKNOWN`.

Modelling choices that follow the code:

- `durationGauges` is keyed by the full `Tags`, status included
  (PublishMetrics.java line 97). Only the registered gauge's identity leaves
  the status out (lines 113-117). That identity is modelled as `Gauge(scenario, type)`.
- Only `java.lang.Exception` is caught (line 87). A throwable that is not an
  `Exception` (`RaisedThrowable`) escapes every catch arm. It is passed on
  unwrapped, and the finally block still times it under the `SUCCESS` series
  without counting it anywhere (`ThrowableTimedAsSuccess`).
- A `null` return from the publish function (`Returned(None)`) still counts
  as a success. Its submit time is `now - start`.
- The error tally is bumped only when the label differs from `SUCCESS`
  (line 105). A failure whose status is literally `SUCCESS` is therefore
  tallied nowhere.
- In the one-part case the parsed object keeps the numbers `0` for shard and
  realm. Otherwise every field is a string. `Component` records which case applies.

## Model

| member | source | states |
|---|---|---|
| PublishMetrics.Record | hedera-mirror-monitor/src/main/java/com/hedera/mirror/monitor/publish/PublishMetrics.java:67-108 | A returned response is passed back unchanged, and every `Exception` comes back as a `PublishException` with the original as cause. The counter rises by one exactly for returned calls. The call's label is added to the error multiset exactly when it is not `SUCCESS`. Exactly one submit recording is appended: the response timestamp minus start, or `now - start` when there is no response. A handle recording of `now - start` is made exactly when a receipt came back. The call's gauge exists afterwards and existing gauges are untouched. No other timer or the reporter memory changes. |
| PublishMetrics.StatusLabel | hedera-mirror-monitor/src/main/java/com/hedera/mirror/monitor/publish/PublishMetrics.java:70-90 | Only a caught `Exception` can give a label other than `SUCCESS`. The label each catch arm assigns is stated by `CatchArmSeries`. |
| PublishMetrics.CallTags | hedera-mirror-monitor/src/main/java/com/hedera/mirror/monitor/publish/PublishMetrics.java:93-94 | The series key carries the request's scenario and type. Its status differs from `SUCCESS` only for a caught `Exception`. |
| PublishMetrics.HasReceipt | hedera-mirror-monitor/src/main/java/com/hedera/mirror/monitor/publish/PublishMetrics.java:99 | A handle time is recorded only when there is a response, and therefore only on a `SUCCESS` series. |
| PublishMetrics.RecordOn | hedera-mirror-monitor/src/main/java/com/hedera/mirror/monitor/publish/PublishMetrics.java:95-96 | `computeIfAbsent` followed by `record` adds one value to the series' timer and leaves every other timer as it was. |
| PublishMetrics.GaugeFor | hedera-mirror-monitor/src/main/java/com/hedera/mirror/monitor/publish/PublishMetrics.java:97 | An existing gauge is reused, so the map is unchanged. A missing one is created with `newDurationMetric`. |
| PublishMetrics.GetRate | hedera-mirror-monitor/src/main/java/com/hedera/mirror/monitor/publish/PublishMetrics.java:155-157 | The rate is 0 when elapsed is at most 0. Otherwise rate times elapsed microseconds equals count times 1,000,000. |
| PublishMetrics.ToSeconds | hedera-mirror-monitor/src/main/java/com/hedera/mirror/monitor/publish/PublishMetrics.java:159-161 | Seconds times 1,000,000 equals the microseconds. |
| PublishMetrics.ErrorCounts | hedera-mirror-monitor/src/main/java/com/hedera/mirror/monitor/publish/PublishMetrics.java:146-147 | The copied map holds exactly the labels with a positive tally, each with its multiplicity. |
| PublishMetrics.Status | hedera-mirror-monitor/src/main/java/com/hedera/mirror/monitor/publish/PublishMetrics.java:138-153 | The instant count plus the previous `lastCount` is the current count, and likewise for elapsed time. The average rate is `GetRate` of the count over the elapsed time, the instant rate is `GetRate` of the instant count over the instant elapsed time, and the instant seconds are `ToSeconds` of the instant elapsed time. Both rates are 0 when their elapsed time is at most 0. The error map mirrors the tally. Afterwards only `lastCount`/`lastElapsed` have changed, and they now hold this tick's sample. |
| PublishMetrics.UncaughtKeepsSuccessLabel | hedera-mirror-monitor/src/main/java/com/hedera/mirror/monitor/publish/PublishMetrics.java:70-90 | When no catch arm runs (the call returned, or it threw something that is not an `Exception`), the label keeps its initial value `SUCCESS`. |
| PublishMetrics.CatchArmSeries | hedera-mirror-monitor/src/main/java/com/hedera/mirror/monitor/publish/PublishMetrics.java:79-97 | A failure is timed under, and given a gauge for, the series labelled with the precheck status, the receipt's status or the exception's simple class name, one per catch arm. That label is tallied once unless it is `SUCCESS`. |
| PublishMetrics.FailureTalliesItsLabel | hedera-mirror-monitor/src/main/java/com/hedera/mirror/monitor/publish/PublishMetrics.java:105-107 | A failing call raises its own label's tally by exactly one and leaves every other label and the counter unchanged. |
| PublishMetrics.FailureRecordsNoHandleTime | hedera-mirror-monitor/src/main/java/com/hedera/mirror/monitor/publish/PublishMetrics.java:99-103 | A call that did not return never records a handle time. |
| PublishMetrics.GaugeIdempotent | hedera-mirror-monitor/src/main/java/com/hedera/mirror/monitor/publish/PublishMetrics.java:97 | A second call on the same series leaves the gauges exactly as the first call left them. |
| PublishMetrics.GaugeIgnoresStatus | hedera-mirror-monitor/src/main/java/com/hedera/mirror/monitor/publish/PublishMetrics.java:111-118 | Two series that differ only in status register the same gauge identity. |
| PublishMetrics.ThrowableTimedAsSuccess | hedera-mirror-monitor/src/main/java/com/hedera/mirror/monitor/publish/PublishMetrics.java:67-108 | A non-`Exception` throwable propagates unwrapped. The counter and tally do not move, and `now - start` is recorded on the `SUCCESS` series. |
| PublishMetrics.SubmitScenario | hedera-mirror-monitor/src/main/java/com/hedera/mirror/monitor/publish/PublishMetrics.java:74-96 | A receipt-less response timestamped 50 ms after start gives counter 1, one 50 ms submit recording, no handle recording and no errors. |
| PublishMetrics.BusyScenario | hedera-mirror-monitor/src/main/java/com/hedera/mirror/monitor/publish/PublishMetrics.java:79-107 | A `BUSY` precheck failure is rethrown wrapped, the tally becomes `{BUSY: 1}` and the counter stays 0. |
| PublishMetrics.TickScenario | hedera-mirror-monitor/src/main/java/com/hedera/mirror/monitor/publish/PublishMetrics.java:139-157 | With 100 successes at 2 s after 40 at 1 s, the tick reports an average of 50/s, an instant count of 60 over 1 s and an instant rate of 60/s. |
| PublishHistory.RunSubmitCount | hedera-mirror-monitor/src/main/java/com/hedera/mirror/monitor/publish/PublishMetrics.java:94-96 | After any sequence of calls and ticks, a series' submit timer keeps its earlier recordings as a prefix and its length grows by exactly one per call recorded under that series. |
| PublishHistory.RunHandleCount | hedera-mirror-monitor/src/main/java/com/hedera/mirror/monitor/publish/PublishMetrics.java:99-103 | A series' handle timer keeps its earlier recordings as a prefix and its length grows by exactly one per call under that series that came back with a receipt. |
| PublishHistory.RunCounter | hedera-mirror-monitor/src/main/java/com/hedera/mirror/monitor/publish/PublishMetrics.java:74-78 | The success counter rises by exactly the number of calls that returned. |
| PublishHistory.RunErrors | hedera-mirror-monitor/src/main/java/com/hedera/mirror/monitor/publish/PublishMetrics.java:105-107 | Every label other than `SUCCESS` is tallied once per call carrying it. `SUCCESS` is never tallied. |
| PublishHistory.RunMapsGrow | hedera-mirror-monitor/src/main/java/com/hedera/mirror/monitor/publish/PublishMetrics.java:95-101 | The three maps never lose a key, and an existing gauge is never replaced. |
| PublishHistory.RunGaugesPresent | hedera-mirror-monitor/src/main/java/com/hedera/mirror/monitor/publish/PublishMetrics.java:97 | Every completed call's series has a gauge at the end of the run. |
| PublishHistory.RunGaugeKeys | hedera-mirror-monitor/src/main/java/com/hedera/mirror/monitor/publish/PublishMetrics.java:97 | After a run a series has a gauge exactly when it had one before or some call in the run was recorded under it. |
| PublishHistory.RunGaugeIdentity | hedera-mirror-monitor/src/main/java/com/hedera/mirror/monitor/publish/PublishMetrics.java:111-118 | Every gauge present after a run is registered under its series' scenario and type. |
| PublishHistory.RunTickTotal | hedera-mirror-monitor/src/main/java/com/hedera/mirror/monitor/publish/PublishMetrics.java:143-152 | After any run, `lastCount` equals its starting value plus the sum of the instant counts every tick reported. |
| PublishHistory.SessionTicksSumToSuccesses | hedera-mirror-monitor/src/main/java/com/hedera/mirror/monitor/publish/PublishMetrics.java:140-152 | In a session from a fresh state that ends with a tick, the reported instant counts add up to the number of successful calls. |
| PublishHistory.FreshSessionCounts | hedera-mirror-monitor/src/main/java/com/hedera/mirror/monitor/publish/PublishMetrics.java:52-60 | From a fresh state, a series' submit timer length equals the number of calls under it, and its handle timer length equals the number of those calls that got a receipt. The series has a gauge exactly when some call used it. |
| EntityId.Split | hedera-mirror-rest/entity-info-update/dbEntityService.js:48 | `split('.')` always yields at least one part. |
| EntityId.SplitLength | hedera-mirror-rest/entity-info-update/dbEntityService.js:48 | The number of parts is the number of dots plus one. |
| EntityId.SplitPartsAreSeparatorFree | hedera-mirror-rest/entity-info-update/dbEntityService.js:48 | No part contains a dot. |
| EntityId.JoinSplit | hedera-mirror-rest/entity-info-update/dbEntityService.js:48 | Joining the parts with dots gives back the id. |
| EntityId.SplitJoin | hedera-mirror-rest/entity-info-update/dbEntityService.js:48 | Splitting a dot-join of dot-free parts gives back those parts. |
| EntityId.GetEntityObFromString | hedera-mirror-rest/entity-info-update/dbEntityService.js:41-60 | The id is accepted if and only if it has zero or two dots. A dot-free id gives shard 0, realm 0 and num equal to the id. A two-dot id gives dot-free string shard, realm and num that rejoin to the id. Every rejection carries `Id format is incorrect`. |
| EntityId.ParseRender | hedera-mirror-rest/entity-info-update/dbEntityService.js:48-54 | Every accepted id renders back to itself. |
| EntityId.ParseThreeParts | hedera-mirror-rest/entity-info-update/dbEntityService.js:51-54 | Any three dot-free strings joined by dots parse to exactly those strings as shard, realm and num, in order. |
| EntityId.WrongPartCountRejected | hedera-mirror-rest/entity-info-update/dbEntityService.js:55-57 | A part count other than 1 or 3 is rejected with the format error. |
| EntityId.NoNumericValidation | hedera-mirror-rest/entity-info-update/dbEntityService.js:48-54 | `""` gives num `""`, `".."` gives three empty parts, and `"abc"` is passed through. |
| EntityId.ParseExamples | hedera-mirror-rest/entity-info-update/dbEntityService.js:41-60 | `0.0.98` and `98` parse as expected. `0.98` and `0.0.0.98` are rejected. |
| SignatureType.GetName | hedera-mirror-rest/model/signatureType.js:33-35 | The result is `UNKNOWN` if and only if the id is not in the table. A known id gets its table name. The result is always one of the six names. |
| SignatureType.KnownNames | hedera-mirror-rest/model/signatureType.js:23-29 | Ids 2 to 6 give `CONTRACT`, `ED25519`, `RSA_3072`, `ECDSA_384` and `ECDSA_SECP256K1`. |
| SignatureType.OutsideTableIsUnknown | hedera-mirror-rest/model/signatureType.js:31-35 | Ids below 2 or above 6 give `UNKNOWN`. |
| SignatureType.TableNamesNonEmpty | hedera-mirror-rest/model/signatureType.js:23-29 | No table name is empty or `UNKNOWN`, so the fallback never replaces a known name. |
| SignatureType.GetNameInjective | hedera-mirror-rest/model/signatureType.js:23-35 | Two known ids with the same name are the same id. |
| SignatureType.NameIdRoundTrip | hedera-mirror-rest/model/signatureType.js:23-35 | Reverse lookup of a known id's name gives the id back. An unknown id's name has no id. |
| SignatureType.IdNameRoundTrip | hedera-mirror-rest/model/signatureType.js:23-35 | A name that has an id is the name `getName` gives that id. |

## Left out

- Concurrency: `AtomicLong`, `ConcurrentHashMultiset`, the atomicity of `ConcurrentHashMap.computeIfAbsent` and the single runner of the `@Scheduled` reporter. The model is one sequential interleaving of calls and ticks.
- Micrometer internals: building and registering meters, and the statistics a timer keeps. A timer is the list of values recorded on it. A gauge is its map entry plus its registered identity. The value the gauge samples (the stopwatch reading) is not modelled.
- PublishHistory.RunSubmitCount: a timer here keeps every value recorded on it, negative ones included. Micrometer's timer ignores a negative amount, for example after the wall clock steps back, so for the real timer the "one recording per call" count holds only when durations are non-negative. The same applies to RunHandleCount and FreshSessionCounts.
- Status: the error tally's counts are unbounded naturals, not the `int` counts of the Guava multiset and of the `Map<String, Integer>` copy.
- Clock reads (`System.currentTimeMillis`, the stopwatch): the call's start and current time and the reporter's elapsed microseconds are parameters.
- GetRate: the result is the exact real quotient. The `double` arithmetic and `Precision.round` to one decimal are not modelled.
- ToSeconds: exact real quotient, without the `double` arithmetic and the rounding to two decimals.
- Record: `endTime - startTime` and `now - start` are unbounded integers. A 64-bit `long` wrap-around cannot happen for real clock readings.
- Status: `count - lastCount` and `elapsed - lastElapsed` are unbounded integers, not 64-bit `long`s. The log line's text and the stopwatch's own rendering are not modelled.
- Logging in both the Java and the JavaScript files.
- Exception messages, the transaction id read for logging, and the other fields of `PublishResponse`. Only the timestamp and the receipt influence the metrics.
- The SDK's status enums: a precheck or receipt status is the string its `toString()` gives.
- `getEntity` and `updateEntity` in dbEntityService.js: database queries through `pg-pool`.
- EntityId.GetEntityObFromString: `id` is a string. A non-string argument, on which `split` would throw a `TypeError`, is not modelled.
- SignatureType.GetName: the id is an integer. JavaScript property lookup with other keys (the string `"2"`, or inherited names such as `"toString"`) is not modelled.
- The transaction suppliers for consensus messages and token creation, and the crypto-transfer repository test. They build SDK objects from randomness and the clock, or exercise a real database.
