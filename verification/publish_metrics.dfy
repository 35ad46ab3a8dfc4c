/** The monitor's publish instrumentation: every publish call is wrapped by
    `record`, which classifies the outcome into a status label and updates a
    success counter, an error tally and per-`Tags` submit timers, handle
    timers and duration gauges; `status` is the periodic throughput report.

    The model is one sequential interleaving of the calls: the state is an
    immutable `Metrics` value and each operation a pure step function. Clock
    reads are parameters, a timer is the sequence of durations recorded on it,
    and a gauge is its presence in the map plus the identity it registers. */
module PublishMetrics {
  import opened Wrappers

  /** The status label of a call that returned. */
  const Success: string := "SUCCESS"

  /** Name of a `TransactionType` enum constant. */
  type TransactionType = string

  /** The parts of a publish request that the instrumentation reads. */
  datatype PublishRequest = PublishRequest(scenarioName: string, txType: TransactionType)

  /** A transaction receipt; only its status is read. */
  datatype Receipt = Receipt(status: string)

  /** What a publish call returns: its timestamp in epoch milliseconds and a
      receipt when one was requested. */
  datatype PublishResponse = PublishResponse(timestamp: int, receipt: Option<Receipt>)

  /** The `java.lang.Exception`s the publish function can throw, as the three
      catch arms see them. */
  datatype Failure =
    | PrecheckStatusException(precheckStatus: string)
    | ReceiptStatusException(receipt: Receipt)
    | OtherException(simpleClassName: string)

  /** How the wrapped publish function ended. `Returned(None)` is a `null`
      return; `RaisedThrowable` is a throwable that is not an `Exception`
      (a `java.lang.Error`), which no catch arm handles. */
  datatype Outcome =
    | Returned(response: Option<PublishResponse>)
    | Raised(failure: Failure)
    | RaisedThrowable(throwableClassName: string)

  /** What `record` gives its caller: the response, a `PublishException`
      wrapping the original failure, or the uncaught throwable itself. */
  datatype CallResult =
    | Return(response: Option<PublishResponse>)
    | PublishException(cause: Failure)
    | Propagate(throwableClassName: string)

  /** The key of a metric series. */
  datatype Tags = Tags(scenarioName: string, status: string, txType: TransactionType)

  /** The identity a duration gauge registers: its tags are the scenario and
      the type only, the status is not among them. */
  datatype Gauge = Gauge(scenarioName: string, txType: TransactionType)

  /** The instrumentation state. `errors` is the multiset of failure labels,
      a timer is the sequence of milliseconds recorded on it, and `lastCount`
      and `lastElapsed` are the reporter's memory of its previous tick. */
  datatype Metrics = Metrics(
    counter: int,
    errors: multiset<string>,
    submitTimers: map<Tags, seq<int>>,
    handleTimers: map<Tags, seq<int>>,
    durationGauges: map<Tags, Gauge>,
    lastCount: int,
    lastElapsed: int)

  /** The state of a freshly constructed `PublishMetrics`. */
  const Initial: Metrics := Metrics(0, multiset{}, map[], map[], map[], 0, 0)

  /** The recordings of the timer for `t`, none when it does not exist yet. */
  function Recordings(timers: map<Tags, seq<int>>, t: Tags): seq<int>
  {
    if t in timers then timers[t] else []
  }

  /** `timers.computeIfAbsent(t, ...)` followed by `record(value)`: the timer
      for `t` is created when missing and gets `value` appended; no other
      timer changes. */
  function RecordOn(timers: map<Tags, seq<int>>, t: Tags, value: int): (r: map<Tags, seq<int>>)
    ensures r.Keys == timers.Keys + {t}
    ensures r[t] == Recordings(timers, t) + [value]
    ensures forall u :: u in timers && u != t ==> r[u] == timers[u]
  {
    timers[t := Recordings(timers, t) + [value]]
  }

  /** `newDurationMetric`: the gauge registered for a series. */
  function NewDurationMetric(t: Tags): (g: Gauge)
    ensures g.scenarioName == t.scenarioName && g.txType == t.txType
  {
    Gauge(t.scenarioName, t.txType)
  }

  /** `durationGauges.computeIfAbsent(t, this::newDurationMetric)`: an
      existing gauge is reused, a missing one is created. */
  function GaugeFor(gauges: map<Tags, Gauge>, t: Tags): (r: map<Tags, Gauge>)
    ensures r.Keys == gauges.Keys + {t}
    ensures t in gauges ==> r == gauges
    ensures t !in gauges ==> r[t] == NewDurationMetric(t)
    ensures forall u :: u in gauges ==> r[u] == gauges[u]
  {
    if t in gauges then gauges else gauges[t := NewDurationMetric(t)]
  }

  /** The status label the catch arms assign: the precheck status, the
      receipt's status, or the exception's simple class name. A returned call
      keeps `SUCCESS`, and so does a non-`Exception` throwable, for which no
      arm runs. */
  function StatusLabel(o: Outcome): (status: string)
    ensures status != Success ==> o.Raised?
  {
    match o
    case Returned(_) => Success
    case Raised(PrecheckStatusException(status)) => status
    case Raised(ReceiptStatusException(receipt)) => receipt.status
    case Raised(OtherException(name)) => name
    case RaisedThrowable(_) => Success
  }

  /** The series a call is recorded under. */
  function CallTags(req: PublishRequest, o: Outcome): (t: Tags)
    ensures t.scenarioName == req.scenarioName && t.txType == req.txType
    ensures t.status != Success ==> o.Raised?
  {
    Tags(req.scenarioName, StatusLabel(o), req.txType)
  }

  /** The response the finally block sees: only a returned call has one. */
  function ResponseOf(o: Outcome): Option<PublishResponse>
  {
    if o.Returned? then o.response else None
  }

  /** True when the finally block records a handle time. */
  function HasReceipt(o: Outcome): (b: bool)
    ensures b ==> ResponseOf(o).Some? && StatusLabel(o) == Success
  {
    o.Returned? && o.response.Some? && o.response.value.receipt.Some?
  }

  /** `record`: runs one publish call, started at `start` and finished at
      `now` (both epoch milliseconds), and returns the caller's result with
      the updated state. */
  function Record(m: Metrics, req: PublishRequest, o: Outcome, start: int, now: int): (r: (CallResult, Metrics))
    // the caller's result: a returned response unchanged, every Exception wrapped with the original as cause
    ensures o.Returned? ==> r.0 == Return(o.response)
    ensures o.Raised? ==> r.0 == PublishException(o.failure)
    ensures o.RaisedThrowable? ==> r.0 == Propagate(o.throwableClassName)
    // the success counter counts exactly the calls that returned
    ensures r.1.counter == if o.Returned? then m.counter + 1 else m.counter
    // one failure label more, exactly when the label is not SUCCESS
    ensures StatusLabel(o) != Success ==> r.1.errors == m.errors + multiset{StatusLabel(o)}
    ensures StatusLabel(o) == Success ==> r.1.errors == m.errors
    // exactly one submit recording, on this call's series
    ensures r.1.submitTimers.Keys == m.submitTimers.Keys + {CallTags(req, o)}
    ensures forall t :: t in m.submitTimers && t != CallTags(req, o) ==> r.1.submitTimers[t] == m.submitTimers[t]
    ensures r.1.submitTimers[CallTags(req, o)] ==
              Recordings(m.submitTimers, CallTags(req, o))
              + [if o.Returned? && o.response.Some? then o.response.value.timestamp - start else now - start]
    // a handle recording of now - start exactly when a receipt came back
    ensures HasReceipt(o) ==> r.1.handleTimers == m.handleTimers[CallTags(req, o) := Recordings(m.handleTimers, CallTags(req, o)) + [now - start]]
    ensures !HasReceipt(o) ==> r.1.handleTimers == m.handleTimers
    // the call's gauge exists afterwards, and an existing one is left alone
    ensures r.1.durationGauges.Keys == m.durationGauges.Keys + {CallTags(req, o)}
    ensures forall t :: t in m.durationGauges ==> r.1.durationGauges[t] == m.durationGauges[t]
    ensures r.1.durationGauges[CallTags(req, o)] == Gauge(req.scenarioName, req.txType)
              || CallTags(req, o) in m.durationGauges
    // the reporter's memory is not touched
    ensures r.1.lastCount == m.lastCount && r.1.lastElapsed == m.lastElapsed
  {
    var status := StatusLabel(o);
    var response := ResponseOf(o);
    var result := match o
      case Returned(resp) => Return(resp)
      case Raised(failure) => PublishException(failure)
      case RaisedThrowable(name) => Propagate(name);
    var counter := if o.Returned? then m.counter + 1 else m.counter;
    var endTime := if response.Some? then response.value.timestamp else now;
    var tags := Tags(req.scenarioName, status, req.txType);
    var submitTimers := RecordOn(m.submitTimers, tags, endTime - start);
    var durationGauges := GaugeFor(m.durationGauges, tags);
    var handleTimers :=
      if response.Some? && response.value.receipt.Some? then RecordOn(m.handleTimers, tags, now - start)
      else m.handleTimers;
    var errors := if status != Success then m.errors + multiset{status} else m.errors;
    (result, m.(counter := counter, errors := errors, submitTimers := submitTimers,
                handleTimers := handleTimers, durationGauges := durationGauges))
  }

  /** `getRate`: events per second from a count and elapsed microseconds,
      zero when no time has elapsed (before rounding to one decimal). */
  function GetRate(count: int, elapsedMicros: int): (rate: real)
    ensures elapsedMicros <= 0 ==> rate == 0.0
    ensures elapsedMicros > 0 ==> rate * (elapsedMicros as real) == (count as real) * 1000000.0
  {
    if elapsedMicros > 0 then ((count as real) * 1000000.0) / (elapsedMicros as real) else 0.0
  }

  /** `toSeconds`: microseconds as seconds (before rounding to two decimals). */
  function ToSeconds(micros: int): (seconds: real)
    ensures seconds * 1000000.0 == micros as real
  {
    (micros as real) / 1000000.0
  }

  /** The values one `status` tick logs. */
  datatype StatusReport = StatusReport(
    count: int,
    elapsedMicros: int,
    averageRate: real,
    instantCount: int,
    instantElapsed: int,
    instantSeconds: real,
    instantRate: real,
    errorCounts: map<string, nat>)

  /** The error multiset copied into a label-to-count map. */
  function ErrorCounts(errors: multiset<string>): (counts: map<string, nat>)
    ensures forall s :: s in counts <==> errors[s] > 0
    ensures forall s :: s in counts ==> counts[s] == errors[s]
  {
    map s | s in errors :: errors[s]
  }

  /** `status`: one reporter tick at stopwatch reading `elapsedMicros`. */
  function Status(m: Metrics, elapsedMicros: int): (r: (StatusReport, Metrics))
    ensures r.0.count == m.counter && r.0.elapsedMicros == elapsedMicros
    ensures r.0.instantCount + m.lastCount == m.counter
    ensures r.0.instantElapsed + m.lastElapsed == elapsedMicros
    // the rates and the interval length, each characterised by the contract of its helper
    ensures r.0.averageRate == GetRate(m.counter, elapsedMicros)
    ensures r.0.instantRate == GetRate(r.0.instantCount, r.0.instantElapsed)
    ensures r.0.instantSeconds == ToSeconds(r.0.instantElapsed)
    ensures r.0.instantElapsed <= 0 ==> r.0.instantRate == 0.0
    ensures elapsedMicros <= 0 ==> r.0.averageRate == 0.0
    ensures forall s :: s in r.0.errorCounts <==> m.errors[s] > 0
    ensures forall s :: s in r.0.errorCounts ==> r.0.errorCounts[s] == m.errors[s]
    // only the reporter's memory moves: it now holds this tick's sample
    ensures r.1 == m.(lastCount := m.counter, lastElapsed := elapsedMicros)
  {
    var count := m.counter;
    var averageRate := GetRate(count, elapsedMicros);
    var instantCount := count - m.lastCount;
    var instantElapsed := elapsedMicros - m.lastElapsed;
    var instantRate := GetRate(instantCount, instantElapsed);
    var report := StatusReport(count, elapsedMicros, averageRate, instantCount, instantElapsed,
                               ToSeconds(instantElapsed), instantRate, ErrorCounts(m.errors));
    (report, m.(lastCount := count, lastElapsed := elapsedMicros))
  }

  /** When no catch arm runs (the call returned, or what it threw is not an
      `Exception`), the label keeps its initial value `SUCCESS`. */
  lemma UncaughtKeepsSuccessLabel(o: Outcome)
    ensures o.Returned? || o.RaisedThrowable? ==> StatusLabel(o) == Success
  {
  }

  /** Each catch arm's label: a precheck failure is timed and tallied under
      its precheck status, a receipt failure under the receipt's status, and
      any other exception under its simple class name. */
  lemma CatchArmSeries(m: Metrics, req: PublishRequest, f: Failure, start: int, now: int)
    ensures var status := (match f
              case PrecheckStatusException(precheck) => precheck
              case ReceiptStatusException(receipt) => receipt.status
              case OtherException(name) => name);
            var r := Record(m, req, Raised(f), start, now).1;
            && r.submitTimers[Tags(req.scenarioName, status, req.txType)]
               == Recordings(m.submitTimers, Tags(req.scenarioName, status, req.txType)) + [now - start]
            && Tags(req.scenarioName, status, req.txType) in r.durationGauges
            && (status != Success ==> r.errors == m.errors + multiset{status})
  {
  }

  /** A failing call tallies its own label once and no other label. */
  lemma FailureTalliesItsLabel(m: Metrics, req: PublishRequest, o: Outcome, start: int, now: int, other: string)
    requires o.Raised? && StatusLabel(o) != Success
    ensures Record(m, req, o, start, now).1.errors[StatusLabel(o)] == m.errors[StatusLabel(o)] + 1
    ensures other != StatusLabel(o) ==> Record(m, req, o, start, now).1.errors[other] == m.errors[other]
    ensures Record(m, req, o, start, now).1.counter == m.counter
  {
  }

  /** A call that did not return records no handle time. */
  lemma FailureRecordsNoHandleTime(m: Metrics, req: PublishRequest, o: Outcome, start: int, now: int)
    requires !o.Returned?
    ensures Record(m, req, o, start, now).1.handleTimers == m.handleTimers
  {
  }

  /** A second call on the same series leaves the duration gauges as the
      first call left them. */
  lemma GaugeIdempotent(m: Metrics, req: PublishRequest, o1: Outcome, o2: Outcome, s1: int, n1: int, s2: int, n2: int)
    requires CallTags(req, o1) == CallTags(req, o2)
    ensures var m1 := Record(m, req, o1, s1, n1).1;
            Record(m1, req, o2, s2, n2).1.durationGauges == m1.durationGauges
  {
  }

  /** Two series that differ only in status register the same gauge identity. */
  lemma GaugeIgnoresStatus(t: Tags, u: Tags)
    requires t.scenarioName == u.scenarioName && t.txType == u.txType
    ensures NewDurationMetric(t) == NewDurationMetric(u)
  {
  }

  /** A throwable that is not an `Exception` escapes every catch arm: it is
      passed on unwrapped, the counter and the error tally do not move, and
      the call is timed under the `SUCCESS` series. */
  lemma ThrowableTimedAsSuccess(m: Metrics, req: PublishRequest, name: string, start: int, now: int)
    ensures var r := Record(m, req, RaisedThrowable(name), start, now);
            && r.0 == Propagate(name)
            && r.1.counter == m.counter && r.1.errors == m.errors
            && r.1.submitTimers[Tags(req.scenarioName, Success, req.txType)]
               == Recordings(m.submitTimers, Tags(req.scenarioName, Success, req.txType)) + [now - start]
  {
  }

  /** A returned call with a 50 ms old timestamp and no receipt, on a fresh
      state: one success, a 50 ms submit recording, no handle recording. */
  lemma SubmitScenario(start: int, now: int)
    ensures var req := PublishRequest("CONSENSUS_SUBMIT_MESSAGE", "CONSENSUS_SUBMIT_MESSAGE");
            var resp := PublishResponse(start + 50, None);
            var r := Record(Initial, req, Returned(Some(resp)), start, now);
            && r.0 == Return(Some(resp))
            && r.1.counter == 1
            && r.1.submitTimers == map[Tags("CONSENSUS_SUBMIT_MESSAGE", Success, "CONSENSUS_SUBMIT_MESSAGE") := [50]]
            && r.1.handleTimers == map[]
            && r.1.errors == multiset{}
  {
    var req := PublishRequest("CONSENSUS_SUBMIT_MESSAGE", "CONSENSUS_SUBMIT_MESSAGE");
    var r := Record(Initial, req, Returned(Some(PublishResponse(start + 50, None))), start, now);
    var t := Tags("CONSENSUS_SUBMIT_MESSAGE", Success, "CONSENSUS_SUBMIT_MESSAGE");
    assert r.1.submitTimers.Keys == {t};
    assert r.1.submitTimers[t] == [50];
  }

  /** The same request rejected at precheck with `BUSY`: the caller gets the
      precheck exception wrapped, the tally is `{BUSY: 1}` and the counter stays 0. */
  lemma BusyScenario(start: int, now: int)
    ensures var req := PublishRequest("CONSENSUS_SUBMIT_MESSAGE", "CONSENSUS_SUBMIT_MESSAGE");
            var r := Record(Initial, req, Raised(PrecheckStatusException("BUSY")), start, now);
            && r.0 == PublishException(PrecheckStatusException("BUSY"))
            && r.1.counter == 0
            && r.1.errors == multiset{"BUSY"}
            && ErrorCounts(r.1.errors) == map["BUSY" := 1]
  {
    var errors := multiset{"BUSY"};
    assert forall s :: s in ErrorCounts(errors) <==> s == "BUSY";
  }

  /** A tick at 2 s with 100 successes, after a tick at 1 s with 40. */
  lemma TickScenario(m: Metrics)
    requires m.counter == 100 && m.lastCount == 40 && m.lastElapsed == 1000000
    ensures var r := Status(m, 2000000).0;
            && r.averageRate == 50.0
            && r.instantCount == 60
            && r.instantElapsed == 1000000
            && r.instantRate == 60.0
            && r.instantSeconds == 1.0
  {
  }
}
