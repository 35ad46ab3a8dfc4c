/** Properties of `PublishMetrics` over any sequence of publish calls and
    reporter ticks, run one after another: the maps only grow, a series is
    reused rather than recreated, and every counter equals the number of
    calls that fed it. */
module PublishHistory {
  import opened PublishMetrics

  /** One step of a session: a completed publish call or a reporter tick. */
  datatype Event =
    | Publish(req: PublishRequest, outcome: Outcome, start: int, now: int)
    | Tick(elapsedMicros: int)

  /** The state after one event. */
  function Step(m: Metrics, e: Event): Metrics
  {
    match e
    case Publish(req, o, start, now) => Record(m, req, o, start, now).1
    case Tick(elapsed) => Status(m, elapsed).1
  }

  /** The state after the events, in order. */
  function Run(m: Metrics, es: seq<Event>): Metrics
    decreases |es|
  {
    if |es| == 0 then m else Step(Run(m, es[..|es| - 1]), es[|es| - 1])
  }

  /** Number of publish calls in `es` recorded under `t`. */
  function CallsWith(es: seq<Event>, t: Tags): nat
    decreases |es|
  {
    if |es| == 0 then 0
    else
      var e := es[|es| - 1];
      CallsWith(es[..|es| - 1], t) + (if e.Publish? && CallTags(e.req, e.outcome) == t then 1 else 0)
  }

  /** Number of publish calls in `es` recorded under `t` that got a receipt. */
  function ReceiptCallsWith(es: seq<Event>, t: Tags): nat
    decreases |es|
  {
    if |es| == 0 then 0
    else
      var e := es[|es| - 1];
      ReceiptCallsWith(es[..|es| - 1], t)
      + (if e.Publish? && HasReceipt(e.outcome) && CallTags(e.req, e.outcome) == t then 1 else 0)
  }

  /** Number of publish calls in `es` that returned. */
  function Returns(es: seq<Event>): nat
    decreases |es|
  {
    if |es| == 0 then 0
    else
      var e := es[|es| - 1];
      Returns(es[..|es| - 1]) + (if e.Publish? && e.outcome.Returned? then 1 else 0)
  }

  /** Number of publish calls in `es` whose status label is `s`. */
  function CallsLabelled(es: seq<Event>, s: string): nat
    decreases |es|
  {
    if |es| == 0 then 0
    else
      var e := es[|es| - 1];
      CallsLabelled(es[..|es| - 1], s) + (if e.Publish? && StatusLabel(e.outcome) == s then 1 else 0)
  }

  /** The sum of the instant counts the ticks in `es` report, run from `m`. */
  function TickTotal(m: Metrics, es: seq<Event>): int
    decreases |es|
  {
    if |es| == 0 then 0
    else
      var before := Run(m, es[..|es| - 1]);
      TickTotal(m, es[..|es| - 1])
      + (if es[|es| - 1].Tick? then Status(before, es[|es| - 1].elapsedMicros).0.instantCount else 0)
  }

  /** One event adds one submit recording to its own series and none elsewhere. */
  lemma StepSubmitCount(m: Metrics, e: Event, t: Tags)
    ensures Recordings(m.submitTimers, t) <= Recordings(Step(m, e).submitTimers, t)
    ensures |Recordings(Step(m, e).submitTimers, t)|
            == |Recordings(m.submitTimers, t)| + (if e.Publish? && CallTags(e.req, e.outcome) == t then 1 else 0)
  {
  }

  /** The submit timer of a series keeps its earlier recordings and gains
      exactly one per call recorded under it: `computeIfAbsent` never
      replaces a timer. */
  lemma {:induction false} RunSubmitCount(m: Metrics, es: seq<Event>, t: Tags)
    ensures Recordings(m.submitTimers, t) <= Recordings(Run(m, es).submitTimers, t)
    ensures |Recordings(Run(m, es).submitTimers, t)| == |Recordings(m.submitTimers, t)| + CallsWith(es, t)
  {
    if |es| > 0 {
      RunSubmitCount(m, es[..|es| - 1], t);
      StepSubmitCount(Run(m, es[..|es| - 1]), es[|es| - 1], t);
    }
  }

  /** One event adds a handle recording only for a call that got a receipt. */
  lemma StepHandleCount(m: Metrics, e: Event, t: Tags)
    ensures Recordings(m.handleTimers, t) <= Recordings(Step(m, e).handleTimers, t)
    ensures |Recordings(Step(m, e).handleTimers, t)|
            == |Recordings(m.handleTimers, t)|
               + (if e.Publish? && HasReceipt(e.outcome) && CallTags(e.req, e.outcome) == t then 1 else 0)
  {
  }

  /** The handle timer of a series keeps its earlier recordings and gains
      exactly one per call recorded under it that came back with a receipt. */
  lemma {:induction false} RunHandleCount(m: Metrics, es: seq<Event>, t: Tags)
    ensures Recordings(m.handleTimers, t) <= Recordings(Run(m, es).handleTimers, t)
    ensures |Recordings(Run(m, es).handleTimers, t)| == |Recordings(m.handleTimers, t)| + ReceiptCallsWith(es, t)
  {
    if |es| > 0 {
      RunHandleCount(m, es[..|es| - 1], t);
      StepHandleCount(Run(m, es[..|es| - 1]), es[|es| - 1], t);
    }
  }

  /** The success counter counts the calls that returned. */
  lemma {:induction false} RunCounter(m: Metrics, es: seq<Event>)
    ensures Run(m, es).counter == m.counter + Returns(es)
  {
    if |es| > 0 {
      RunCounter(m, es[..|es| - 1]);
    }
  }

  /** The error tally of a label other than `SUCCESS` counts the calls
      carrying that label; `SUCCESS` itself is never tallied. */
  lemma {:induction false} RunErrors(m: Metrics, es: seq<Event>, s: string)
    ensures s != Success ==> Run(m, es).errors[s] == m.errors[s] + CallsLabelled(es, s)
    ensures s == Success ==> Run(m, es).errors[s] == m.errors[s]
  {
    if |es| > 0 {
      RunErrors(m, es[..|es| - 1], s);
    }
  }

  /** The three maps only grow, and an existing gauge is never replaced. */
  lemma {:induction false} RunMapsGrow(m: Metrics, es: seq<Event>)
    ensures m.submitTimers.Keys <= Run(m, es).submitTimers.Keys
    ensures m.handleTimers.Keys <= Run(m, es).handleTimers.Keys
    ensures m.durationGauges.Keys <= Run(m, es).durationGauges.Keys
    ensures forall t :: t in m.durationGauges ==> Run(m, es).durationGauges[t] == m.durationGauges[t]
  {
    if |es| > 0 {
      RunMapsGrow(m, es[..|es| - 1]);
    }
  }

  /** Every completed call has a duration gauge for its series afterwards,
      registered under the call's scenario and type. */
  lemma {:induction false} RunGaugesPresent(m: Metrics, es: seq<Event>, i: int)
    requires 0 <= i < |es| && es[i].Publish?
    ensures CallTags(es[i].req, es[i].outcome) in Run(m, es).durationGauges
  {
    var prefix := es[..i + 1];
    assert prefix[..|prefix| - 1] == es[..i];
    var t := CallTags(es[i].req, es[i].outcome);
    assert t in Run(m, prefix).durationGauges;
    RunMapsGrow(Run(m, prefix), es[i + 1..]);
    RunSplit(m, prefix, es[i + 1..]);
    assert prefix + es[i + 1..] == es;
  }

  /** Running two event sequences one after the other is running their concatenation. */
  lemma {:induction false} RunSplit(m: Metrics, xs: seq<Event>, ys: seq<Event>)
    ensures Run(Run(m, xs), ys) == Run(m, xs + ys)
    decreases |ys|
  {
    if |ys| > 0 {
      RunSplit(m, xs, ys[..|ys| - 1]);
      assert (xs + ys)[..|xs + ys| - 1] == xs + ys[..|ys| - 1];
      assert (xs + ys)[|xs + ys| - 1] == ys[|ys| - 1];
    } else {
      assert xs + ys == xs;
    }
  }

  /** A gauge that exists keeps the identity it registered under: the
      scenario and type of its series, whatever the status. */
  lemma {:induction false} RunGaugeIdentity(m: Metrics, es: seq<Event>, t: Tags)
    requires forall u :: u in m.durationGauges ==> m.durationGauges[u] == Gauge(u.scenarioName, u.txType)
    requires t in Run(m, es).durationGauges
    ensures Run(m, es).durationGauges[t] == Gauge(t.scenarioName, t.txType)
  {
    if |es| > 0 {
      var before := Run(m, es[..|es| - 1]);
      if t in before.durationGauges {
        RunGaugeIdentity(m, es[..|es| - 1], t);
      }
    }
  }

  /** The instant counts of successive ticks add up: after any run the
      reporter's `lastCount` is where it started plus everything reported. */
  lemma {:induction false} RunTickTotal(m: Metrics, es: seq<Event>)
    ensures Run(m, es).lastCount == m.lastCount + TickTotal(m, es)
  {
    if |es| > 0 {
      RunTickTotal(m, es[..|es| - 1]);
    }
  }

  /** From a fresh state, when the last event is a tick, the instant counts
      reported over the whole session sum to the number of returned calls. */
  lemma SessionTicksSumToSuccesses(es: seq<Event>)
    requires |es| > 0 && es[|es| - 1].Tick?
    ensures TickTotal(Initial, es) == Returns(es)
  {
    RunTickTotal(Initial, es);
    RunCounter(Initial, es[..|es| - 1]);
    assert Returns(es) == Returns(es[..|es| - 1]);
  }

  /** A series has a gauge after a run exactly when it had one before or
      some call in the run was recorded under it. */
  lemma {:induction false} RunGaugeKeys(m: Metrics, es: seq<Event>, t: Tags)
    ensures t in Run(m, es).durationGauges <==> t in m.durationGauges || CallsWith(es, t) > 0
  {
    if |es| > 0 {
      RunGaugeKeys(m, es[..|es| - 1], t);
    }
  }

  /** From a fresh state, a series' submit timer counts the calls under it,
      its handle timer the calls under it that got a receipt, and the gauge
      of that series exists exactly when some call used it. */
  lemma FreshSessionCounts(es: seq<Event>, t: Tags)
    ensures |Recordings(Run(Initial, es).submitTimers, t)| == CallsWith(es, t)
    ensures |Recordings(Run(Initial, es).handleTimers, t)| == ReceiptCallsWith(es, t)
    ensures t in Run(Initial, es).durationGauges <==> CallsWith(es, t) > 0
  {
    RunSubmitCount(Initial, es, t);
    RunHandleCount(Initial, es, t);
    RunGaugeKeys(Initial, es, t);
  }
}
