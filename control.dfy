/**
 * The fields of `struct wait_event_demo_device` that the handlers and the
 * worker read and write, as a value, and the effect of the two sysfs write
 * handlers (`condition_store`, `trigger_wakeup_store`) on it.
 */
module Control {
  import opened KernelTypes

  /** The device record: `condition`, the two counters, `thread_running`, and whether `thread` is set. */
  datatype Record = Record(
    condition: int32,
    wakeupCount: ulong,
    waitCount: ulong,
    threadRunning: bool,
    threadSet: bool)

  /** What `thread_status` reports. */
  datatype ThreadStatus = Running | Starting | Stopped

  /** A write to one of the two writable attributes, after parsing. */
  datatype Request =
    | StoreCondition(input: Parsed)  // write to `condition`
    | TriggerWakeup(input: Parsed)   // write to `trigger_wakeup`

  /** Whether the request counts a wakeup and wakes the waiters. */
  predicate Signals(req: Request)
  {
    match req
    case StoreCondition(input) => input == Value(1)
    case TriggerWakeup(input) => input.Value? && input.value != 0
  }

  /** The record after one write handler has run on it. */
  function Apply(r: Record, req: Request): Record
  {
    match req
    case StoreCondition(Failed(_)) => r
    case StoreCondition(Value(v)) =>
      r.(condition := v,
         wakeupCount := if v == 1 then Incremented(r.wakeupCount) else r.wakeupCount)
    case TriggerWakeup(Failed(_)) => r
    case TriggerWakeup(Value(v)) =>
      if v != 0 then r.(condition := 1, wakeupCount := Incremented(r.wakeupCount)) else r
  }

  /** The record after a sequence of write handlers, in order. */
  function ApplyAll(r: Record, reqs: seq<Request>): Record
    decreases |reqs|
  {
    if reqs == [] then r else ApplyAll(Apply(r, reqs[0]), reqs[1..])
  }

  /** How many requests of the sequence count a wakeup. */
  function SignalCount(reqs: seq<Request>): nat
  {
    if reqs == [] then 0 else (if Signals(reqs[0]) then 1 else 0) + SignalCount(reqs[1..])
  }

  /**
   * Writing a parsed v to `condition` stores exactly v, whatever v is, and
   * counts a wakeup if and only if v is 1; nothing else changes.
   */
  lemma StoreConditionEffect(r: Record, v: int32)
    ensures Apply(r, StoreCondition(Value(v))).condition == v
    ensures Apply(r, StoreCondition(Value(v))).wakeupCount != r.wakeupCount <==> v == 1
    ensures v == 1 ==> Apply(r, StoreCondition(Value(v))).wakeupCount == Incremented(r.wakeupCount)
    ensures Apply(r, StoreCondition(Value(v))).(condition := r.condition, wakeupCount := r.wakeupCount) == r
  {
  }

  /**
   * Every nonzero write to `trigger_wakeup` has the same effect as writing 1
   * to `condition`; writing 0 changes nothing.
   */
  lemma TriggerWakeupNormalises(r: Record, v: int32)
    ensures v != 0 ==> Apply(r, TriggerWakeup(Value(v))) == Apply(r, StoreCondition(Value(1)))
    ensures v == 0 ==> Apply(r, TriggerWakeup(Value(v))) == r
  {
  }

  /** A write whose text does not parse leaves the record as it was. */
  lemma FailedParseChangesNothing(r: Record, req: Request)
    requires req.input.Failed?
    ensures Apply(r, req) == r
  {
  }

  /**
   * Over any sequence of writes, `wakeup_count` advances by one for every
   * signalling write (modulo 2^64) and `wait_count` and the thread fields do
   * not change.
   */
  lemma {:induction false} ApplyAllCountsSignals(r: Record, reqs: seq<Request>)
    ensures ApplyAll(r, reqs).wakeupCount == Wrap(r.wakeupCount, SignalCount(reqs))
    ensures ApplyAll(r, reqs).waitCount == r.waitCount
    ensures ApplyAll(r, reqs).threadRunning == r.threadRunning
    ensures ApplyAll(r, reqs).threadSet == r.threadSet
    decreases |reqs|
  {
    if reqs != [] {
      var next := Apply(r, reqs[0]);
      var first := if Signals(reqs[0]) then 1 else 0;
      assert next.wakeupCount == Wrap(r.wakeupCount, first);
      ApplyAllCountsSignals(next, reqs[1..]);
      WrapComposes(r.wakeupCount, first, SignalCount(reqs[1..]));
    }
  }

  /** Until it reaches 2^64 - 1, `wakeup_count` grows by exactly the number of signalling writes. */
  lemma ApplyAllNeverLosesWakeups(r: Record, reqs: seq<Request>)
    requires r.wakeupCount as int + SignalCount(reqs) < ULONG_MODULUS
    ensures ApplyAll(r, reqs).wakeupCount as int == r.wakeupCount as int + SignalCount(reqs)
  {
    ApplyAllCountsSignals(r, reqs);
    WrapBelowLimit(r.wakeupCount, SignalCount(reqs));
  }
}
