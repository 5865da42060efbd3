/**
 * The control flow of the worker thread `wait_event_demo_thread`, as a pure
 * function of what its waits return.
 *
 * Each pass through the loop head (after `kthread_should_stop()` said no)
 * resets the condition, counts a wait cycle and waits once; the wait's
 * outcome decides between leaving the loop, going straight back to the loop
 * head (`continue`), or doing the work step and then looping. A schedule is
 * the sequence of outcomes of successive waits. The stop check at the loop
 * guard answers "stop" exactly when the schedule is exhausted: a stop seen at
 * the guard before pass k behaves as the schedule cut off after k - 1 outcomes.
 */
module Worker {
  import opened KernelTypes
  import opened Control

  /** What one `wait_event_interruptible` call returned, abstractly. */
  datatype WaitOutcome =
    | Woken(seen: int32, stopRequested: bool)  // returned 0: `condition` as it then stood, and `kthread_should_stop()` right after
    | InterruptedFatal                         // -ERESTARTSYS with a fatal signal pending
    | InterruptedNonFatal                      // -ERESTARTSYS, no fatal signal pending

  /**
   * `wait_event_interruptible` returns 0 only once its condition holds: a
   * handler has made `condition` nonzero, or the thread was asked to stop.
   */
  predicate CanHappen(o: WaitOutcome)
  {
    o.Woken? ==> o.seen != 0 || o.stopRequested
  }

  /** The outcomes after which the loop goes round again. */
  predicate Continues(o: WaitOutcome)
  {
    o.InterruptedNonFatal? || (o.Woken? && !o.stopRequested)
  }

  /** Why the loop ended; the thread returns 0 in every case. */
  datatype ExitReason = StopAtGuard | FatalSignal | StopAfterWait

  /** The reason the loop ends right after an outcome that does not continue. */
  function ExitOf(o: WaitOutcome): ExitReason
    requires !Continues(o)
  {
    if o.InterruptedFatal? then FatalSignal else StopAfterWait
  }

  /**
   * A run of the loop: how many times it passed the loop head and waited
   * (`wait_cycle`, and the number of `wait_count` increments), how many normal
   * wake-ups reached the work step, and why it ended.
   */
  datatype Trace = Trace(passes: nat, handled: nat, reason: ExitReason)

  /** The run of the loop over a schedule of wait outcomes. */
  function Run(schedule: seq<WaitOutcome>): (t: Trace)
    ensures t.handled <= t.passes <= |schedule|
    ensures t.reason == StopAtGuard ==> t.passes == |schedule|
    ensures t.reason != StopAtGuard ==> t.handled < t.passes
    decreases |schedule|
  {
    if schedule == [] then Trace(0, 0, StopAtGuard)
    else match schedule[0]
      case InterruptedFatal => Trace(1, 0, FatalSignal)
      case InterruptedNonFatal =>
        var t := Run(schedule[1..]);
        t.(passes := t.passes + 1)
      case Woken(_, stop) =>
        if stop then Trace(1, 0, StopAfterWait)
        else
          var t := Run(schedule[1..]);
          t.(passes := t.passes + 1, handled := t.handled + 1)
  }

  /** Number of normal wake-ups without a stop request in `s`. */
  function CountHandled(s: seq<WaitOutcome>): nat
  {
    if s == [] then 0
    else (if Continues(s[0]) && s[0].Woken? then 1 else 0) + CountHandled(s[1..])
  }

  /**
   * The value the worker leaves in `condition` after a pass with outcome `o`:
   * what a normal wake saw, 0 (from the reset at the loop head) after an interrupt.
   */
  function ConditionAfter(o: WaitOutcome): int32
  {
    if o.Woken? then o.seen else 0
  }

  /**
   * The record after the worker has run over `schedule`: one wait counted per
   * pass, and `condition` as the last pass left it; nothing else changes.
   */
  function AfterRun(r: Record, schedule: seq<WaitOutcome>): Record
  {
    var t := Run(schedule);
    if t.passes == 0 then r
    else r.(condition := ConditionAfter(schedule[t.passes - 1]),
            waitCount := Wrap(r.waitCount, t.passes))
  }

  /**
   * The loop leaves at the first outcome that does not continue, for the
   * reason that outcome gives, after exactly that many waits.
   */
  lemma {:induction false} RunStopsAtFirstExit(schedule: seq<WaitOutcome>, j: nat)
    requires j < |schedule| && !Continues(schedule[j])
    requires forall k :: 0 <= k < j ==> Continues(schedule[k])
    ensures Run(schedule).passes == j + 1
    ensures Run(schedule).reason == ExitOf(schedule[j])
  {
    if j > 0 {
      assert Continues(schedule[0]);
      RunStopsAtFirstExit(schedule[1..], j - 1);
    }
  }

  /**
   * When every wait continues, the loop waits once per outcome and leaves
   * only at the guard; conversely, leaving at the guard means every wait
   * continued.
   */
  lemma {:induction false} RunStopsAtGuardIff(schedule: seq<WaitOutcome>)
    ensures Run(schedule).reason == StopAtGuard
        <==> forall k :: 0 <= k < |schedule| ==> Continues(schedule[k])
  {
    if schedule != [] {
      RunStopsAtGuardIff(schedule[1..]);
      if Continues(schedule[0]) {
        forall k | 0 < k < |schedule| && Continues(schedule[1..][k - 1])
          ensures Continues(schedule[k])
        {
        }
      }
    }
  }

  /**
   * The work step runs once for every normal wake-up the loop consumed, and
   * for nothing else.
   */
  lemma {:induction false} RunHandledCountsWakeups(schedule: seq<WaitOutcome>)
    ensures Run(schedule).handled == CountHandled(schedule[..Run(schedule).passes])
  {
    if schedule != [] {
      var t := Run(schedule);
      var prefix := schedule[..t.passes];
      assert prefix[0] == schedule[0];
      if Continues(schedule[0]) {
        RunHandledCountsWakeups(schedule[1..]);
        assert prefix[1..] == schedule[1..][..Run(schedule[1..]).passes];
      } else {
        assert prefix[1..] == [];
      }
    }
  }

  /**
   * Once the loop has left by a fatal signal or a stop seen after a wait,
   * nothing scheduled afterwards is ever waited for: the thread does not
   * re-enter the loop.
   */
  lemma {:induction false} RunIgnoresLaterOutcomes(schedule: seq<WaitOutcome>, later: seq<WaitOutcome>)
    requires Run(schedule).reason != StopAtGuard
    ensures Run(schedule + later) == Run(schedule)
  {
    assert schedule != [];
    assert (schedule + later)[0] == schedule[0];
    if Continues(schedule[0]) {
      assert (schedule + later)[1..] == schedule[1..] + later;
      RunIgnoresLaterOutcomes(schedule[1..], later);
    }
  }

  /**
   * A non-fatal interrupt sends the loop back to its head: the next outcome
   * starts a new pass, which resets the condition and counts one more wait.
   */
  lemma NonFatalInterruptRepeatsPass(rest: seq<WaitOutcome>)
    ensures Run([InterruptedNonFatal] + rest).passes == Run(rest).passes + 1
    ensures Run([InterruptedNonFatal] + rest).handled == Run(rest).handled
    ensures Run([InterruptedNonFatal] + rest).reason == Run(rest).reason
  {
  }

  /**
   * On the record, a pass ending in a non-fatal interrupt is exactly the
   * loop head's reset of `condition` and one more `wait_count`, after which
   * the worker carries on as from the loop head.
   */
  lemma NonFatalInterruptRestartsPass(r: Record, rest: seq<WaitOutcome>)
    ensures AfterRun(r, [InterruptedNonFatal] + rest)
         == AfterRun(r.(condition := 0, waitCount := Incremented(r.waitCount)), rest)
  {
    var s := [InterruptedNonFatal] + rest;
    assert s[1..] == rest;
    var n := Run(rest).passes;
    if n > 0 {
      assert s[n] == rest[n - 1];
    }
    WrapComposes(r.waitCount, 1, n);
  }
}
