/**
 * The wait_event_interruptible demo driver: one device record shared by the
 * sysfs handlers, the worker thread, and module init and exit. Locking and
 * the wait queue are not modelled; each handler runs to completion on the
 * record, and each wait of the worker is given by its outcome.
 */
module WaitEventDemo {
  import opened KernelTypes
  import opened Control
  import opened Worker

  /** `struct wait_event_demo_device`, without the kobject, wait queue and mutex. */
  class Device {
    var condition: int32
    var wakeupCount: ulong
    var waitCount: ulong
    var threadRunning: bool
    /** Whether the `thread` pointer is non-NULL. */
    var threadSet: bool

    /** `thread_running` is only ever set once `thread` holds the created thread. */
    ghost predicate Valid()
      reads this
    {
      threadRunning ==> threadSet
    }

    /** The record as a value. */
    function Snapshot(): Record
      reads this
    {
      Record(condition, wakeupCount, waitCount, threadRunning, threadSet)
    }

    /**
     * The record as `wait_event_demo_init` leaves it once the thread has been
     * asked for: zeroed condition and counters, `thread` holding what
     * `kthread_create` returned (a task or an error pointer, never NULL), and
     * `thread_running` set only if the thread was created.
     */
    constructor Init(threadCreated: bool)
      ensures condition == 0 && wakeupCount == 0 && waitCount == 0
      ensures threadSet
      ensures threadRunning == threadCreated
      ensures Valid()
    {
      condition := 0;
      threadRunning := false;
      wakeupCount := 0;
      waitCount := 0;
      threadSet := true;
      if threadCreated {
        threadRunning := true;
      }
    }

    /** Reading `condition` reports the current condition and changes nothing. */
    method ConditionShow() returns (cond: int32)
      ensures cond == condition
    {
      cond := condition;
    }

    /**
     * Writing to `condition`: a parse failure is returned as is and changes
     * nothing; otherwise the parsed value is stored, a wakeup is counted only
     * for exactly 1, and the number of bytes written is returned.
     */
    method ConditionStore(input: Parsed, count: nat) returns (ret: int)
      modifies this
      ensures ret == if input.Failed? then input.error.Errno() else count
      ensures Snapshot() == Apply(old(Snapshot()), StoreCondition(input))
      ensures input.Failed? ==> Snapshot() == old(Snapshot())
      ensures input.Value? ==> condition == input.value
      ensures wakeupCount == if input == Value(1) then Incremented(old(wakeupCount)) else old(wakeupCount)
      ensures waitCount == old(waitCount)
      ensures threadRunning == old(threadRunning) && threadSet == old(threadSet)
      ensures old(Valid()) ==> Valid()
    {
      if input.Failed? {
        return input.error.Errno();
      }
      var value := input.value;
      condition := value;
      if value == 1 {
        wakeupCount := Incremented(wakeupCount);
        // wake_up_interruptible: the waiters are not part of the record
      }
      return count;
    }

    /**
     * Reading `thread_status`: "running" when the thread is marked running
     * and set, "starting" when marked running but not yet set, "stopped"
     * otherwise. With the record valid, "starting" is never reported.
     */
    method ThreadStatusShow() returns (status: ThreadStatus)
      ensures status == Running <==> threadRunning && threadSet
      ensures status == Starting <==> threadRunning && !threadSet
      ensures status == Stopped <==> !threadRunning
      ensures Valid() ==> status != Starting
    {
      if threadRunning {
        status := if threadSet then Running else Starting;
      } else {
        status := Stopped;
      }
    }

    /** Reading `stats` reports both counters and changes nothing. */
    method StatsShow() returns (wakeups: ulong, waits: ulong)
      ensures wakeups == wakeupCount && waits == waitCount
    {
      wakeups, waits := wakeupCount, waitCount;
    }

    /**
     * Writing to `trigger_wakeup`: a parse failure is returned as is; any
     * nonzero value sets the condition to 1 and counts one wakeup, whatever
     * its magnitude; 0 changes nothing. A successful parse returns the number
     * of bytes written.
     */
    method TriggerWakeupStore(input: Parsed, count: nat) returns (ret: int)
      modifies this
      ensures ret == if input.Failed? then input.error.Errno() else count
      ensures Snapshot() == Apply(old(Snapshot()), TriggerWakeup(input))
      ensures Signals(TriggerWakeup(input)) ==> condition == 1 && wakeupCount == Incremented(old(wakeupCount))
      ensures !Signals(TriggerWakeup(input)) ==> Snapshot() == old(Snapshot())
      ensures waitCount == old(waitCount)
      ensures threadRunning == old(threadRunning) && threadSet == old(threadSet)
      ensures old(Valid()) ==> Valid()
    {
      if input.Failed? {
        return input.error.Errno();
      }
      var value := input.value;
      if value != 0 {
        condition := 1;
        wakeupCount := Incremented(wakeupCount);
        // wake_up_interruptible: the waiters are not part of the record
      }
      return count;
    }

    /**
     * The worker thread over a schedule of wait outcomes. Every pass through
     * the loop head resets the condition and counts one wait, including the
     * pass that follows a non-fatal interrupt; a normal wake leaves the
     * nonzero value it saw. The thread returns 0 however the loop ends, for
     * the reason and after the passes and work steps that `Run` gives.
     */
    method Thread(schedule: seq<WaitOutcome>) returns (ret: int, ghost reason: ExitReason, ghost handled: nat)
      requires forall k :: 0 <= k < |schedule| ==> CanHappen(schedule[k])
      modifies this
      ensures ret == 0
      ensures reason == Run(schedule).reason && handled == Run(schedule).handled
      ensures Snapshot() == AfterRun(old(Snapshot()), schedule)
      ensures waitCount == Wrap(old(waitCount), Run(schedule).passes)
      ensures condition == if Run(schedule).passes == 0 then old(condition)
                           else ConditionAfter(schedule[Run(schedule).passes - 1])
      ensures (Run(schedule).passes > 0 && Continues(schedule[Run(schedule).passes - 1])
               && schedule[Run(schedule).passes - 1].Woken?) ==> condition != 0
      ensures wakeupCount == old(wakeupCount)
      ensures threadRunning == old(threadRunning) && threadSet == old(threadSet)
    {
      var waitCycle := 0;
      var next := 0;
      handled := 0;
      reason := StopAtGuard;
      while next < |schedule|  // !kthread_should_stop()
        invariant next <= |schedule| && waitCycle == next
        invariant waitCount == Wrap(old(waitCount), next)
        invariant condition == if next == 0 then old(condition) else ConditionAfter(schedule[next - 1])
        invariant wakeupCount == old(wakeupCount)
        invariant threadRunning == old(threadRunning) && threadSet == old(threadSet)
        invariant Run(schedule) == Run(schedule[next..]).(
                    passes := Run(schedule[next..]).passes + next,
                    handled := Run(schedule[next..]).handled + handled)
      {
        waitCycle := waitCycle + 1;
        condition := 0;
        waitCount := Incremented(waitCount);
        var outcome := schedule[next];
        assert schedule[next..][1..] == schedule[next + 1..];
        next := next + 1;
        if outcome.InterruptedFatal? {
          reason := FatalSignal;
          break;
        }
        if outcome.InterruptedNonFatal? {
          continue;
        }
        // the wait returned 0: the condition as a handler left it
        condition := outcome.seen;
        if outcome.stopRequested {
          reason := StopAfterWait;
          break;
        }
        // msleep_interruptible(100): the work step leaves the record alone
        handled := handled + 1;
      }
      return 0, reason, handled;
    }

    /**
     * The stop sequence of `wait_event_demo_exit`: only when the thread is set
     * and marked running, clear `thread_running`, ask the thread to stop and
     * force the condition to 1 (without counting a wakeup). Afterwards a
     * valid record reports "stopped", and a second call does nothing.
     */
    method Exit() returns (stopIssued: bool)
      modifies this
      ensures stopIssued == (old(threadSet) && old(threadRunning))
      ensures threadRunning == (old(threadRunning) && !stopIssued)
      ensures condition == if stopIssued then 1 else old(condition)
      ensures wakeupCount == old(wakeupCount) && waitCount == old(waitCount)
      ensures threadSet == old(threadSet)
      ensures old(Valid()) ==> Valid() && !threadRunning
    {
      stopIssued := threadSet && threadRunning;
      if stopIssued {
        threadRunning := false;
        // kthread_stop: the stop request is the worker's schedule running out
        condition := 1;
        // wake_up_interruptible, then kthread_stop again to wait for the thread
      }
    }
  }

  /**
   * A session at the control surface: load, check the status, write
   * `condition` and `trigger_wakeup`, read the counters, let the worker run
   * two passes, unload twice.
   */
  method Session()
  {
    var dev := new Device.Init(true);
    var status := dev.ThreadStatusShow();
    assert status == Running;

    var ret := dev.ConditionStore(Failed(Invalid), 4);
    assert ret == -22 && dev.wakeupCount == 0;
    ret := dev.ConditionStore(Value(5), 2);
    assert ret == 2 && dev.condition == 5 && dev.wakeupCount == 0;
    ret := dev.TriggerWakeupStore(Value(5), 2);
    assert ret == 2 && dev.condition == 1 && dev.wakeupCount == 1;

    var wakeups, waits := dev.StatsShow();
    assert wakeups == 1 && waits == 0;

    // one normal wake-up, then a stop seen after the second wait
    ghost var reason, handled;
    ret, reason, handled := dev.Thread([Woken(1, false), Woken(1, true)]);
    assert ret == 0 && dev.condition == 1 && dev.waitCount == 2;
    assert reason == StopAfterWait && handled == 1;

    var stopped := dev.Exit();
    assert stopped && dev.condition == 1;
    stopped := dev.Exit();
    assert !stopped;
    status := dev.ThreadStatusShow();
    assert status == Stopped;
  }
}
