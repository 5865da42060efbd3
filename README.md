# wait_event_interruptible demo driver, modelled in Dafny

This project models the device state machine of the `wait_event_demo`
kernel module (`test_wait_event/wait_event_demo.c`). The module keeps one
record, `struct wait_event_demo_device`, with these fields: the wait
`condition`, the `wakeup_count` and `wait_count` counters, `thread_running`,
and the `thread` pointer. Three groups of code act on that record:

- the sysfs handlers `condition_show`, `condition_store`,
  `thread_status_show`, `stats_show` and `trigger_wakeup_store`;
- the worker thread `wait_event_demo_thread`, which resets the condition,
  counts a wait, and sleeps in `wait_event_interruptible` on every pass;
- module init, which zeroes the record, and module exit, which runs the stop sequence.

Files:

- `kernel_types.dfy` (module `KernelTypes`): C `int` (`int32`) and 64-bit
  `unsigned long` (`ulong`), with the counter increment wrapping past
  2^64 - 1 written out (`Incremented`, `Wrap`). Also the outcome of
  `kstrtoint`: a value, or `-EINVAL` / `-ERANGE`.
- `worker.dfy` (module `Worker`): the worker loop as a pure function `Run`
  of a schedule, meaning the sequence of outcomes of its successive waits.
  Lemmas state when and why it leaves, and what it counts.
- `control.dfy` (module `Control`): the record as a value and the effect of
  the two write handlers on it (`Apply`, `ApplyAll`). Lemmas cover the
  exact-1 rule, the normalisation of nonzero triggers, parse failures and
  the counting of wakeups over any sequence of writes.
- `device.dfy` (module `WaitEventDemo`): class `Device` with the record's
  fields and one method per handler. It also holds the worker loop
  (`Thread`, a `while` loop proved against `Run`), init (`Init`) and the
  exit stop sequence (`Exit`). `Session` is a client run of the control
  surface that checks the contracts against each other.

How waits are represented: `kthread_should_stop()` at the loop guard answers
"stop" exactly when the schedule is used up. A stop observed at the guard
before pass k therefore behaves like the schedule cut off after k - 1
outcomes. In `Woken(seen, stopRequested)`, `stopRequested` is the second
`kthread_should_stop()` read, the one made right after a wait that returned
0, and `seen` is the value of `condition` when that wait returned. `CanHappen`
states the kernel's guarantee that such a wait returns only when `seen` is
nonzero or a stop was requested, and `Thread` requires it of every
outcome. After a normal wake the worker leaves `seen` in `condition`; after
an interrupt it leaves the 0 written at the loop head.

## Model

| member | source | states |
|---|---|---|
| `KernelTypes.Incremented` | test_wait_event/wait_event_demo.c:83 | `x++` on an `unsigned long` always changes the counter and adds one modulo 2^64 |
| `KernelTypes.WrapIsModularSum` | test_wait_event/wait_event_demo.c:41-42 | n increments of a counter add n modulo 2^64 |
| `KernelTypes.WrapComposes` | test_wait_event/wait_event_demo.c:41-42 | a increments followed by b increments are a + b increments |
| `KernelTypes.WrapBelowLimit` | test_wait_event/wait_event_demo.c:41-42 | until it wraps, a counter never decreases and grows by exactly the number of increments |
| `Worker.Run` | test_wait_event/wait_event_demo.c:192-234 | a run waits at most once per scheduled outcome; leaving at the guard means every outcome was consumed; a run that leaves after a wait has reached the work step fewer times than it waited |
| `Worker.RunStopsAtFirstExit` | test_wait_event/wait_event_demo.c:209-227 | the loop leaves right after the first fatal interrupt or stop-after-wake, for that reason, after exactly that many waits |
| `Worker.RunStopsAtGuardIff` | test_wait_event/wait_event_demo.c:192-234 | the loop leaves at its guard if and only if every wait either was a non-fatal interrupt or woke normally without a stop request |
| `Worker.RunHandledCountsWakeups` | test_wait_event/wait_event_demo.c:229-233 | the work step runs exactly once per consumed normal wake-up with no stop request |
| `Worker.RunIgnoresLaterOutcomes` | test_wait_event/wait_event_demo.c:215-227 | once the loop has left by a fatal signal or a stop after a wait, nothing scheduled later is waited for |
| `Worker.NonFatalInterruptRepeatsPass` | test_wait_event/wait_event_demo.c:220-221 | after a non-fatal interrupt, `continue` returns to the loop head: one more pass, with the same work count and the same exit |
| `Worker.NonFatalInterruptRestartsPass` | test_wait_event/wait_event_demo.c:192-221 | on the record, a pass ending in a non-fatal interrupt is exactly the loop head's reset of `condition` to 0 and one more `wait_count`; the worker then carries on as from the loop head |
| `Control.StoreConditionEffect` | test_wait_event/wait_event_demo.c:77-89 | a parsed write to `condition` stores exactly v, counts a wakeup if and only if v == 1, and changes nothing else |
| `Control.TriggerWakeupNormalises` | test_wait_event/wait_event_demo.c:130-142 | any nonzero trigger has the same effect as writing 1 to `condition`; a zero trigger changes nothing |
| `Control.FailedParseChangesNothing` | test_wait_event/wait_event_demo.c:71-75 | a write whose text does not parse leaves the record unchanged |
| `Control.ApplyAllCountsSignals` | test_wait_event/wait_event_demo.c:64-143 | over any sequence of writes, `wakeup_count` advances once per signalling write (modulo 2^64); `wait_count` and the thread fields never change |
| `Control.ApplyAllNeverLosesWakeups` | test_wait_event/wait_event_demo.c:82-83 | below the wrap-around point, `wakeup_count` grows by exactly the number of signalling writes |
| `WaitEventDemo.Device.Init` | test_wait_event/wait_event_demo.c:257-289 | init zeroes `condition` and both counters, always leaves `thread` set, and sets `thread_running` only if the thread was created; the record is valid |
| `WaitEventDemo.Device.ConditionShow` | test_wait_event/wait_event_demo.c:50-61 | reports the current condition and changes nothing |
| `WaitEventDemo.Device.ConditionStore` | test_wait_event/wait_event_demo.c:64-90 | a parse error is returned and nothing changes; otherwise `condition` becomes v, `wakeup_count` goes up by one only for v == 1, `wait_count` and the thread fields are kept, and `count` is returned |
| `WaitEventDemo.Device.ThreadStatusShow` | test_wait_event/wait_event_demo.c:92-105 | "running" if and only if running and set, "starting" if and only if running and unset, "stopped" if and only if not running; a valid record never reports "starting" |
| `WaitEventDemo.Device.StatsShow` | test_wait_event/wait_event_demo.c:107-114 | reports both counters and changes nothing |
| `WaitEventDemo.Device.TriggerWakeupStore` | test_wait_event/wait_event_demo.c:116-143 | a parse error is returned and nothing changes; any nonzero v sets `condition` to 1 and adds exactly one wakeup; 0 changes nothing; `wait_count` is kept; `count` is returned on any successful parse |
| `WaitEventDemo.Device.Thread` | test_wait_event/wait_event_demo.c:181-238 | returns 0, ending for `Run`'s reason (guard, fatal signal or stop after a wait) after `Run`'s number of work steps; `wait_count` goes up by one per pass of the loop head, including the passes after non-fatal interrupts; `condition` is what the last wait saw after a normal wake (nonzero when the work step follows), or 0 after an interrupt; nothing else changes |
| `WaitEventDemo.Device.Exit` | test_wait_event/wait_event_demo.c:324-336 | acts only when `thread` is set and `thread_running` is true, then clears `thread_running` and forces `condition` to 1 without counting a wakeup; a valid record then reports "stopped", and a second call does nothing |

## Left out

- Locking and the wait queue: `mutex_lock`/`mutex_unlock`, `wake_up_interruptible`
  and the blocking inside `wait_event_interruptible`. Each handler runs to
  completion on the record, and each wait is represented by its outcome. The
  races of the source are not modelled. These include `wakeup_count++`
  outside the lock (lines 83, 136), the unlocked reads at lines 98, 112 and
  205, and a wakeup written during the work step, which the reset at the
  next loop head erases.
- Parsing and formatting: `kstrtoint` is given as its outcome (a value, or
  `-EINVAL`/`-ERANGE`), and `sprintf` output is given as the values the
  handlers report.
- Kernel registration and teardown: kobject and sysfs attribute tables,
  class and device creation, `kzalloc`/`kfree`, `kthread_create`/`wake_up_process`,
  and the error unwinding in init (lines 248-252, 270-316, 346-358). `Init`
  takes whether the thread was created as a parameter. On failure the
  source frees the record, which the model does not follow.
- `WaitEventDemo.Device.Exit`: the two `kthread_stop` calls (lines 330, 340)
  are not modelled. Their meaning depends on kernel task lifetime. The stop
  request they make reaches the worker as the end of its schedule or as
  `Woken(true)`.
- `WaitEventDemo.Device.Thread`: handler writes made while the worker
  waits are seen only through the `seen` value of a normal wake. The
  `wakeup_count` increments of those writes are not part of the worker's
  run, and a write during a wait that ends in an interrupt is not modelled.
  After such a wait `condition` is given as 0.
- Counter width: `unsigned long` is taken as 64 bits, as on a 64-bit
  kernel. On a 32-bit kernel `wakeup_count` and `wait_count` wrap at 2^32,
  and the model does not cover that.
- `msleep_interruptible(100)` (line 233) is timing only; the work step leaves the record alone.
- `WaitEventDemo.Device.Thread`: the local `wait_cycle` is a C `int`. Its
  signed overflow after 2^31 - 1 passes is undefined behaviour, and the
  model keeps it unbounded. Its value equals the number of passes, and it
  is not returned.
- Logging (`DRV_LOG_*`, `test_qemu_edu/drv_log.h`) and
  `test_trigger_all_cpu_backtrace/test_trigger_all_cpu_bt.c` are not part of
  this model. They are logging and debugfs plumbing around foreign calls.
