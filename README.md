# IPC debugger demos, modelled in Dafny

This project models the core of a small teaching harness for inter-process
communication. It has three demos:

- a pipe whose receiver flags messages that arrive more than
  `DELAY_THRESHOLD = 2.0` seconds after they were stamped;
- a bounded queue whose producer drops an item when its put times out;
- an 8-byte shared-memory cell written and read with and without a lock.

Around the demos are three more parts:

- the command-line launcher that picks the demos;
- the output-line classifiers of two GUIs and the mode→colour map of the
  tabbed application;
- the dining-philosophers deadlock state machine, which appears twice, once
  in a stand-alone window and once in a tab.

Each source file is one Dafny module:

| module | source file | form |
|---|---|---|
| `PipeSimulation` | pipe_simulation.py | class `Pipe`; `Sender`/`Receiver` loops proved against `Stamped`/`Receive` |
| `MessageQueueSim` | message_queue_sim.py | class `BoundedQueue`; `Producer`/`Consumer` loops proved against `Accepted`/`UntilSentinel` |
| `SharedMemorySim` | shared_memory_sim.py | `Pack`/`Unpack` functions; class `Region` over an `array<byte>`; the locked run proved against `Observed` |
| `VisualGuiStep4` | visual_gui_step4.py | the classifier as a function |
| `VisualGui` | visual_gui.py | the classifier as a function |
| `MainApp` | main_app.py | `ModeColour`; class `DeadlockTab` |
| `DeadlockVisualizer` | deadlock_visualizer.py | class `DiningPhilosophersGUI` |
| `Step1Demo` | step1_demo.py | the flag dispatch as a function |

Three modules hold shared material:

- `Philosophers` holds the state maps and the cycle of arrows. Both GUI
  files define these identically.
- `Text` holds Python's `str.lower()` on ASCII and the `in` substring test.
- `Wrappers` holds `Option`.

Time, scheduling and randomness become parameters:

- The pipe demo takes a start time and a receiver clock `clock(k)`, the time
  at which message `k` is taken. The sender's stamps follow from its sleeps.
- The queue demo takes `patience(i)`, the number of gets the consumer
  completes while put number `i` is pending.
- The locked shared-memory demo takes `schedule`, the order in which the
  writer's and the reader's critical sections win the lock.
- The deadlock resolve takes `chosen`, the result of `random.randint(0, 4)`.

Three behaviours of the code are worth stating up front:

- step1_demo.py:8 prints "sender_delay=1.5 => simulates bottleneck", but the
  sender at pipe_simulation.py:11-12 takes its timestamp after it sleeps, so
  the delay never enters the latency
  (`PipeSimulation.SendDelayDoesNotAddLatency`). Had it read the clock
  before the sleep, every latency would grow by the whole delay
  (`PipeSimulation.StampBeforeSleepWouldCountDelay`). For the launcher's own
  pipe run this means no bottleneck at all when transit stays within the
  threshold (`Step1Demo.LauncherPipeRunHasNoBottleneck`).
- The no-lock workers print `[Writer-NoLock] wrote N` and
  `[Reader-NoLock] read N`, which no step-4 red marker matches. The step-4
  classifier colours both lines green, because "nolock" is not "no lock"
  (`VisualGuiStep4.ReaderNoLockLinesAreGreen`,
  `VisualGuiStep4.WriterNoLockLinesAreGreen`). Only the tabbed
  application paints that demo red, and it does so by its mode flag
  (`MainApp.NoLockReaderLineColours`).
- The first GUI's marker "overwritten" does not contain the step-4 marker
  "overwrite": the letters part at "tt". So the two classifiers are not
  nested (`VisualGui.OverwrittenIsNotAnOverwrite`).

## Model

| member | source | states |
|---|---|---|
| PipeSimulation.WakeTime | pipe_simulation.py:10-11 | the time the k-th loop iteration begins, before its sleep: k sleeps after the start |
| PipeSimulation.SendTime | pipe_simulation.py:11-13 | the k-th message is stamped and sent one sleep after its iteration begins |
| PipeSimulation.Classify | pipe_simulation.py:26-31 | latency is receive time minus the stamp; the message is a bottleneck exactly when the latency is strictly above 2.0 |
| PipeSimulation.Stamped | pipe_simulation.py:10-13 | the k-th packet carries the k-th message, stamped after k+1 sleeps of the send delay |
| PipeSimulation.Taken | pipe_simulation.py:20-25 | how many messages the receiver takes: `expect_count`, or fewer when end-of-stream comes first, none when `expect_count <= 0` |
| PipeSimulation.Receive | pipe_simulation.py:20-32 | the receiver's reports: each taken packet classified at the time it is taken |
| PipeSimulation.ReceiveIsOrderedPrefix | pipe_simulation.py:18-32 | the receiver takes at most `expect_count` messages; it stops early only at end-of-stream; it reports the messages in send order |
| PipeSimulation.SendDelayDoesNotAddLatency | pipe_simulation.py:8-31 | when the receiver takes each message `transit` seconds after it is sent, every latency is `transit`, whatever the send delay; the delay alone never causes a bottleneck |
| PipeSimulation.StampedBeforeSleep | pipe_simulation.py:11-12 | the contrasting sender that reads the clock before its sleep: the k-th stamp is the start of the k-th iteration |
| PipeSimulation.StampBeforeSleepWouldCountDelay | pipe_simulation.py:11-12 | under the same receiver, stamping before the sleep would make every latency `transit + sendDelay`, and a delay above 2.0 would make every message a bottleneck; the source's order is what keeps the delay out |
| PipeSimulation.ThresholdIsExclusive | pipe_simulation.py:28 | a latency of exactly 2.0 is a normal receive |
| PipeSimulation.Render | pipe_simulation.py:28-31 | the receiver's printed line: the bottleneck warning or the received line, with the latency text and the message |
| PipeSimulation.Pipe.constructor | pipe_simulation.py:39 | a new pipe is empty with both ends open |
| PipeSimulation.Pipe.Send | pipe_simulation.py:13 | `send` appends the packet to the stream |
| PipeSimulation.Pipe.CloseSend | pipe_simulation.py:15 | closing the send end keeps the buffered packets |
| PipeSimulation.Pipe.Recv | pipe_simulation.py:22-25 | `recv` returns the oldest packet, or end-of-stream once the stream is empty and the send end is closed |
| PipeSimulation.Pipe.CloseRecv | pipe_simulation.py:33 | closing the receive end changes nothing else |
| PipeSimulation.Sender | pipe_simulation.py:8-16 | the sender appends exactly `Stamped(messages)` to the pipe, then closes its end |
| PipeSimulation.Receiver | pipe_simulation.py:18-34 | the receiver's events are exactly `Receive` of the sent packets; the untaken packets stay in the pipe; the receive end is closed at the end |
| PipeSimulation.RunDemo | pipe_simulation.py:36-46 | each message, given or default, is reported once, in order, with latency `clock(k)` minus its stamp; it is a bottleneck exactly when that latency exceeds the threshold |
| MessageQueueSim.Accepted | message_queue_sim.py:7-12 | the items that went in are never more than the producer's events |
| MessageQueueSim.UntilSentinel | message_queue_sim.py:19-25 | the items the consumer logs: everything before the first `None`, in queue order |
| MessageQueueSim.AfterSentinel | message_queue_sim.py:21-23 | what is left in the queue once the consumer has taken the first `None` |
| MessageQueueSim.BoundedQueue.Full | message_queue_sim.py:9 | the queue is full when `maxsize > 0` items wait; a `maxsize <= 0` queue is never full |
| MessageQueueSim.BoundedQueue.constructor | message_queue_sim.py:31 | a new queue is empty and keeps its `maxsize` |
| MessageQueueSim.BoundedQueue.TryPut | message_queue_sim.py:8-12 | a put succeeds exactly when the queue is not full, appends at the back, and a failed put leaves the queue unchanged |
| MessageQueueSim.BoundedQueue.Put | message_queue_sim.py:16 | the sentinel's blocking put appends once there is room |
| MessageQueueSim.BoundedQueue.Get | message_queue_sim.py:20 | `get` removes and returns the oldest item |
| MessageQueueSim.ConsumeOne | message_queue_sim.py:20-25 | one consumer turn logs "got" for a payload and ends on the `None` token |
| MessageQueueSim.Consumer | message_queue_sim.py:18-26 | the consumer logs every item before the first sentinel, once and in queue order, then the termination line, and leaves what follows the sentinel |
| MessageQueueSim.CatchUp | message_queue_sim.py:19-25 | the consumer's gets while a put is pending take the oldest items, at most the budget, in order |
| MessageQueueSim.Offer | message_queue_sim.py:8-13 | one item's turn: an unbounded queue always accepts; with no gets in between, the put succeeds exactly when fewer than `maxsize` items wait |
| MessageQueueSim.Producer | message_queue_sim.py:6-16 | one event per item, in item order; the queue holds exactly the accepted items not yet consumed, then the sentinel; unbounded means nothing is dropped; a stalled consumer means exactly the first `maxsize` items go in |
| MessageQueueSim.AcceptedSnoc | message_queue_sim.py:8-12 | a put event adds its item to the accepted items; a "Queue full!" event adds nothing |
| MessageQueueSim.AcceptedMembers | message_queue_sim.py:8-12 | an item is accepted exactly when some event put it |
| MessageQueueSim.DroppedNeverConsumed | message_queue_sim.py:11-12 | with distinct items, an item whose put timed out is never printed by the consumer |
| MessageQueueSim.UntilSentinelOfDatas | message_queue_sim.py:16-23 | a consumer facing the pending items and then the sentinel takes exactly the pending items |
| MessageQueueSim.RunDemo | message_queue_sim.py:28-38 | each item, given or msg1..msg7, gets exactly one of put and "Queue full!"; the consumer logs exactly the accepted items in put order, then terminates; unbounded drops nothing; a stalled consumer admits exactly the first `maxsize` |
| SharedMemorySim.ToBytes | shared_memory_sim.py:13 | the encoding has exactly the requested number of bytes |
| SharedMemorySim.FromBytes | shared_memory_sim.py:23 | decoding n bytes gives a value below 256^n |
| SharedMemorySim.FromBytesToBytes | shared_memory_sim.py:13 | decoding the n-byte encoding of a value below 256^n returns it |
| SharedMemorySim.ToBytesFromBytes | shared_memory_sim.py:22-23 | re-encoding a decoded byte string gives the same bytes |
| SharedMemorySim.Pack | shared_memory_sim.py:13 | `pack('q', v)` is 8 bytes, `SHM_SIZE` |
| SharedMemorySim.Unpack | shared_memory_sim.py:22-23 | `unpack('q', raw)` on 8 bytes gives a signed 64-bit value |
| SharedMemorySim.UnpackPack | shared_memory_sim.py:13 | `unpack('q', pack('q', v)) == v` for every signed 64-bit `v` |
| SharedMemorySim.PackUnpack | shared_memory_sim.py:22-23 | every 8-byte pattern is the encoding of the value it decodes to |
| SharedMemorySim.PackZero | shared_memory_sim.py:52-53 | the encoding of 0 is eight zero bytes |
| SharedMemorySim.ZeroBytes | shared_memory_sim.py:53 | the encoding of 0 in any width is all zero bytes |
| SharedMemorySim.Region.Create | shared_memory_sim.py:52 | a created region is 8 zero bytes, linked, with the creator's one handle |
| SharedMemorySim.Region.Attach | shared_memory_sim.py:10 | a worker's attach adds one handle |
| SharedMemorySim.Region.Close | shared_memory_sim.py:69 | `close` drops one handle and keeps the name |
| SharedMemorySim.Region.Unlink | shared_memory_sim.py:70 | `unlink` removes the name; a second unlink is not allowed |
| SharedMemorySim.Region.Store | shared_memory_sim.py:34 | after a store the bytes are `pack('q', v)` |
| SharedMemorySim.Region.Load | shared_memory_sim.py:44-45 | a load returns `unpack('q', bytes)` |
| SharedMemorySim.CountOf | shared_memory_sim.py:31 | a count of critical sections never exceeds the schedule length |
| SharedMemorySim.CountOfPrefix | shared_memory_sim.py:31 | a prefix of the schedule has no more sections of a kind than the whole |
| SharedMemorySim.WriterValues | shared_memory_sim.py:11-12 | the i-th value written is `start_value + i` |
| SharedMemorySim.CellAfter | shared_memory_sim.py:33-34 | the cell after w writer sections: the initial 0, then `start_value + w - 1` |
| SharedMemorySim.Observed | shared_memory_sim.py:42-46 | what each locked reader section reads: the cell after the writer sections before it |
| SharedMemorySim.ObservedLength | shared_memory_sim.py:42 | the reader performs exactly one read per reader section |
| SharedMemorySim.ObservedAreWrites | shared_memory_sim.py:43-46 | every locked read returns 0 or one of the values the writer writes |
| SharedMemorySim.ObservedPrefix | shared_memory_sim.py:42-46 | the reads during a prefix of the schedule are a prefix of all the reads |
| SharedMemorySim.ObservedIsLatestWrite | shared_memory_sim.py:31-46 | the read in the reader section at position t returns 0 when no writer section comes before t, and otherwise the value of the last writer section before t |
| SharedMemorySim.ObservedNonDecreasing | shared_memory_sim.py:33-45 | with a non-negative start, the values the reader sees never decrease |
| SharedMemorySim.ObservedBelowCell | shared_memory_sim.py:33-45 | every value seen so far is at most the current cell |
| SharedMemorySim.CriticalSection | shared_memory_sim.py:32-35 | one locked section: the writer stores `1000 + w` and the cell then holds it; the reader loads the cell and leaves it |
| SharedMemorySim.LockedWorkers | shared_memory_sim.py:29-49 | under any schedule of critical sections, the writer writes 1000, 1001, ...; the reader sees exactly `Observed(schedule)`; both workers close their handles |
| SharedMemorySim.NoLockWriter | shared_memory_sim.py:9-17 | the no-lock writer stores `start_value + i` for each iteration, leaves its last value in the cell, and closes its handle |
| SharedMemorySim.RunDemo | shared_memory_sim.py:51-70 | the writer writes `iterations` consecutive values from 1000 (lock) or 0 (no lock); with the lock the reader makes `iterations` reads, and the read at schedule position t is 0 before any write and otherwise the last value written before t; without the lock the cell ends holding the last value written; the region ends closed and unlinked |
| VisualGuiStep4.Classify | visual_gui_step4.py:46-55 | the line is lowered, then "bottleneck" gives yellow, else "race", "overwrite" or "no lock" gives red, else green |
| VisualGuiStep4.ClassifyByMarkers | visual_gui_step4.py:46-55 | unfolds `Classify` into one iff per colour, with no proof of its own: yellow exactly on "bottleneck"; red exactly on no "bottleneck" but "race", "overwrite" or "no lock"; green otherwise |
| VisualGuiStep4.ClassifyIgnoresCase | visual_gui_step4.py:46 | lines equal up to letter case get the same colour |
| VisualGuiStep4.BottleneckLinesAreYellow | visual_gui_step4.py:42-49 | every pipe bottleneck line is yellow, with or without its trailing newline |
| VisualGuiStep4.BottleneckLineMarked | visual_gui_step4.py:48 | the lowered bottleneck line, with anything after it, contains "bottleneck" |
| VisualGuiStep4.ReaderNoLockLinesAreGreen | visual_gui_step4.py:42-55 | the no-lock reader's line `[Reader-NoLock] read N` is green, with or without its trailing newline |
| VisualGuiStep4.ReaderLineHasNoRace | visual_gui_step4.py:51 | the lowered reader line does not contain "race" |
| VisualGuiStep4.ReaderLineHasNoLockGap | visual_gui_step4.py:51 | the lowered reader line does not contain "no lock" |
| VisualGuiStep4.WriterNoLockLinesAreGreen | visual_gui_step4.py:42-55 | the no-lock writer's line `[Writer-NoLock] wrote N` is green, with or without its trailing newline |
| VisualGuiStep4.WriterLineHasNoRace | visual_gui_step4.py:51 | the lowered writer line does not contain "race" |
| VisualGuiStep4.WriterLineHasNoLockGap | visual_gui_step4.py:51 | the lowered writer line does not contain "no lock" |
| VisualGui.Classify | visual_gui.py:42-51 | the line is lowered, then "bottleneck" gives yellow, else "race" or "overwritten" gives red, else green |
| VisualGui.ClassifyByMarkers | visual_gui.py:42-51 | unfolds `Classify` into one iff per colour, with no proof of its own: yellow exactly on "bottleneck"; red exactly on no "bottleneck" but "race" or "overwritten"; green otherwise |
| VisualGui.ClassifyIgnoresCase | visual_gui.py:42 | lines equal up to letter case get the same colour |
| VisualGui.BottleneckLinesAreYellow | visual_gui.py:44-45 | every pipe bottleneck line is yellow, with or without its trailing newline |
| VisualGui.ComparedWithStep4 | visual_gui.py:44-51 | the two classifiers agree on yellow; they differ exactly when neither "bottleneck" nor "race" is present and "overwritten" is present while the step-4 red markers are not, or the other way round |
| VisualGui.OverwrittenIsNotAnOverwrite | visual_gui.py:47 | `Value overwritten` in any case is red here and green for the step-4 classifier |
| MainApp.ModeColour | main_app.py:51-61 | the colour depends only on the last argument: `--pipe` yellow, `--queue` and `--shm` green, `--shm-nolock` red, anything else none |
| MainApp.RunIpcProcess | main_app.py:31-61 | one animation per output line, all in the mode's colour, none for an unknown mode |
| MainApp.NoLockReaderLineColours | main_app.py:60-61 | the tab paints the no-lock reader's lines red while the step-4 classifier paints them green |
| MainApp.DeadlockTab.constructor | main_app.py:107-133 | a new tab shows everyone thinking, not running, no deadlock, no arrows |
| MainApp.DeadlockTab.SetState | main_app.py:138-154 | one philosopher's state changes, with its fill and its label `P{idx} - {text}` |
| MainApp.DeadlockTab.SetAll | main_app.py:167-176 | a loop over the five sets everyone to the state |
| MainApp.DeadlockTab.SimulateDeadlock | main_app.py:159-163 | ignored while running; otherwise marks the tab running and leaves the deadlock flag as it was |
| MainApp.DeadlockTab.ReachDeadlock | main_app.py:165-178 | everyone ends deadlocked and the deadlock is reported while the tab is still running, with the five cycle arrows kept |
| MainApp.DeadlockTab.EndRun | main_app.py:179 | the run ends; the deadlock flag and the arrows stay |
| MainApp.DeadlockTab.SimulateSequence | main_app.py:165-179 | with no click between its steps, everyone ends deadlocked, the deadlock is reported, the run ends, and the five cycle arrows are kept |
| MainApp.DeadlockTab.ResolveDeadlock | main_app.py:184-207 | ignored unless a deadlock was reported; otherwise `chosen` eats, the other four think, the arrows are cleared and the flag is reset |
| MainApp.DeadlockTab.ShowCycle | main_app.py:212-223 | the arrow list is reset, then holds exactly the 5 arrows i → (i+1) % 5 |
| MainApp.ResolveDuringSecondRun | main_app.py:159-186 | after a finished run and a second simulate, the tab's resolve acts while running; the stand-alone window's does not |
| DeadlockVisualizer.DiningPhilosophersGUI.constructor | deadlock_visualizer.py:49-70 | a new window shows everyone thinking, not running, no deadlock |
| DeadlockVisualizer.DiningPhilosophersGUI.SetState | deadlock_visualizer.py:114-131 | one philosopher's state changes, with its fill and its label `P{idx} - {text}` |
| DeadlockVisualizer.DiningPhilosophersGUI.SetAll | deadlock_visualizer.py:83-92 | a loop over the five sets everyone to the state |
| DeadlockVisualizer.DiningPhilosophersGUI.SimulateDeadlock | deadlock_visualizer.py:73-79 | ignored while running; otherwise marks the window running and clears the deadlock flag |
| DeadlockVisualizer.DiningPhilosophersGUI.ReachDeadlock | deadlock_visualizer.py:81-94 | everyone ends deadlocked and the deadlock is reported while the window is still running |
| DeadlockVisualizer.DiningPhilosophersGUI.EndRun | deadlock_visualizer.py:95 | the run ends; the deadlock flag stays |
| DeadlockVisualizer.DiningPhilosophersGUI.DeadlockSequence | deadlock_visualizer.py:81-95 | with no click between its steps, everyone ends deadlocked, the deadlock is reported and the run ends |
| DeadlockVisualizer.DiningPhilosophersGUI.ResolveDeadlock | deadlock_visualizer.py:97-111 | ignored unless a deadlock was reported; otherwise `chosen` eats, the other four think, and the flag is reset |
| DeadlockVisualizer.DiningPhilosophersGUI.ShowCycle | deadlock_visualizer.py:133-144 | draws exactly the 5 arrows i → (i+1) % 5, in order |
| DeadlockVisualizer.Session | deadlock_visualizer.py:73-111 | a resolve before the deadlock is reported does nothing; after the sequence, resolve leaves `chosen` eating and the others thinking |
| DeadlockVisualizer.ResolveBetweenFlagWrites | deadlock_visualizer.py:94-111 | a resolve handled between the report of the deadlock and the end of the run acts while the window is still running; once the run ends, `chosen` eats, the others think and no deadlock is reported |
| Philosophers.Fill | deadlock_visualizer.py:114-119 | the fill colour of each of the four states |
| Philosophers.Label | deadlock_visualizer.py:121-126 | the label text of each of the four states: hungry shows "waiting", deadlock "deadlocked" |
| Philosophers.StateText | deadlock_visualizer.py:130 | the label is `P`, the index digit, ` - `, then the state's text |
| Philosophers.StateMapsInjective | deadlock_visualizer.py:114-127 | the colour map and the text map are total over the four states and tell them apart |
| Philosophers.StateTextDistinguishes | main_app.py:145-153 | two labels are equal exactly when philosopher and state agree |
| Philosophers.CycleArrows | deadlock_visualizer.py:135-137 | arrow i goes from philosopher i to philosopher (i+1) % 5 |
| Philosophers.OneInOneOut | deadlock_visualizer.py:135-142 | every philosopher has exactly one outgoing and one incoming arrow |
| Philosophers.FollowIsRotation | main_app.py:216-218 | following the arrows k times from p reaches (p+k) % 5 |
| Philosophers.SingleCycle | main_app.py:216-223 | the arrows form one cycle through all five philosophers, of length exactly 5 |
| Philosophers.ResolvedHasOneEater | main_app.py:189-198 | after a resolve exactly one philosopher eats, it is `chosen`, and the rest think |
| Step1Demo.RunPipe | step1_demo.py:6-9 | the pipe demo with `sender_delay=1.5` and the default messages |
| Step1Demo.RunQueue | step1_demo.py:11-14 | the queue demo with `queue_maxsize=3, produce_delay=0.1, consume_delay=1.0` |
| Step1Demo.RunShared | step1_demo.py:16-19 | the shared-memory demo with `iterations=6, rw_delay=0.3` and the given lock choice |
| Step1Demo.Dispatch | step1_demo.py:29-45 | one demo when a flag is set, all four otherwise |
| Step1Demo.FirstSet | step1_demo.py:29-36 | finds the first set flag, with none before it, or reports that none is set |
| Step1Demo.DispatchRunsFirstSetFlag | step1_demo.py:29-45 | the demo of the first set flag in the order pipe, queue, shm, shm-nolock runs alone; with no flag, all four run in that order |
| Step1Demo.DispatchRunsEachDemoOnce | step1_demo.py:29-45 | exactly one demo runs when any flag is set, and no demo runs twice |
| Step1Demo.LauncherPipeRunHasNoBottleneck | step1_demo.py:6-9 | the launcher's pipe run (1.5-second sender delay, the five default messages) reports no bottleneck when every message spends at most 2.0 seconds in transit, although the launcher announces it as a bottleneck simulation |
| Text.Lower | visual_gui_step4.py:46 | `line.lower()` on ASCII letters: every character kept or lowered, none added |
| Text.Contains | visual_gui_step4.py:48-51 | Python's `sub in s`: `sub` occurs at some position of `s` |


## Left out

- Processes, threads, `sleep` and the wall clock. Each demo runs as one
  sequential schedule. The pipe receiver runs after the sender has closed
  its end. Its clock is a parameter, so any receive time is covered, but not
  the blocking `recv` of an open, empty pipe.
- PipeSimulation.RunDemo and PipeSimulation.Sender require a non-negative
  send delay. With a negative delay, `time.sleep` raises `ValueError` in
  the sender before anything is sent. The parent process still holds its
  end of the pipe, so the receiver then waits in `recv` rather than seeing
  end-of-stream. That blocking path is not modelled.
- PipeSimulation.RunDemo: the `:.3f` formatting of timestamps and latencies
  is a free `latencyText` string. Only the receiver's lines are rendered;
  the "[Sender] sent" lines are left out.
- MessageQueueSim.Producer: the put timeout is not timed. `patience(i)`
  says how many gets complete while put `i` is pending, and the put fails
  exactly when the queue is still full after them. The produce and consume
  delays are configuration only. The final sentinel put is modelled with at
  most one get to make room.
- MessageQueueSim.RunDemo: the given items are strings, never `None`.
  `run_demo(items=...)` accepts any objects. A `None` among them would stop
  the consumer early (message_queue_sim.py:20-23): it never logs the items
  after it. The producer's own final `q.put(None)` could then block forever
  on a full queue. The contract `clog == Gots(Accepted(plog)) + [Terminated]`
  covers only lists without `None`. The consumer on its own does stop at the
  first sentinel of any queue: see `MessageQueueSim.Consumer` and
  `MessageQueueSim.UntilSentinelOfDatas`, whose `rest` is arbitrary.
- SharedMemorySim: the no-lock reader is not modelled. Without the lock
  there is a genuine data race (a torn read is possible), so no value is
  claimed for it. The no-lock writer's stores are modelled as if the writer
  ran alone (`SharedMemorySim.NoLockWriter`).
- SharedMemorySim.Pack: `struct` format `'q'` uses native byte order. The
  model fixes little-endian; the round trips hold in either order.
- SharedMemorySim.RunDemo: requires `1000 + iterations` to fit in 64 bits.
  Beyond that `struct.pack` raises, and the model does not follow that
  error.
- The tkinter canvas, colours of arrows and their red/orange flashing, label
  widgets and `main()`'s widget layout. The philosophers' canvas becomes the
  array of states. The arrows become `Arrow` values. The canvas items that
  `_show_cycle` creates, and which only the tab deletes, are not modelled.
- DeadlockVisualizer.DiningPhilosophersGUI.ResolveDeadlock and
  MainApp.DeadlockTab.ResolveDeadlock: `random.randint(0, 4)` is the
  parameter `chosen`. A resolve click is modelled before a sequence, after
  it, or between its report of the deadlock and the end of its run
  (`ReachDeadlock`, then `EndRun`). It is not modelled between the
  individual `_set_state` calls inside those steps, nor during the resolve's
  own sleep.
- Text.Lower: only the ASCII letters A-Z are lowered. Python's
  `str.lower()` also lowers other letters, some to a different letter or to
  two characters: U+212A (the Kelvin sign) lowers to 'k', so
  "BOTTLENEC\u212A" is yellow in the GUIs but green in the model, and
  U+0130 lowers to two characters. The demos print only ASCII apart from
  the warning sign, so the claims about their lines are unaffected.
- main_gui.py only forwards subprocess output to a text box, so it is not
  part of this model. The argparse parsing in step1_demo.py becomes four
  booleans.
- The subprocess launch in main_app.py is left out. Its output lines are a
  parameter of `MainApp.RunIpcProcess`.
