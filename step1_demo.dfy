/** The command-line launcher (step1_demo.py): four flags select one demo,
    checked in the order pipe, queue, shm, shm-nolock; with no flag all four
    demos run in that order. Each demo runs with the launcher's fixed
    parameters, which override some of the demos' own defaults. */
module Step1Demo {
  import opened Wrappers
  import PipeSimulation
  import MessageQueueSim
  import SharedMemorySim

  /** The parsed command line: one boolean per `store_true` flag. */
  datatype Flags = Flags(pipe: bool, queue: bool, shm: bool, shmNolock: bool)

  /** One demo run and the arguments the launcher passes to it. */
  datatype Demo =
    | PipeDemo(senderDelay: real)
    | QueueDemo(queueConfig: MessageQueueSim.DemoConfig)
    | SharedDemo(shmConfig: SharedMemorySim.DemoConfig)

  /** `run_pipe`: `sender_delay=1.5`, the default messages. */
  function RunPipe(): Demo
  {
    PipeDemo(1.5)
  }

  /** `run_queue`: `queue_maxsize=3, produce_delay=0.1, consume_delay=1.0`,
      the default items. */
  function RunQueue(): Demo
  {
    QueueDemo(MessageQueueSim.DemoConfig(None, 3, 0.1, 1.0))
  }

  /** `run_shared(lock_demo)`: `iterations=6, rw_delay=0.3`. */
  function RunShared(lockDemo: bool): Demo
  {
    SharedDemo(SharedMemorySim.DemoConfig(6, 0.3, lockDemo))
  }

  /** What the no-flag branch runs, in order. */
  const AllDemos: seq<Demo> := [RunPipe(), RunQueue(), RunShared(true), RunShared(false)]

  /** The `if`/`elif` chain of the launcher's main block. */
  function Dispatch(f: Flags): (r: seq<Demo>)
    ensures 1 <= |r| <= 4
  {
    if f.pipe then [RunPipe()]
    else if f.queue then [RunQueue()]
    else if f.shm then [RunShared(true)]
    else if f.shmNolock then [RunShared(false)]
    else AllDemos
  }

  /** The flags in the order the chain tests them. */
  function FlagList(f: Flags): seq<bool>
  {
    [f.pipe, f.queue, f.shm, f.shmNolock]
  }

  /** The position of the first set flag, if any. */
  function FirstSet(b: seq<bool>): (r: Option<nat>)
    ensures r.Some? ==> r.value < |b| && b[r.value] && forall j :: 0 <= j < r.value ==> !b[j]
    ensures r.None? ==> forall j :: 0 <= j < |b| ==> !b[j]
  {
    if b == [] then None
    else if b[0] then Some(0)
    else match FirstSet(b[1..]) {
      case None => None
      case Some(i) => Some(i + 1)
    }
  }

  /** The dispatcher runs the demo of the first set flag and nothing else,
      and all four demos in order when no flag is set. */
  lemma DispatchRunsFirstSetFlag(f: Flags)
    ensures FirstSet(FlagList(f)).Some? ==> Dispatch(f) == [AllDemos[FirstSet(FlagList(f)).value]]
    ensures FirstSet(FlagList(f)).None? ==> Dispatch(f) == AllDemos
  {
    var b := FlagList(f);
    if f.pipe {
      assert FirstSet(b) == Some(0);
    } else if f.queue {
      assert FirstSet(b) == Some(1);
    } else if f.shm {
      assert FirstSet(b) == Some(2);
    } else if f.shmNolock {
      assert FirstSet(b) == Some(3);
    }
  }

  /** Exactly one demo runs whenever some flag is set; each demo appears at
      most once in a run. */
  lemma DispatchRunsEachDemoOnce(f: Flags)
    ensures (f.pipe || f.queue || f.shm || f.shmNolock) <==> |Dispatch(f)| == 1
    ensures forall i, j :: 0 <= i < j < |Dispatch(f)| ==> Dispatch(f)[i] != Dispatch(f)[j]
  {
  }

  /** The launcher announces its pipe run as a bottleneck simulation, but
      the sender stamps each message after its sleep, so the 1.5-second
      delay never reaches the latency: when every default message spends at
      most the threshold in transit, none of the five is reported as a
      bottleneck. */
  lemma LauncherPipeRunHasNoBottleneck(start: real, transit: real, clock: nat -> real)
    requires forall k: nat :: clock(k) == PipeSimulation.SendTime(start, RunPipe().senderDelay, k) + transit
    requires transit <= PipeSimulation.DelayThreshold
    ensures var events := PipeSimulation.Receive(
        PipeSimulation.Stamped(PipeSimulation.DefaultMessages, start, RunPipe().senderDelay),
        |PipeSimulation.DefaultMessages|, clock);
      |events| == 5 && forall k :: 0 <= k < |events| ==> events[k].Received?
  {
    PipeSimulation.SendDelayDoesNotAddLatency(PipeSimulation.DefaultMessages, start, RunPipe().senderDelay, transit, clock);
  }
}
