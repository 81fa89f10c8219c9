/** The tabbed application (main_app.py): the IPC tab, which colours its
    arrow animation by the mode flag of the demo it launched, and the
    deadlock tab, a second dining-philosophers state machine that also keeps
    the cycle arrows it drew so that a resolve can remove them. */
module MainApp {
  import opened Wrappers
  import opened Text
  import opened Philosophers
  import VisualGuiStep4
  import DeadlockVisualizer

  /** The animation colour for a launch command, decided by its last
      argument alone (`ipc_mode = command[-1]`); any other mode animates
      nothing. */
  function ModeColour(command: seq<string>): (c: Option<Colour>)
    requires |command| > 0
    ensures command[|command| - 1] == "--pipe" <==> c == Some(Yellow)
    ensures command[|command| - 1] in {"--queue", "--shm"} <==> c == Some(Green)
    ensures command[|command| - 1] == "--shm-nolock" <==> c == Some(Red)
  {
    var mode := command[|command| - 1];
    if mode == "--pipe" then Some(Yellow)
    else if mode == "--queue" then Some(Green)
    else if mode == "--shm" then Some(Green)
    else if mode == "--shm-nolock" then Some(Red)
    else None
  }

  /** The loop of `run_ipc_process.task`: one animation per output line,
      every one in the mode's colour, whatever the line says. */
  method RunIpcProcess(command: seq<string>, lines: seq<string>) returns (animations: seq<Colour>)
    requires |command| > 0
    ensures ModeColour(command).None? ==> animations == []
    ensures ModeColour(command).Some? ==> |animations| == |lines|
    ensures ModeColour(command).Some? ==> forall k :: 0 <= k < |animations| ==> animations[k] == ModeColour(command).value
  {
    var mode := ModeColour(command);
    animations := [];
    for k := 0 to |lines|
      invariant mode.None? ==> animations == []
      invariant mode.Some? ==> |animations| == k && forall j :: 0 <= j < k ==> animations[j] == mode.value
    {
      if mode.Some? {
        animations := animations + [mode.value];
      }
    }
  }

  /** The command a button launches: `[python, "step1_demo.py", flag]`. */
  function ButtonCommand(python: string, flag: string): seq<string>
  {
    [python, "step1_demo.py", flag]
  }

  /** The mode colour and the line classifier of the step-4 window
      disagree on the no-lock reader's lines: the tab paints them red,
      the classifier green. */
  lemma NoLockReaderLineColours(python: string, d: string)
    requires VisualGuiStep4.IsDecimal(d)
    ensures ModeColour(ButtonCommand(python, "--shm-nolock")) == Some(Red)
    ensures VisualGuiStep4.Classify("[Reader-NoLock] read " + d) == Green
  {
    VisualGuiStep4.ReaderNoLockLinesAreGreen(d);
  }

  /** The deadlock tab. Unlike the stand-alone window it keeps the arrows
      of the last cycle it drew, and its simulate does not clear the
      deadlock flag. */
  class DeadlockTab {
    const states: array<PhilState>
    var running: bool
    var deadlockDetected: bool
    var cycleArrows: seq<Arrow>

    ghost predicate Valid()
      reads this
    {
      states.Length == N
    }

    /** The tab as built: everyone thinking, no run, no deadlock, no
        arrows. */
    constructor ()
      ensures Valid() && fresh(states)
      ensures AllIn(states[..], Thinking) && !running && !deadlockDetected && cycleArrows == []
    {
      states := new PhilState[N](_ => Thinking);
      running, deadlockDetected, cycleArrows := false, false, [];
    }

    /** `_set_state`: philosopher `idx` takes state `s`; its fill colour and
        label text are returned. */
    method SetState(idx: nat, s: PhilState) returns (fill: string, text: string)
      requires Valid() && idx < N
      modifies states
      ensures states[..] == old(states[..])[idx := s]
      ensures fill == Fill(s) && text == StateText(idx, s)
    {
      states[idx] := s;
      fill, text := Fill(s), StateText(idx, s);
    }

    /** Sets every philosopher to `s`, in index order. */
    method SetAll(s: PhilState)
      requires Valid()
      modifies states
      ensures AllIn(states[..], s)
    {
      for i := 0 to N
        invariant forall j :: 0 <= j < i ==> states[j] == s
      {
        var _, _ := SetState(i, s);
      }
    }

    /** `simulate_deadlock`: ignored while running; otherwise marks the
        tab running and starts the sequence. The deadlock flag is left
        as it was. */
    method SimulateDeadlock() returns (started: bool)
      requires Valid()
      modifies this
      ensures Valid() && cycleArrows == old(cycleArrows)
      ensures started == !old(running)
      ensures running && deadlockDetected == old(deadlockDetected)
    {
      if running {
        return false;
      }
      running := true;
      started := true;
    }

    /** `_simulate_sequence` up to its last line: all hungry in turn, the
        waiting cycle, all deadlocked, and the deadlock reported while the
        tab is still marked as running. */
    method ReachDeadlock()
      requires Valid() && running
      modifies this, states
      ensures Valid()
      ensures AllIn(states[..], Deadlock) && deadlockDetected && running
      ensures cycleArrows == CycleArrows()
    {
      SetAll(Hungry);
      ShowCycle();
      SetAll(Deadlock);
      deadlockDetected := true;
    }

    /** The last line of `_simulate_sequence`: the run ends. */
    method EndRun()
      requires Valid()
      modifies this
      ensures Valid() && !running
      ensures deadlockDetected == old(deadlockDetected) && cycleArrows == old(cycleArrows)
    {
      running := false;
    }

    /** `_simulate_sequence` as a whole, when no click comes in between its
        steps: everyone ends deadlocked, the deadlock is reported, the run
        ends, and the five cycle arrows are kept. */
    method SimulateSequence()
      requires Valid() && running
      modifies this, states
      ensures Valid()
      ensures AllIn(states[..], Deadlock) && deadlockDetected && !running
      ensures cycleArrows == CycleArrows()
    {
      ReachDeadlock();
      EndRun();
    }

    /** `resolve_deadlock`: ignored unless a deadlock was reported;
        otherwise `chosen` (the random pick) eats, the others think, the
        cycle arrows are removed and the deadlock flag is cleared. */
    method ResolveDeadlock(chosen: nat) returns (acted: bool)
      requires Valid() && chosen < N
      modifies this, states
      ensures Valid() && running == old(running)
      ensures acted == old(deadlockDetected)
      ensures acted ==> Resolved(states[..], chosen) && cycleArrows == [] && !deadlockDetected
      ensures !acted ==> states[..] == old(states[..]) && cycleArrows == old(cycleArrows) && !deadlockDetected
    {
      if !deadlockDetected {
        return false;
      }
      var _, _ := SetState(chosen, Eating);
      for i := 0 to N
        invariant unchanged(this)
        invariant states[chosen] == Eating
        invariant forall j :: 0 <= j < i && j != chosen ==> states[j] == Thinking
      {
        if i != chosen {
          var _, _ := SetState(i, Thinking);
        }
      }
      cycleArrows := [];
      deadlockDetected := false;
      acted := true;
    }

    /** `_show_cycle`: forget the previous arrows, then draw one from each
        philosopher to the next, in index order. */
    method ShowCycle()
      modifies this
      ensures cycleArrows == CycleArrows()
      ensures running == old(running) && deadlockDetected == old(deadlockDetected)
    {
      cycleArrows := [];
      for i := 0 to N
        invariant cycleArrows == CycleArrows()[..i]
        invariant running == old(running) && deadlockDetected == old(deadlockDetected)
      {
        cycleArrows := cycleArrows + [Arrow(i, (i + 1) % N)];
      }
    }
  }

  /** Clicks "Simulate", lets the sequence finish, clicks "Simulate"
      again and then "Resolve" while that second run is still going, on a
      fresh tab and on a fresh stand-alone window. The tab resolves in the
      middle of the run (its simulate kept the old deadlock flag), the
      window does not (its simulate cleared the flag). */
  method ResolveDuringSecondRun(chosen: nat) returns (tabActed: bool, tabRunning: bool, windowActed: bool, windowRunning: bool)
    requires chosen < N
    ensures tabActed && tabRunning
    ensures !windowActed && windowRunning
  {
    var tab := new DeadlockTab();
    var _ := tab.SimulateDeadlock();
    tab.SimulateSequence();
    var _ := tab.SimulateDeadlock();
    tabActed := tab.ResolveDeadlock(chosen);
    tabRunning := tab.running;

    var window := new DeadlockVisualizer.DiningPhilosophersGUI();
    var _ := window.SimulateDeadlock();
    var _ := window.DeadlockSequence();
    var _ := window.SimulateDeadlock();
    windowActed := window.ResolveDeadlock(chosen);
    windowRunning := window.running;
  }
}
