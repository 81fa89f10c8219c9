/** The stand-alone deadlock window (deadlock_visualizer.py): five
    philosophers, a "Simulate Deadlock" button that starts a background
    sequence driving everyone hungry and then deadlocked, and a "Resolve
    Deadlock" button that lets one philosopher eat.

    The canvas is abstracted to the array of philosopher states; the
    background thread is the method `DeadlockSequence`, which runs after
    `SimulateDeadlock` has marked the window as running. */
module DeadlockVisualizer {
  import opened Philosophers

  class DiningPhilosophersGUI {
    const states: array<PhilState>
    var running: bool
    var deadlockDetected: bool

    /** Five philosophers. */
    ghost predicate Valid()
      reads this
    {
      states.Length == N
    }

    /** The window as built: everyone thinking, no run, no deadlock. */
    constructor ()
      ensures Valid() && fresh(states)
      ensures AllIn(states[..], Thinking) && !running && !deadlockDetected
    {
      states := new PhilState[N](_ => Thinking);
      running, deadlockDetected := false, false;
    }

    /** `_set_state`: philosopher `idx` takes state `s`; its fill colour and
        label text are returned. */
    method SetState(idx: nat, s: PhilState) returns (fill: string, text: string)
      requires Valid() && idx < N
      modifies states
      ensures states[..] == old(states[..])[idx := s]
      ensures fill == Fill(s) && text == StateText(idx, s)
    {
      states[idx] := s;
      fill, text := Fill(s), StateText(idx, s);
    }

    /** Sets every philosopher to `s`, in index order. */
    method SetAll(s: PhilState)
      requires Valid()
      modifies states
      ensures AllIn(states[..], s)
    {
      for i := 0 to N
        invariant forall j :: 0 <= j < i ==> states[j] == s
      {
        var _, _ := SetState(i, s);
      }
    }

    /** `simulate_deadlock`: ignored while running; otherwise marks the
        window running, clears the deadlock flag and starts the sequence. */
    method SimulateDeadlock() returns (started: bool)
      requires Valid()
      modifies this
      ensures Valid()
      ensures started == !old(running)
      ensures started ==> running && !deadlockDetected
      ensures !started ==> running == old(running) && deadlockDetected == old(deadlockDetected)
    {
      if running {
        return false;
      }
      running := true;
      deadlockDetected := false;
      started := true;
    }

    /** `_deadlock_sequence` up to its last line: all hungry in turn, the
        waiting cycle, all deadlocked, and the deadlock reported while the
        window is still marked as running. */
    method ReachDeadlock() returns (arrows: seq<Arrow>)
      requires Valid() && running
      modifies this, states
      ensures Valid()
      ensures AllIn(states[..], Deadlock) && deadlockDetected && running
      ensures arrows == CycleArrows()
    {
      SetAll(Hungry);
      arrows := ShowCycle();
      SetAll(Deadlock);
      deadlockDetected := true;
    }

    /** The last line of `_deadlock_sequence`: the run ends. */
    method EndRun()
      requires Valid()
      modifies this
      ensures Valid() && !running && deadlockDetected == old(deadlockDetected)
    {
      running := false;
    }

    /** `_deadlock_sequence` as a whole, when no click comes in between
        its steps: everyone ends deadlocked, the deadlock is reported and
        the run ends. */
    method DeadlockSequence() returns (arrows: seq<Arrow>)
      requires Valid() && running
      modifies this, states
      ensures Valid()
      ensures AllIn(states[..], Deadlock) && deadlockDetected && !running
      ensures arrows == CycleArrows()
    {
      arrows := ReachDeadlock();
      EndRun();
    }

    /** `resolve_deadlock`: ignored unless a deadlock was reported;
        otherwise `chosen` (the random pick) eats, the others think, and
        the deadlock flag is cleared. */
    method ResolveDeadlock(chosen: nat) returns (acted: bool)
      requires Valid() && chosen < N
      modifies this, states
      ensures Valid() && running == old(running)
      ensures acted == old(deadlockDetected)
      ensures acted ==> Resolved(states[..], chosen) && !deadlockDetected
      ensures !acted ==> states[..] == old(states[..]) && !deadlockDetected
    {
      if !deadlockDetected {
        return false;
      }
      var _, _ := SetState(chosen, Eating);
      for i := 0 to N
        invariant unchanged(this)
        invariant states[chosen] == Eating
        invariant forall j :: 0 <= j < i && j != chosen ==> states[j] == Thinking
      {
        if i != chosen {
          var _, _ := SetState(i, Thinking);
        }
      }
      deadlockDetected := false;
      acted := true;
    }

    /** `_show_cycle`: one arrow from each philosopher to the next, drawn
        in index order; the window keeps no reference to them. */
    method ShowCycle() returns (arrows: seq<Arrow>)
      ensures arrows == CycleArrows()
    {
      arrows := [];
      for i := 0 to N
        invariant arrows == CycleArrows()[..i]
      {
        arrows := arrows + [Arrow(i, (i + 1) % N)];
      }
    }
  }

  /** A full session on a fresh window: a click on "Resolve" before the
      deadlock is reported does nothing, the sequence ends in the all-deadlocked picture,
      and a later "Resolve" leaves `chosen` eating and the others thinking. */
  method Session(chosen: nat) returns (resolvedEarly: bool, resolvedLate: bool, pictureAfter: seq<PhilState>)
    requires chosen < N
    ensures !resolvedEarly && resolvedLate
    ensures Resolved(pictureAfter, chosen)
  {
    var gui := new DiningPhilosophersGUI();
    var started := gui.SimulateDeadlock();
    resolvedEarly := gui.ResolveDeadlock(chosen);
    var _ := gui.DeadlockSequence();
    resolvedLate := gui.ResolveDeadlock(chosen);
    pictureAfter := gui.states[..];
  }

  /** The sequence reports the deadlock before it ends the run, so a
      "Resolve" click handled between those two lines acts while the window
      is still running. When the sequence then ends its run, `chosen` eats,
      the others think and no deadlock is reported. */
  method ResolveBetweenFlagWrites(chosen: nat)
    returns (acted: bool, runningWhenActed: bool, pictureAfter: seq<PhilState>, deadlockAfter: bool)
    requires chosen < N
    ensures acted && runningWhenActed
    ensures Resolved(pictureAfter, chosen) && !deadlockAfter
  {
    var gui := new DiningPhilosophersGUI();
    var _ := gui.SimulateDeadlock();
    var _ := gui.ReachDeadlock();
    acted := gui.ResolveDeadlock(chosen);
    runningWhenActed := gui.running;
    gui.EndRun();
    pictureAfter := gui.states[..];
    deadlockAfter := gui.deadlockDetected;
  }
}
