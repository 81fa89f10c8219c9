/** The dining-philosophers picture shared by deadlock_visualizer.py and the
    deadlock tab of main_app.py: five philosophers, each in one of four
    states shown by a fill colour and a label, and the circular wait drawn as
    five arrows from each philosopher to the next. */
module Philosophers {

  /** `THINKING`, `HUNGRY`, `EATING`, `DEADLOCK`. */
  datatype PhilState = Thinking | Hungry | Eating | Deadlock

  /** The number of philosophers (the five canvas positions). */
  const N: nat := 5

  /** The `colors` map of `_set_state`. */
  function Fill(s: PhilState): string
  {
    match s
    case Thinking => "lightgray"
    case Hungry => "yellow"
    case Eating => "lightgreen"
    case Deadlock => "red"
  }

  /** The `texts` map of `_set_state`. */
  function Label(s: PhilState): string
  {
    match s
    case Thinking => "thinking"
    case Hungry => "waiting"
    case Eating => "eating"
    case Deadlock => "deadlocked"
  }

  /** `f"P{idx} - {texts[state]}"` for a single-digit index. */
  function StateText(idx: nat, s: PhilState): (r: string)
    requires idx < 10
    ensures |r| == 5 + |Label(s)|
    ensures r[..2] == "P" + [('0' as int + idx) as char] && r[2..5] == " - " && r[5..] == Label(s)
  {
    "P" + [('0' as int + idx) as char] + " - " + Label(s)
  }

  /** The two maps are total and tell the four states apart: the label (and
      the colour) on the canvas determines the state. */
  lemma StateMapsInjective(a: PhilState, b: PhilState)
    ensures Label(a) == Label(b) <==> a == b
    ensures Fill(a) == Fill(b) <==> a == b
  {
    if a != b {
      assert |Label(a)| != |Label(b)|;
      assert |Fill(a)| != |Fill(b)|;
    }
  }

  /** The label under philosopher `idx` names the philosopher and its
      state; two labels are equal exactly when both agree. */
  lemma StateTextDistinguishes(i: nat, a: PhilState, j: nat, b: PhilState)
    requires i < N && j < N
    ensures StateText(i, a) == StateText(j, b) <==> i == j && a == b
  {
    if StateText(i, a) == StateText(j, b) {
      assert StateText(i, a)[1] == StateText(j, b)[1];
      assert Label(a) == StateText(i, a)[5..];
      StateMapsInjective(a, b);
    }
  }

  /** One arrow of the circular wait: philosopher `src` waits for `dst`. */
  datatype Arrow = Arrow(src: nat, dst: nat)

  /** The philosopher the one at position `i` waits for. */
  function Next(i: nat): nat
  {
    (i + 1) % N
  }

  /** The arrows `_show_cycle` draws, in drawing order. */
  function CycleArrows(): (r: seq<Arrow>)
    ensures |r| == N && forall i :: 0 <= i < N ==> r[i] == Arrow(i, Next(i))
  {
    seq(N, i requires 0 <= i < N => Arrow(i, Next(i)))
  }

  /** Every philosopher has exactly one outgoing and exactly one incoming
      arrow: the one it draws, and the one its predecessor draws. */
  lemma OneInOneOut(i: nat, p: nat)
    requires i < N && p < N
    ensures CycleArrows()[i].src == p <==> i == p
    ensures CycleArrows()[i].dst == p <==> i == (p + N - 1) % N
  {
  }

  /** Following the arrows `k` times from `p`. */
  function Follow(p: nat, k: nat): nat
  {
    if k == 0 then p else Next(Follow(p, k - 1))
  }

  lemma {:induction false} FollowIsRotation(p: nat, k: nat)
    requires p < N
    ensures Follow(p, k) == (p + k) % N
  {
    if k > 0 {
      FollowIsRotation(p, k - 1);
    }
  }

  /** The arrows form one cycle through all five philosophers: from any of
      them, following the arrows returns after exactly five steps and not
      before, so each is waiting, through the others, on itself. */
  lemma SingleCycle(p: nat, k: nat)
    requires p < N && 0 < k <= N
    ensures Follow(p, k) == p <==> k == N
  {
    FollowIsRotation(p, k);
  }

  /** Every philosopher is in state `s`. */
  predicate AllIn(states: seq<PhilState>, s: PhilState)
  {
    |states| == N && forall i :: 0 <= i < N ==> states[i] == s
  }

  /** The picture after a resolve: `chosen` eats, the other four think. */
  predicate Resolved(states: seq<PhilState>, chosen: nat)
  {
    |states| == N && chosen < N
    && forall i :: 0 <= i < N ==> states[i] == (if i == chosen then Eating else Thinking)
  }

  /** After a resolve exactly one philosopher eats, and it is `chosen`. */
  lemma ResolvedHasOneEater(states: seq<PhilState>, chosen: nat, i: nat)
    requires Resolved(states, chosen) && i < N
    ensures states[i] == Eating <==> i == chosen
    ensures states[i] != Eating ==> states[i] == Thinking
  {
  }
}
