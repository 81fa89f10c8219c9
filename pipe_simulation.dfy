/** The pipe demo (pipe_simulation.py): a sender stamps each message with the
    time it is sent and writes it into a one-way pipe, then closes its end; a
    receiver reads until it has the expected number of messages or sees
    end-of-stream, and reports each message as received or, when its latency
    exceeds the threshold, as a bottleneck.

    Time is a `real` number of seconds. The sender's clock starts at `start`
    and advances by `sendDelay` before each send; the receiver's clock is a
    parameter `clock`, where `clock(k)` is the time at which it takes the
    k-th message. */
module PipeSimulation {
  import opened Wrappers

  /** DELAY_THRESHOLD: latencies strictly above it are bottlenecks. */
  const DelayThreshold: real := 2.0

  /** What travels through the pipe: the message and its send timestamp. */
  datatype Packet = Packet(msg: string, ts: real)

  /** What the receiver reports for one message. */
  datatype RecvEvent =
    | Received(msg: string, latency: real)
    | Bottleneck(msg: string, latency: real)

  /** The messages `run_demo` sends when none are given. */
  const DefaultMessages: seq<string> := ["hello", "world", "IPC", "pipe", "end"]

  /** Classifies one message taken at time `now`: the latency is `now` minus
      the send timestamp, and only a latency above the threshold is a
      bottleneck (exactly the threshold is a normal receive). */
  function Classify(p: Packet, now: real): (e: RecvEvent)
    ensures e.msg == p.msg && e.latency == now - p.ts
    ensures e.Bottleneck? <==> now - p.ts > DelayThreshold
  {
    var latency := now - p.ts;
    if latency > DelayThreshold then Bottleneck(p.msg, latency) else Received(p.msg, latency)
  }

  /** The moment the sender's k-th loop iteration begins, before its
      sleep: k sleeps of `sendDelay` after `start`. */
  function WakeTime(start: real, sendDelay: real, k: nat): real
  {
    start + k as real * sendDelay
  }

  /** The moment the sender sends its k-th message: after the iteration's
      sleep, that is after k + 1 sleeps. The sender reads the clock for the
      stamp at this same moment, just before `conn.send`. */
  function SendTime(start: real, sendDelay: real, k: nat): (t: real)
    ensures t == WakeTime(start, sendDelay, k) + sendDelay
  {
    start + (k + 1) as real * sendDelay
  }

  /** The packets the sender writes, in order. */
  function Stamped(messages: seq<string>, start: real, sendDelay: real): (ps: seq<Packet>)
    ensures |ps| == |messages|
    ensures forall k :: 0 <= k < |ps| ==> ps[k] == Packet(messages[k], SendTime(start, sendDelay, k))
  {
    seq(|messages|, k requires 0 <= k < |messages| => Packet(messages[k], SendTime(start, sendDelay, k)))
  }

  /** How many messages a receiver expecting `expectCount` takes from a
      closed pipe holding `available`: it stops at the count or at
      end-of-stream, whichever comes first. */
  function Taken(expectCount: int, available: nat): nat
  {
    if expectCount <= 0 then 0 else if expectCount < available then expectCount else available
  }

  /** What the receiver reports, given the packets the closed pipe holds. */
  function Receive(packets: seq<Packet>, expectCount: int, clock: nat -> real): seq<RecvEvent>
  {
    var n := Taken(expectCount, |packets|);
    seq(n, k requires 0 <= k < n => Classify(packets[k], clock(k)))
  }

  /** The receiver takes at most `expectCount` messages, stops early only at
      end-of-stream, and reports the messages it takes in the order they were
      sent, each exactly once. */
  lemma ReceiveIsOrderedPrefix(packets: seq<Packet>, expectCount: int, clock: nat -> real)
    ensures var events := Receive(packets, expectCount, clock);
      && |events| <= |packets|
      && (expectCount >= 0 ==> |events| <= expectCount)
      && (|packets| < expectCount ==> |events| == |packets|)
      && (0 <= expectCount <= |packets| ==> |events| == expectCount)
      && forall k :: 0 <= k < |events| ==> events[k].msg == packets[k].msg
  {
    var events := Receive(packets, expectCount, clock);
    forall k | 0 <= k < |events| ensures events[k].msg == packets[k].msg {
      assert events[k] == Classify(packets[k], clock(k));
    }
  }

  /** The sender stamps a message after its sleep, so the send delay does not
      count towards latency. The receiver takes message k `transit` seconds
      after it was sent (`clock(k) == SendTime(k) + transit`, whatever
      stamp it carries); then every latency is `transit`, whatever the
      delay, and the messages are all bottlenecks or all normal receives
      according to `transit` alone. */
  lemma SendDelayDoesNotAddLatency(messages: seq<string>, start: real, sendDelay: real, transit: real, clock: nat -> real)
    requires forall k: nat :: clock(k) == SendTime(start, sendDelay, k) + transit
    ensures var events := Receive(Stamped(messages, start, sendDelay), |messages|, clock);
      && |events| == |messages|
      && forall k :: 0 <= k < |events| ==>
        events[k].latency == transit && (events[k].Bottleneck? <==> transit > DelayThreshold)
  {
    var packets := Stamped(messages, start, sendDelay);
    var events := Receive(packets, |messages|, clock);
    forall k | 0 <= k < |events|
      ensures events[k].latency == transit && (events[k].Bottleneck? <==> transit > DelayThreshold)
    {
      assert events[k] == Classify(packets[k], clock(k));
      assert packets[k].ts == SendTime(start, sendDelay, k);
    }
  }

  /** The packets of a sender that read the clock before its sleep instead
      of after it: the contrast that shows what the order of the sleep and
      the stamp does. */
  function StampedBeforeSleep(messages: seq<string>, start: real, sendDelay: real): (ps: seq<Packet>)
    ensures |ps| == |messages|
    ensures forall k :: 0 <= k < |ps| ==> ps[k] == Packet(messages[k], WakeTime(start, sendDelay, k))
  {
    seq(|messages|, k requires 0 <= k < |messages| => Packet(messages[k], WakeTime(start, sendDelay, k)))
  }

  /** Under the same receiver (message k taken `transit` after it is sent),
      a stamp taken before the sleep would add the whole send delay to every
      latency, and a delay above the threshold would make every message a
      bottleneck. The source's stamp-after-sleep order is what keeps the
      delay out. */
  lemma StampBeforeSleepWouldCountDelay(messages: seq<string>, start: real, sendDelay: real, transit: real, clock: nat -> real)
    requires forall k: nat :: clock(k) == SendTime(start, sendDelay, k) + transit
    ensures var events := Receive(StampedBeforeSleep(messages, start, sendDelay), |messages|, clock);
      && |events| == |messages|
      && forall k :: 0 <= k < |events| ==>
        events[k].latency == transit + sendDelay
        && (events[k].Bottleneck? <==> transit + sendDelay > DelayThreshold)
  {
    var packets := StampedBeforeSleep(messages, start, sendDelay);
    var events := Receive(packets, |messages|, clock);
    forall k | 0 <= k < |events|
      ensures events[k].latency == transit + sendDelay
      ensures events[k].Bottleneck? <==> transit + sendDelay > DelayThreshold
    {
      assert events[k] == Classify(packets[k], clock(k));
      assert packets[k].ts == WakeTime(start, sendDelay, k);
    }
  }

  /** A latency of exactly the threshold is reported as a normal receive. */
  lemma ThresholdIsExclusive(msg: string, ts: real)
    ensures Classify(Packet(msg, ts), ts + DelayThreshold) == Received(msg, DelayThreshold)
  {
  }

  /** The line the receiver prints for an event; `latencyText` is the
      latency as the source formats it (three decimals). */
  function Render(e: RecvEvent, latencyText: string): string
  {
    match e
    case Bottleneck(m, _) =>
      "\U{26A0}\U{FE0F} [Receiver] " + "Bottleneck" + " detected! latency=" + latencyText + "s for message '" + m + "'"
    case Received(m, _) =>
      "[Receiver] received: " + m + " (latency=" + latencyText + "s)"
  }

  /** One end-to-end pipe: what has been sent and not yet received, and
      whether each end is still open. */
  class Pipe {
    var buffer: seq<Packet>
    var sendOpen: bool
    var recvOpen: bool

    constructor ()
      ensures buffer == [] && sendOpen && recvOpen
    {
      buffer, sendOpen, recvOpen := [], true, true;
    }

    /** `conn.send`: never blocks; the packet joins the end of the buffer. */
    method Send(p: Packet)
      requires sendOpen
      modifies this
      ensures buffer == old(buffer) + [p]
      ensures sendOpen && recvOpen == old(recvOpen)
    {
      buffer := buffer + [p];
    }

    /** The sender's `conn.close()`. The receiver sees end-of-stream only
        once every handle on the send end is closed; `run_demo` never gets
        there, since its receiver expects exactly as many messages as are
        sent. */
    method CloseSend()
      modifies this
      ensures !sendOpen && buffer == old(buffer) && recvOpen == old(recvOpen)
    {
      sendOpen := false;
    }

    /** `conn.recv()`: the oldest packet, or `None` for the `EOFError` raised
        once the buffer is empty and the send end is closed. (An empty buffer
        with the send end open would block; callers do not reach that.) */
    method Recv() returns (r: Option<Packet>)
      requires recvOpen && (buffer != [] || !sendOpen)
      modifies this
      ensures old(buffer) == [] ==> r == None && buffer == []
      ensures old(buffer) != [] ==> r == Some(old(buffer)[0]) && buffer == old(buffer)[1..]
      ensures sendOpen == old(sendOpen) && recvOpen
    {
      if buffer == [] {
        r := None;
      } else {
        r := Some(buffer[0]);
        buffer := buffer[1..];
      }
    }

    /** The receiver's `conn.close()`. */
    method CloseRecv()
      modifies this
      ensures !recvOpen && buffer == old(buffer) && sendOpen == old(sendOpen)
    {
      recvOpen := false;
    }
  }

  /** `sender`: for each message, sleep `sendDelay`, stamp it, send it; then
      close the send end. */
  method Sender(pipe: Pipe, messages: seq<string>, sendDelay: real, start: real)
    requires pipe.sendOpen && sendDelay >= 0.0
    modifies pipe
    ensures pipe.buffer == old(pipe.buffer) + Stamped(messages, start, sendDelay)
    ensures !pipe.sendOpen && pipe.recvOpen == old(pipe.recvOpen)
  {
    var now := start;
    for i := 0 to |messages|
      invariant pipe.sendOpen && pipe.recvOpen == old(pipe.recvOpen)
      invariant now == start + i as real * sendDelay
      invariant pipe.buffer == old(pipe.buffer) + Stamped(messages[..i], start, sendDelay)
    {
      now := now + sendDelay;
      pipe.Send(Packet(messages[i], now));
      assert Stamped(messages[..i + 1], start, sendDelay)
          == Stamped(messages[..i], start, sendDelay) + [Packet(messages[i], now)];
    }
    assert messages[..|messages|] == messages;
    pipe.CloseSend();
  }

  /** `receiver`: take messages until `expectCount` have been taken or the
      pipe reports end-of-stream, classifying each one; then close. Run after
      the sender has closed its end. */
  method Receiver(pipe: Pipe, expectCount: int, clock: nat -> real) returns (events: seq<RecvEvent>)
    requires pipe.recvOpen && !pipe.sendOpen
    modifies pipe
    ensures events == Receive(old(pipe.buffer), expectCount, clock)
    ensures pipe.buffer == old(pipe.buffer)[|events|..]
    ensures !pipe.recvOpen && !pipe.sendOpen
  {
    ghost var sent := pipe.buffer;
    var received := 0;
    events := [];
    while received < expectCount
      invariant 0 <= received <= |sent| && received == |events|
      invariant received <= Taken(expectCount, |sent|)
      invariant pipe.buffer == sent[received..]
      invariant pipe.recvOpen && !pipe.sendOpen
      invariant events == Receive(sent[..received], received, clock)
      decreases |pipe.buffer| + (if received < expectCount then 1 else 0)
    {
      var r := pipe.Recv();
      if r.None? {
        break;
      }
      events := events + [Classify(r.value, clock(received))];
      received := received + 1;
    }
    assert received == Taken(expectCount, |sent|);
    assert Receive(sent[..received], received, clock) == Receive(sent, expectCount, clock);
    pipe.CloseRecv();
  }

  /** `run_demo`: the messages given, or the five defaults when `None`; the
      receiver expects as many as there are; sender and receiver share one
      pipe. Every message is reported once, in order, with its latency, and
      is a bottleneck exactly when that latency is above the threshold. */
  method RunDemo(messages: Option<seq<string>>, senderDelay: real, start: real, clock: nat -> real)
    returns (events: seq<RecvEvent>)
    requires senderDelay >= 0.0
    ensures var sent := if messages.Some? then messages.value else DefaultMessages;
      && |events| == |sent|
      && forall k :: 0 <= k < |events| ==>
        && events[k].msg == sent[k]
        && events[k].latency == clock(k) - SendTime(start, senderDelay, k)
        && (events[k].Bottleneck? <==> events[k].latency > DelayThreshold)
  {
    var sent := if messages.Some? then messages.value else DefaultMessages;
    var pipe := new Pipe();
    Sender(pipe, sent, senderDelay, start);
    ghost var packets := Stamped(sent, start, senderDelay);
    assert pipe.buffer == packets;
    events := Receiver(pipe, |sent|, clock);
    assert forall k :: 0 <= k < |events| ==> events[k] == Classify(packets[k], clock(k));
  }
}
