/** The bounded-queue demo (message_queue_sim.py): a producer tries to put
    each item into a FIFO queue of capacity `maxsize`, dropping the item when
    the put times out, and finally puts the `None` sentinel; a consumer takes
    items until it meets the sentinel.

    The two processes are replaced by one sequential schedule. The consumer's
    progress while the producer waits on a put is a parameter: `patience(i)`
    is the number of gets the consumer completes between the producer's
    previous put and the moment the put of item `i` either finds room or
    times out. Every interleaving of the two processes is described by some
    such function. */
module MessageQueueSim {
  import opened Wrappers

  /** What the queue carries: a payload, or the `None` end-of-work token. */
  datatype Item = Data(payload: string) | Sentinel

  /** What the producer prints for each item. */
  datatype ProducerEvent = Put(item: string) | QueueFull(item: string)

  /** What the consumer prints: one line per item taken, then one line for
      the termination token. */
  datatype ConsumerEvent = Got(item: string) | Terminated

  /** The parameters of `run_demo`; `items == None` selects the defaults. */
  datatype DemoConfig = DemoConfig(items: Option<seq<string>>, queueMaxsize: int, produceDelay: real, consumeDelay: real)

  /** `[f"msg{i}" for i in range(1, 8)]`. */
  const DefaultItems: seq<string> := ["msg1", "msg2", "msg3", "msg4", "msg5", "msg6", "msg7"]

  /** Nothing blocks the producer: the consumer takes nothing while a put
      is pending. */
  ghost predicate Stalled(patience: nat -> nat)
  {
    forall j :: patience(j) == 0
  }

  /** The items the producer put successfully, in put order. */
  function Accepted(log: seq<ProducerEvent>): (r: seq<string>)
    ensures |r| <= |log|
  {
    if log == [] then []
    else
      var last := log[|log| - 1];
      Accepted(log[..|log| - 1]) + (if last.Put? then [last.item] else [])
  }

  function Datas(s: seq<string>): seq<Item>
  {
    seq(|s|, k requires 0 <= k < |s| => Data(s[k]))
  }

  function Gots(s: seq<string>): seq<ConsumerEvent>
  {
    seq(|s|, k requires 0 <= k < |s| => Got(s[k]))
  }

  /** The payloads a consumer takes before the first sentinel. */
  function UntilSentinel(q: seq<Item>): seq<string>
  {
    if q == [] || q[0].Sentinel? then [] else [q[0].payload] + UntilSentinel(q[1..])
  }

  /** What is left in the queue once the consumer has taken the first
      sentinel. */
  function AfterSentinel(q: seq<Item>): seq<Item>
  {
    if q == [] then [] else if q[0].Sentinel? then q[1..] else AfterSentinel(q[1..])
  }

  /** `multiprocessing.Queue(maxsize)`: FIFO; a `maxsize` of zero or less
      means no bound. */
  class BoundedQueue {
    const maxsize: int
    var items: seq<Item>
    ghost var history: seq<Item>  // every item ever put, in put order

    /** Occupancy never exceeds a positive `maxsize`. */
    ghost predicate Valid()
      reads this
    {
      maxsize > 0 ==> |items| <= maxsize
    }

    /** `Queue.full()`. */
    predicate Full()
      reads this
    {
      0 < maxsize <= |items|
    }

    constructor (maxsize: int)
      ensures this.maxsize == maxsize && items == [] && history == [] && Valid()
    {
      this.maxsize := maxsize;
      items, history := [], [];
    }

    /** `put(x, timeout=...)` at the moment it finds room or times out: it
        succeeds exactly when the queue is not full, and a failed put leaves
        the queue as it was. */
    method TryPut(x: Item) returns (ok: bool)
      requires Valid()
      modifies this
      ensures Valid()
      ensures ok == !old(Full())
      ensures items == (if ok then old(items) + [x] else old(items))
      ensures history == (if ok then old(history) + [x] else old(history))
    {
      ok := !Full();
      if ok {
        items, history := items + [x], history + [x];
      }
    }

    /** `put(x)` without a timeout, once there is room. */
    method Put(x: Item)
      requires Valid() && !Full()
      modifies this
      ensures Valid()
      ensures items == old(items) + [x] && history == old(history) + [x]
    {
      items, history := items + [x], history + [x];
    }

    /** `get()` once an item is there: the oldest one. */
    method Get() returns (x: Item)
      requires Valid() && items != []
      modifies this
      ensures Valid()
      ensures x == old(items)[0] && items == old(items)[1..] && history == old(history)
    {
      x := items[0];
      items := items[1..];
    }
  }

  /** One turn of the consumer's loop: take the oldest item; the sentinel
      ends the loop without a "got" line. */
  method ConsumeOne(q: BoundedQueue) returns (e: ConsumerEvent)
    requires q.Valid() && q.items != []
    modifies q
    ensures q.Valid() && q.items == old(q.items)[1..] && q.history == old(q.history)
    ensures e == if old(q.items)[0].Sentinel? then Terminated else Got(old(q.items)[0].payload)
  {
    var x := q.Get();
    e := if x.Sentinel? then Terminated else Got(x.payload);
  }

  /** `consumer`: take items until the first sentinel, logging every other
      item once, in queue order. */
  method Consumer(q: BoundedQueue) returns (log: seq<ConsumerEvent>)
    requires q.Valid() && Sentinel in q.items
    modifies q
    ensures q.Valid() && q.history == old(q.history)
    ensures log == Gots(UntilSentinel(old(q.items))) + [Terminated]
    ensures q.items == AfterSentinel(old(q.items))
  {
    log := [];
    ghost var taken: seq<string> := [];
    while true
      invariant q.Valid() && q.history == old(q.history) && Sentinel in q.items
      invariant log == Gots(taken)
      invariant taken + UntilSentinel(q.items) == UntilSentinel(old(q.items))
      invariant AfterSentinel(q.items) == AfterSentinel(old(q.items))
      decreases |q.items|
    {
      var e := ConsumeOne(q);
      if e.Terminated? {
        log := log + [e];
        return;
      }
      taken := taken + [e.item];
      log := log + [e];
    }
  }

  /** The consumer's gets while a put is pending: up to `budget` of them,
      fewer if the queue runs empty (the consumer then waits on `get`). */
  method CatchUp(q: BoundedQueue, budget: nat, ghost pending: seq<string>)
    returns (events: seq<ConsumerEvent>, k: nat)
    requires q.Valid() && q.items == Datas(pending)
    modifies q
    ensures q.Valid() && q.history == old(q.history)
    ensures k <= |pending| && k <= budget
    ensures events == Gots(pending[..k]) && q.items == Datas(pending[k..])
  {
    events, k := [], 0;
    while k < budget && q.items != []
      invariant q.Valid() && q.history == old(q.history)
      invariant k <= |pending| && k <= budget
      invariant events == Gots(pending[..k]) && q.items == Datas(pending[k..])
    {
      var e := ConsumeOne(q);
      assert pending[..k + 1] == pending[..k] + [pending[k]];
      assert Datas(pending[k..])[1..] == Datas(pending[k + 1..]);
      events := events + [e];
      k := k + 1;
    }
  }

  /** Appending one producer event extends the accepted items by that item
      when it was put, and by nothing when it was dropped. */
  lemma AcceptedSnoc(log: seq<ProducerEvent>, e: ProducerEvent)
    ensures Accepted(log + [e]) == Accepted(log) + (if e.Put? then [e.item] else [])
  {
    assert (log + [e])[..|log|] == log;
  }

  lemma DatasAppend(a: seq<string>, b: seq<string>)
    ensures Datas(a + b) == Datas(a) + Datas(b)
  {
  }

  lemma GotsAppend(a: seq<string>, b: seq<string>)
    ensures Gots(a + b) == Gots(a) + Gots(b)
  {
  }

  /** One item's turn: the consumer's gets while the put is pending, then
      the put, which finds room exactly when the queue is not full at that
      moment. Without a bound it always succeeds; with no gets in between it
      succeeds exactly when fewer than `maxsize` items are waiting. */
  method Offer(q: BoundedQueue, x: string, budget: nat, ghost pending: seq<string>)
    returns (got: seq<ConsumerEvent>, ok: bool, k: nat)
    requires q.Valid() && q.items == Datas(pending)
    modifies q
    ensures q.Valid()
    ensures k <= |pending| && k <= budget && got == Gots(pending[..k])
    ensures q.items == Datas(pending[k..] + (if ok then [x] else []))
    ensures q.history == old(q.history) + (if ok then [Data(x)] else [])
    ensures q.maxsize <= 0 ==> ok
    ensures budget == 0 ==> ok == (q.maxsize <= 0 || |pending| < q.maxsize)
  {
    got, k := CatchUp(q, budget, pending);
    ok := q.TryPut(Data(x));
    DatasAppend(pending[k..], if ok then [x] else []);
  }

  /** `producer`: for each item, a put that either succeeds ("put") or times
      out on a full queue ("Queue full!"); the consumer's gets while the put
      is pending are interleaved as `patience` says. Afterwards the sentinel
      is put without a timeout, once the consumer has made room. */
  method Producer(q: BoundedQueue, items: seq<string>, patience: nat -> nat)
    returns (plog: seq<ProducerEvent>, early: seq<ConsumerEvent>, ghost consumed: seq<string>, ghost pending: seq<string>)
    requires q.Valid() && q.items == [] && q.history == []
    modifies q
    ensures q.Valid()
    ensures |plog| == |items| && forall i :: 0 <= i < |items| ==> plog[i].item == items[i]
    ensures Accepted(plog) == consumed + pending
    ensures early == Gots(consumed)
    ensures q.items == Datas(pending) + [Sentinel]
    ensures q.history == Datas(Accepted(plog)) + [Sentinel]
    ensures q.maxsize <= 0 ==> forall i :: 0 <= i < |plog| ==> plog[i].Put?
    ensures Stalled(patience) ==>
      forall i :: 0 <= i < |plog| ==> (plog[i].Put? <==> q.maxsize <= 0 || i < q.maxsize)
  {
    plog, early, consumed, pending := [], [], [], [];
    for i := 0 to |items|
      invariant q.Valid()
      invariant |plog| == i && forall j :: 0 <= j < i ==> plog[j].item == items[j]
      invariant Accepted(plog) == consumed + pending
      invariant early == Gots(consumed)
      invariant q.items == Datas(pending)
      invariant q.history == Datas(Accepted(plog))
      invariant q.maxsize <= 0 ==> forall j :: 0 <= j < i ==> plog[j].Put?
      invariant Stalled(patience) ==>
        && |pending| == (if q.maxsize <= 0 || i < q.maxsize then i else q.maxsize)
        && forall j :: 0 <= j < i ==> (plog[j].Put? <==> q.maxsize <= 0 || j < q.maxsize)
    {
      var got, ok, k := Offer(q, items[i], patience(i), pending);
      var added := if ok then [items[i]] else [];
      var event := if ok then Put(items[i]) else QueueFull(items[i]);
      AcceptedSnoc(plog, event);
      GotsAppend(consumed, pending[..k]);
      DatasAppend(Accepted(plog), added);
      assert pending == pending[..k] + pending[k..];
      early, consumed, pending := early + got, consumed + pending[..k], pending[k..] + added;
      plog := plog + [event];
    }
    if q.Full() {
      var e := ConsumeOne(q);
      assert pending == [pending[0]] + pending[1..];
      GotsAppend(consumed, [pending[0]]);
      early, consumed, pending := early + [e], consumed + [pending[0]], pending[1..];
    }
    q.Put(Sentinel);
  }

  /** An item is accepted exactly when some event of the log put it. */
  lemma {:induction false} AcceptedMembers(log: seq<ProducerEvent>, x: string)
    ensures x in Accepted(log) <==> exists i :: 0 <= i < |log| && log[i] == Put(x)
  {
    if log != [] {
      var init := log[..|log| - 1];
      AcceptedMembers(init, x);
      if x in Accepted(log) && x !in Accepted(init) {
        assert log[|log| - 1] == Put(x);
      }
      if exists i :: 0 <= i < |log| && log[i] == Put(x) {
        var i :| 0 <= i < |log| && log[i] == Put(x);
        if i < |log| - 1 {
          assert init[i] == Put(x);
        }
      }
    }
  }

  /** With distinct items, an item whose put timed out ("Queue full!") is
      never printed by the consumer. */
  lemma DroppedNeverConsumed(log: seq<ProducerEvent>, i: int)
    requires 0 <= i < |log| && log[i].QueueFull?
    requires forall j, k :: 0 <= j < k < |log| ==> log[j].item != log[k].item
    ensures Got(log[i].item) !in Gots(Accepted(log))
  {
    AcceptedMembers(log, log[i].item);
  }

  /** The consumer, given the queue the producer leaves behind, takes
      exactly the pending items and stops at the sentinel. */
  lemma {:induction false} UntilSentinelOfDatas(pending: seq<string>, rest: seq<Item>)
    ensures UntilSentinel(Datas(pending) + [Sentinel] + rest) == pending
  {
    if pending != [] {
      assert (Datas(pending) + [Sentinel] + rest)[1..] == Datas(pending[1..]) + [Sentinel] + rest;
      UntilSentinelOfDatas(pending[1..], rest);
    } else {
      assert Datas(pending) + [Sentinel] + rest == [Sentinel] + rest;
    }
  }

  /** `run_demo`: a fresh queue of `queueMaxsize`, the given items or
      msg1..msg7, producer then the rest of the consumer. Each item gets
      exactly one of "put" and "Queue full!"; the consumer logs exactly the
      items that were put, in put order, then stops at the sentinel. With no
      bound nothing is dropped; with a consumer that takes nothing while the
      producer runs, exactly the first `queueMaxsize` items get in. */
  method RunDemo(items: Option<seq<string>>, queueMaxsize: int, patience: nat -> nat)
    returns (plog: seq<ProducerEvent>, clog: seq<ConsumerEvent>)
    ensures var sent := if items.Some? then items.value else DefaultItems;
      |plog| == |sent| && forall i :: 0 <= i < |sent| ==> plog[i].item == sent[i]
    ensures clog == Gots(Accepted(plog)) + [Terminated]
    ensures queueMaxsize <= 0 ==> forall i :: 0 <= i < |plog| ==> plog[i].Put?
    ensures Stalled(patience) ==>
      forall i :: 0 <= i < |plog| ==> (plog[i].Put? <==> queueMaxsize <= 0 || i < queueMaxsize)
  {
    var sent := if items.Some? then items.value else DefaultItems;
    var q := new BoundedQueue(queueMaxsize);
    var early;
    ghost var consumed, pending;
    plog, early, consumed, pending := Producer(q, sent, patience);
    UntilSentinelOfDatas(pending, []);
    assert Datas(pending) + [Sentinel] + [] == q.items;
    var rest := Consumer(q);
    GotsAppend(consumed, pending);
    clog := early + rest;
  }
}
