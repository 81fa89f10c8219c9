/** The shared-memory demo (shared_memory_sim.py): an 8-byte region holding
    one signed 64-bit integer packed with `struct` format `'q'`, a writer
    that stores `start_value + i` for `i < iterations` and a reader that
    loads the cell `iterations` times.

    In the lock variant every store and every load is one critical section,
    so a run is a sequence of atomic steps; which process wins the lock each
    time is the `schedule` parameter. The no-lock variant is a genuine data
    race and is modelled only by the values its writer produces. */
module SharedMemorySim {
  import opened Wrappers

  newtype byte = x: int | 0 <= x < 256

  /** `SHM_SIZE`: room for one 64-bit integer. */
  const ShmSize: nat := 8

  const Two64: int := 0x1_0000_0000_0000_0000
  const Int64Limit: int := 0x8000_0000_0000_0000

  /** The values `struct.pack('q', v)` accepts. */
  predicate IsInt64(v: int)
  {
    -Int64Limit <= v < Int64Limit
  }

  function Pow256(n: nat): (r: nat)
    ensures r > 0
  {
    if n == 0 then 1 else 256 * Pow256(n - 1)
  }

  /** The `n` low-order base-256 digits of `u`, least significant first. */
  function ToBytes(u: nat, n: nat): (r: seq<byte>)
    ensures |r| == n
  {
    if n == 0 then [] else [(u % 256) as byte] + ToBytes(u / 256, n - 1)
  }

  /** The number whose base-256 digits, least significant first, are `b`. */
  function FromBytes(b: seq<byte>): (u: nat)
    ensures u < Pow256(|b|)
  {
    if b == [] then 0 else b[0] as nat + 256 * FromBytes(b[1..])
  }

  lemma {:induction false} FromBytesToBytes(u: nat, n: nat)
    requires u < Pow256(n)
    ensures FromBytes(ToBytes(u, n)) == u
  {
    if n > 0 {
      FromBytesToBytes(u / 256, n - 1);
      assert ToBytes(u, n)[1..] == ToBytes(u / 256, n - 1);
    }
  }

  lemma {:induction false} ToBytesFromBytes(b: seq<byte>)
    ensures ToBytes(FromBytes(b), |b|) == b
  {
    if b != [] {
      ToBytesFromBytes(b[1..]);
      assert FromBytes(b) / 256 == FromBytes(b[1..]);
    }
  }

  /** `struct.pack('q', v)`: two's complement in 8 bytes, little-endian. */
  function Pack(v: int): (r: seq<byte>)
    requires IsInt64(v)
    ensures |r| == ShmSize
  {
    ToBytes(if v < 0 then v + Two64 else v, ShmSize)
  }

  /** `struct.unpack('q', raw)[0]` on 8 bytes. */
  function Unpack(b: seq<byte>): (v: int)
    requires |b| == ShmSize
    ensures IsInt64(v)
  {
    assert Pow256(ShmSize) == Two64;
    var u := FromBytes(b);
    if u < Int64Limit then u else u - Two64
  }

  /** Decoding an encoded value returns it. */
  lemma UnpackPack(v: int)
    requires IsInt64(v)
    ensures Unpack(Pack(v)) == v
  {
    assert Pow256(ShmSize) == Two64;
    FromBytesToBytes(if v < 0 then v + Two64 else v, ShmSize);
  }

  /** Every 8-byte pattern is the encoding of the value it decodes to. */
  lemma PackUnpack(b: seq<byte>)
    requires |b| == ShmSize
    ensures Pack(Unpack(b)) == b
  {
    assert Pow256(ShmSize) == Two64;
    ToBytesFromBytes(b);
  }

  /** The encoding of 0 is eight zero bytes, the state a fresh region is
      in, so the initial `pack('q', 0)` leaves it unchanged. */
  lemma PackZero()
    ensures Pack(0) == seq(ShmSize, _ => 0 as byte)
  {
    ZeroBytes(ShmSize);
  }

  lemma {:induction false} ZeroBytes(n: nat)
    ensures ToBytes(0, n) == seq(n, _ => 0 as byte)
  {
    if n > 0 {
      ZeroBytes(n - 1);
    }
  }

  /** A named shared-memory block: its bytes, the number of open handles
      (`SharedMemory` objects not yet closed) and whether the name still
      exists. */
  class Region {
    const buf: array<byte>
    var handles: nat
    var linked: bool

    /** `SharedMemory(create=True, size=SHM_SIZE)`: a fresh zero-filled
        block with one handle, the creator's. */
    constructor Create()
      ensures fresh(buf) && buf.Length == ShmSize
      ensures buf[..] == seq(ShmSize, _ => 0 as byte)
      ensures handles == 1 && linked
    {
      buf := new byte[ShmSize](_ => 0 as byte);
      handles, linked := 1, true;
    }

    /** `SharedMemory(name=name)` in a worker: one more handle. */
    method Attach()
      requires linked
      modifies this
      ensures handles == old(handles) + 1 && linked
    {
      handles := handles + 1;
    }

    /** `shm.close()`: one handle fewer; the bytes stay. */
    method Close()
      requires handles > 0
      modifies this
      ensures handles == old(handles) - 1 && linked == old(linked)
    {
      handles := handles - 1;
    }

    /** `shm.unlink()`: the name is removed; a second unlink is an error. */
    method Unlink()
      requires linked
      modifies this
      ensures !linked && handles == old(handles)
    {
      linked := false;
    }

    /** `shm.buf[:8] = struct.pack('q', v)`, byte by byte. */
    method Store(v: int)
      requires buf.Length == ShmSize && handles > 0 && IsInt64(v)
      modifies buf
      ensures buf[..] == Pack(v)
    {
      var p := Pack(v);
      for i := 0 to ShmSize
        invariant buf[..i] == p[..i]
      {
        buf[i] := p[i];
      }
      assert buf[..] == buf[..ShmSize];
    }

    /** `struct.unpack('q', bytes(shm.buf[:8]))[0]`. */
    method Load() returns (v: int)
      requires buf.Length == ShmSize && handles > 0
      ensures v == Unpack(buf[..]) && IsInt64(v)
    {
      v := Unpack(buf[..]);
    }
  }

  /** Who holds the lock next: the writer's or the reader's critical
      section. */
  datatype Step = WriterTurn | ReaderTurn

  function CountOf(s: seq<Step>, x: Step): (n: nat)
    ensures n <= |s|
  {
    if s == [] then 0 else CountOf(s[..|s| - 1], x) + (if s[|s| - 1] == x then 1 else 0)
  }

  lemma {:induction false} CountOfPrefix(s: seq<Step>, t: nat, x: Step)
    requires t <= |s|
    ensures CountOf(s[..t], x) <= CountOf(s, x)
    decreases |s| - t
  {
    if t < |s| {
      CountOfPrefix(s, t + 1, x);
      assert s[..t + 1][..t] == s[..t];
      assert CountOf(s[..t + 1], x) >= CountOf(s[..t], x);
    } else {
      assert s[..t] == s;
    }
  }

  /** `range(iterations)` runs this many times. */
  function Runs(iterations: int): nat
  {
    if iterations < 0 then 0 else iterations
  }

  /** The values a writer stores: `start_value + i` for `i < n`. */
  function WriterValues(start: int, n: nat): (r: seq<int>)
    ensures |r| == n && forall i :: 0 <= i < n ==> r[i] == start + i
  {
    seq(n, i requires 0 <= i < n => start + i)
  }

  /** The cell after the writer's first `w` critical sections: the
      initial 0, then the most recent value written. */
  function CellAfter(start: int, w: nat): int
  {
    if w == 0 then 0 else start + w - 1
  }

  /** The specification of the locked run: what each reader section sees,
      in order. */
  function Observed(s: seq<Step>, start: int): seq<int>
  {
    if s == [] then []
    else
      var init := s[..|s| - 1];
      Observed(init, start) + (if s[|s| - 1] == ReaderTurn then [CellAfter(start, CountOf(init, WriterTurn))] else [])
  }

  /** The reader performs one load per reader section. */
  lemma {:induction false} ObservedLength(s: seq<Step>, start: int)
    ensures |Observed(s, start)| == CountOf(s, ReaderTurn)
  {
    if s != [] {
      ObservedLength(s[..|s| - 1], start);
    }
  }

  /** Every read returns 0 (nothing written yet) or a value the writer
      wrote, namely the most recent one. */
  lemma {:induction false} ObservedAreWrites(s: seq<Step>, start: int, n: nat, k: int)
    requires CountOf(s, WriterTurn) <= n
    requires 0 <= k < |Observed(s, start)|
    ensures Observed(s, start)[k] == 0 || Observed(s, start)[k] in WriterValues(start, n)
  {
    var init := s[..|s| - 1];
    ObservedLength(init, start);
    if k < |Observed(init, start)| {
      ObservedAreWrites(init, start, n, k);
    } else {
      var w := CountOf(init, WriterTurn);
      if w > 0 {
        assert WriterValues(start, n)[w - 1] == start + w - 1;
      }
    }
  }

  /** The reads of a prefix of the schedule are a prefix of the reads of
      the whole schedule. */
  lemma {:induction false} ObservedPrefix(s: seq<Step>, t: nat, start: int)
    requires t <= |s|
    ensures |Observed(s[..t], start)| <= |Observed(s, start)|
    ensures Observed(s[..t], start) == Observed(s, start)[..|Observed(s[..t], start)|]
    decreases |s| - t
  {
    if t < |s| {
      ObservedPrefix(s, t + 1, start);
      ScheduleStep(s, t, start);
    } else {
      assert s[..t] == s;
    }
  }

  /** The read made in the reader section at position `t` of the schedule
      (the reader's `CountOf(s[..t], ReaderTurn)`-th read) returns the most
      recent value written before it: 0 when no writer section precedes
      position `t`, and otherwise the value of the last writer section
      before it, `start_value + w - 1` for `w` writer sections. */
  lemma ObservedIsLatestWrite(s: seq<Step>, start: int, n: nat, t: nat)
    requires CountOf(s, WriterTurn) <= n
    requires t < |s| && s[t] == ReaderTurn
    ensures CountOf(s[..t], ReaderTurn) < |Observed(s, start)|
    ensures CountOf(s[..t], WriterTurn) == 0 ==> Observed(s, start)[CountOf(s[..t], ReaderTurn)] == 0
    ensures CountOf(s[..t], WriterTurn) > 0 ==>
      CountOf(s[..t], WriterTurn) <= n &&
      Observed(s, start)[CountOf(s[..t], ReaderTurn)] == WriterValues(start, n)[CountOf(s[..t], WriterTurn) - 1]
  {
    ScheduleStep(s, t, start);
    ObservedPrefix(s, t + 1, start);
    ObservedLength(s[..t], start);
    CountOfPrefix(s, t, WriterTurn);
    var r := CountOf(s[..t], ReaderTurn);
    assert Observed(s[..t + 1], start)[r] == CellAfter(start, CountOf(s[..t], WriterTurn));
  }

  /** With a non-negative start (the demos use 0 and 1000), the sequence
      of values the reader observes never decreases. */
  lemma {:induction false} ObservedNonDecreasing(s: seq<Step>, start: int)
    requires start >= 0
    ensures forall j, k :: 0 <= j < k < |Observed(s, start)| ==> Observed(s, start)[j] <= Observed(s, start)[k]
    ensures s != [] ==> forall j :: 0 <= j < |Observed(s, start)| ==> Observed(s, start)[j] <= CellAfter(start, CountOf(s, WriterTurn))
  {
    if s != [] {
      var init := s[..|s| - 1];
      ObservedNonDecreasing(init, start);
      if init != [] {
        assert init[..|init| - 1] == s[..|s| - 2];
      }
      ObservedBelowCell(init, start);
    }
  }

  /** Every value observed so far is at most the current cell. */
  lemma {:induction false} ObservedBelowCell(s: seq<Step>, start: int)
    requires start >= 0
    ensures forall j :: 0 <= j < |Observed(s, start)| ==> Observed(s, start)[j] <= CellAfter(start, CountOf(s, WriterTurn))
  {
    if s != [] {
      var init := s[..|s| - 1];
      ObservedBelowCell(init, start);
    }
  }

  /** One more step of the schedule: the counts and the observations grow
      by what that step does. */
  lemma ScheduleStep(s: seq<Step>, t: nat, start: int)
    requires t < |s|
    ensures CountOf(s[..t + 1], WriterTurn) == CountOf(s[..t], WriterTurn) + (if s[t] == WriterTurn then 1 else 0)
    ensures Observed(s[..t + 1], start) == Observed(s[..t], start)
      + (if s[t] == ReaderTurn then [CellAfter(start, CountOf(s[..t], WriterTurn))] else [])
    ensures CountOf(s[..t + 1], WriterTurn) <= CountOf(s, WriterTurn)
  {
    assert s[..t + 1][..t] == s[..t];
    CountOfPrefix(s, t + 1, WriterTurn);
  }

  /** The parameters of `run_demo`. */
  datatype DemoConfig = DemoConfig(iterations: int, rwDelay: real, useLockDemo: bool)

  /** The writers' `start_value` defaults: 1000 with the lock, 0 without. */
  function WriterStart(useLock: bool): int
  {
    if useLock then 1000 else 0
  }

  /** One critical section of the lock variant, after `w` writer
      sections: the writer stores `1000 + w`, the reader loads the cell. */
  method CriticalSection(region: Region, step: Step, w: nat) returns (val: int)
    requires region.buf.Length == ShmSize && region.handles > 0
    requires Unpack(region.buf[..]) == CellAfter(1000, w)
    requires step == WriterTurn ==> 1000 + w < Int64Limit
    modifies region.buf
    ensures step == WriterTurn ==> val == 1000 + w && Unpack(region.buf[..]) == CellAfter(1000, w + 1)
    ensures step == ReaderTurn ==> val == CellAfter(1000, w) && Unpack(region.buf[..]) == CellAfter(1000, w)
  {
    if step == WriterTurn {
      val := 1000 + w;
      region.Store(val);
      UnpackPack(val);
    } else {
      val := region.Load();
    }
  }

  /** The lock variant after creation: both workers attach, their critical
      sections run in `schedule` order, both close. */
  method LockedWorkers(region: Region, iterations: int, schedule: seq<Step>)
    returns (wrote: seq<int>, read: seq<int>)
    requires region.buf.Length == ShmSize && region.handles == 1 && region.linked
    requires Unpack(region.buf[..]) == 0
    requires CountOf(schedule, WriterTurn) == Runs(iterations) && CountOf(schedule, ReaderTurn) == Runs(iterations)
    requires 1000 + Runs(iterations) <= Int64Limit
    modifies region, region.buf
    ensures region.handles == 1 && region.linked
    ensures wrote == WriterValues(1000, Runs(iterations))
    ensures read == Observed(schedule, 1000)
  {
    region.Attach();
    region.Attach();
    wrote, read := [], [];
    var w := 0;
    for t := 0 to |schedule|
      invariant region.handles == 3 && region.linked
      invariant w == CountOf(schedule[..t], WriterTurn) && w <= Runs(iterations)
      invariant wrote == WriterValues(1000, w)
      invariant read == Observed(schedule[..t], 1000)
      invariant Unpack(region.buf[..]) == CellAfter(1000, w)
    {
      ScheduleStep(schedule, t, 1000);
      var val := CriticalSection(region, schedule[t], w);
      if schedule[t] == WriterTurn {
        wrote := wrote + [val];
        w := w + 1;
      } else {
        read := read + [val];
      }
    }
    assert schedule[..|schedule|] == schedule;
    region.Close();
    region.Close();
  }

  /** `writer_no_lock`: attach, store `start_value + i` for each
      iteration, close. Alone in the cell, it leaves the last value it
      stored there (the initial 0 when it stores nothing). The racing
      no-lock reader is not modelled. */
  method NoLockWriter(region: Region, iterations: int, start: int)
    returns (wrote: seq<int>)
    requires region.buf.Length == ShmSize && region.handles == 1 && region.linked
    requires Unpack(region.buf[..]) == 0
    requires 0 <= start && start + Runs(iterations) <= Int64Limit
    modifies region, region.buf
    ensures region.handles == 1 && region.linked
    ensures wrote == WriterValues(start, Runs(iterations))
    ensures Unpack(region.buf[..]) == CellAfter(start, Runs(iterations))
  {
    region.Attach();
    wrote := [];
    for i := 0 to Runs(iterations)
      invariant region.handles == 2 && region.linked
      invariant wrote == WriterValues(start, i)
      invariant Unpack(region.buf[..]) == CellAfter(start, i)
    {
      var val := start + i;
      region.Store(val);
      UnpackPack(val);
      wrote := wrote + [val];
    }
    region.Close();
  }

  /** `run_demo`: create the region and store 0 in it, run the workers,
      then close and unlink it. With the lock, the writer stores 1000,
      1001, ... and the reader sees exactly what the schedule says, a
      non-decreasing sequence of `iterations` values, each read returning
      the last value written before it (0 before the first write). Without
      the lock the writer stores 0, 1, ... and the racing reader's values
      are not modelled (`read` is `None`). Either way the creator's handle is
      closed and the name unlinked at the end. */
  method RunDemo(iterations: int, useLockDemo: bool, schedule: seq<Step>)
    returns (wrote: seq<int>, read: Option<seq<int>>, region: Region)
    requires useLockDemo ==> CountOf(schedule, WriterTurn) == Runs(iterations) && CountOf(schedule, ReaderTurn) == Runs(iterations)
    requires 1000 + Runs(iterations) <= Int64Limit
    ensures wrote == WriterValues(WriterStart(useLockDemo), Runs(iterations))
    ensures useLockDemo ==> read == Some(Observed(schedule, 1000))
    ensures useLockDemo ==> |read.value| == Runs(iterations)
    ensures useLockDemo ==> forall k :: 0 <= k < |read.value| ==> read.value[k] == 0 || read.value[k] in wrote
    ensures useLockDemo ==> forall t :: 0 <= t < |schedule| && schedule[t] == ReaderTurn ==>
      CountOf(schedule[..t], ReaderTurn) < |read.value|
    ensures useLockDemo ==> forall t :: 0 <= t < |schedule| && schedule[t] == ReaderTurn && CountOf(schedule[..t], WriterTurn) == 0 ==>
      read.value[CountOf(schedule[..t], ReaderTurn)] == 0
    ensures useLockDemo ==> forall t :: 0 <= t < |schedule| && schedule[t] == ReaderTurn && CountOf(schedule[..t], WriterTurn) > 0 ==>
      CountOf(schedule[..t], WriterTurn) <= |wrote| &&
      read.value[CountOf(schedule[..t], ReaderTurn)] == wrote[CountOf(schedule[..t], WriterTurn) - 1]
    ensures !useLockDemo ==> region.buf.Length == ShmSize && Unpack(region.buf[..]) == CellAfter(0, Runs(iterations))
    ensures !useLockDemo ==> read == None
    ensures region.handles == 0 && !region.linked && region.buf.Length == ShmSize
  {
    region := new Region.Create();
    PackZero();
    region.Store(0);
    UnpackPack(0);
    if useLockDemo {
      var seen;
      wrote, seen := LockedWorkers(region, iterations, schedule);
      read := Some(seen);
      ObservedLength(schedule, 1000);
      forall k | 0 <= k < |seen| ensures seen[k] == 0 || seen[k] in wrote {
        ObservedAreWrites(schedule, 1000, Runs(iterations), k);
      }
      forall t | 0 <= t < |schedule| && schedule[t] == ReaderTurn
        ensures CountOf(schedule[..t], ReaderTurn) < |seen|
        ensures CountOf(schedule[..t], WriterTurn) == 0 ==> seen[CountOf(schedule[..t], ReaderTurn)] == 0
        ensures CountOf(schedule[..t], WriterTurn) > 0 ==>
          CountOf(schedule[..t], WriterTurn) <= |wrote| &&
          seen[CountOf(schedule[..t], ReaderTurn)] == wrote[CountOf(schedule[..t], WriterTurn) - 1]
      {
        ObservedIsLatestWrite(schedule, 1000, Runs(iterations), t);
      }
    } else {
      wrote := NoLockWriter(region, iterations, 0);
      read := None;
    }
    region.Close();
    region.Unlink();
  }
}
