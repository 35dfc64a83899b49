/** The buffer engine of `useBufferManager` as values: two active buffers
    whose `isActive` flags alternate, one staging overflow buffer, the health
    snapshot, and the step functions that `addChunk`, `removeChunk`,
    `swapBuffers`, `switchActiveBuffers`, `updateBufferHealth`, `initialize`
    and `controlPlayback` perform. The class in module UseBufferManager is
    proved to perform exactly these steps. The decode sink is a presence flag,
    an `updating` input and a log of the chunks handed to it; the two
    callbacks are a log of events. */
module BufferModel {
  import opened Bytes

  const MB: nat := 1024 * 1024
  /** Capacity of each active buffer. */
  const ActiveSize: nat := 15 * MB
  /** The current buffer must hold this much for the state to be READY. */
  const ReadySize: nat := 10 * MB
  /** Capacity of the staging buffer. */
  const StagingSize: nat := 45 * MB
  /** At or below this total, every health update reports "buffer low". */
  const LowThreshold: nat := 45 * MB
  /** The timeout every buffer operation passes to `acquire`. */
  const MutexTimeoutMs: nat := 1000
  /** Period of the consumption tick started by `controlPlayback(true)`. */
  const TickPeriodMs: nat := 1000

  /** A chunk as a buffer stores it: `{size, data}`. */
  datatype Chunk = Chunk(size: nat, data: seq<byte>)

  /** What callers hand to `addChunk`; the sequence number is not stored. */
  datatype ChunkIn = ChunkIn(sequence: nat, size: nat, data: seq<byte>)

  /** A buffer: its chunk list and its `metadata.size` counter. */
  datatype Buf = Buf(chunks: seq<Chunk>, size: int)

  datatype Phase = Uninitialized | Initialized | Buffering | Ready | Error

  /** The health snapshot, without the floating-point `fullness` fields. */
  datatype Health = Health(state: Phase, sizeA: int, isActiveA: bool, sizeB: int, isActiveB: bool,
                           stagingSize: int, availableSpace: int)

  /** Which callbacks `initialize` was given. */
  datatype Options = Options(onBufferLow: bool, onReadyForPlayback: bool)

  /** A callback invocation: `onReadyForPlayback()` or `onBufferLow({availableSpace})`. */
  datatype Event = ReadyForPlayback | BufferLow(availableSpace: int)

  datatype Engine = Engine(
    a: Buf, aActive: bool,
    b: Buf, bActive: bool,
    staging: Buf,
    isSwapping: bool,
    health: Health,
    hasSink: bool,
    options: Options,
    isPlaying: bool,
    ticking: bool,
    delivered: seq<Chunk>,
    events: seq<Event>)

  datatype Slot = SlotA | SlotB | SlotStaging

  // ---------------------------------------------------------------------
  // Accounting

  function Sum(cs: seq<Chunk>): nat
  {
    if cs == [] then 0 else cs[0].size + Sum(cs[1..])
  }

  lemma {:induction false} SumAppend(xs: seq<Chunk>, ys: seq<Chunk>)
    ensures Sum(xs + ys) == Sum(xs) + Sum(ys)
  {
    if xs == [] {
      assert xs + ys == ys;
    } else {
      SumAppend(xs[1..], ys);
      assert (xs + ys)[1..] == xs[1..] + ys;
    }
  }

  lemma SumSplit(cs: seq<Chunk>, k: nat)
    requires k <= |cs|
    ensures Sum(cs) == Sum(cs[..k]) + Sum(cs[k..])
  {
    SumAppend(cs[..k], cs[k..]);
    assert cs[..k] + cs[k..] == cs;
  }

  lemma SumSnoc(cs: seq<Chunk>, c: Chunk)
    ensures Sum(cs + [c]) == Sum(cs) + c.size
  {
    SumAppend(cs, [c]);
  }

  /** A buffer's size counter equals the sizes of its chunks. */
  predicate Accounted(buf: Buf) { buf.size == Sum(buf.chunks) }

  function TotalSize(e: Engine): int { e.a.size + e.b.size + e.staging.size }

  /** Every byte ever accepted is either still buffered or was delivered. */
  function Stored(e: Engine): int { TotalSize(e) + Sum(e.delivered) }

  /** The engine invariant: counters match contents, exactly one active
      buffer is current, and staging never exceeds its capacity. */
  ghost predicate Inv(e: Engine)
  {
    && Accounted(e.a) && Accounted(e.b) && Accounted(e.staging)
    && e.aActive != e.bActive
    && e.staging.size <= StagingSize
  }

  // ---------------------------------------------------------------------
  // Buffers by role

  function CurrentSlot(e: Engine): Slot { if e.aActive then SlotA else SlotB }
  function StandbySlot(e: Engine): Slot { if e.aActive then SlotB else SlotA }

  function Get(e: Engine, s: Slot): Buf
  {
    match s
    case SlotA => e.a
    case SlotB => e.b
    case SlotStaging => e.staging
  }

  function Put(e: Engine, s: Slot, buf: Buf): (r: Engine)
    ensures Get(r, s) == buf
    ensures forall t :: t != s ==> Get(r, t) == Get(e, t)
    ensures r.aActive == e.aActive && r.bActive == e.bActive && r.delivered == e.delivered
    ensures r.isSwapping == e.isSwapping && r.health == e.health && r.events == e.events
    ensures r.options == e.options && r.isPlaying == e.isPlaying && r.hasSink == e.hasSink
    ensures r.ticking == e.ticking
  {
    match s
    case SlotA => e.(a := buf)
    case SlotB => e.(b := buf)
    case SlotStaging => e.(staging := buf)
  }

  function Current(e: Engine): Buf { Get(e, CurrentSlot(e)) }
  function Standby(e: Engine): Buf { Get(e, StandbySlot(e)) }

  function Capacity(s: Slot): nat { if s == SlotStaging then StagingSize else ActiveSize }

  function Min(x: int, y: int): int { if x <= y then x else y }

  /** Replacing one buffer changes the stored total by the difference in its
      counter and keeps the invariant when the new buffer is accounted. */
  lemma PutConserves(e: Engine, s: Slot, buf: Buf)
    requires Inv(e) && Accounted(buf)
    requires s == SlotStaging ==> buf.size <= StagingSize
    ensures Inv(Put(e, s, buf))
    ensures Stored(Put(e, s, buf)) == Stored(e) - Get(e, s).size + buf.size
  {
    var r := Put(e, s, buf);
    assert Get(r, SlotA) == r.a && Get(r, SlotB) == r.b && Get(r, SlotStaging) == r.staging;
  }

  // ---------------------------------------------------------------------
  // Steps

  /** The state right after the hook is created. */
  function Initial(): Engine
  {
    Engine(Buf([], 0), true, Buf([], 0), false, Buf([], 0), false,
           Health(Uninitialized, 0, true, 0, false, 0, ActiveSize + StagingSize),
           false, Options(false, false), false, false, [], [])
  }

  /** `initialize(sourceBuffer, options)`: bind the sink and the callbacks;
      the health state becomes INITIALIZED whatever it was. */
  function Initialize(e: Engine, sinkPresent: bool, options: Options): Engine
  {
    e.(hasSink := sinkPresent, options := options, health := e.health.(state := Initialized))
  }

  /** The `newHealth` record `updateBufferHealth` computes. */
  function HealthOf(e: Engine): Health
  {
    Health(if Current(e).size >= ReadySize then Ready else Buffering,
           e.a.size, e.aActive, e.b.size, e.bActive, e.staging.size,
           ActiveSize - Standby(e).size + StagingSize - e.staging.size)
  }

  /** `updateBufferHealth`: ready fires on the rising edge only, low fires on
      every update at or below the threshold; then the snapshot is stored. */
  function UpdateHealth(e: Engine): Engine
  {
    var h := HealthOf(e);
    var ready := if h.state == Ready && e.health.state != Ready && e.options.onReadyForPlayback
                 then [ReadyForPlayback] else [];
    var low := if TotalSize(e) <= LowThreshold && e.options.onBufferLow
               then [BufferLow(h.availableSpace)] else [];
    e.(health := h, events := e.events + ready + low)
  }

  /** The three-tier placement rule of `addChunk`. */
  function TargetSlot(e: Engine): Slot
  {
    if Current(e).size < ReadySize then CurrentSlot(e)
    else if Standby(e).size < ActiveSize then StandbySlot(e)
    else SlotStaging
  }

  predicate Accepts(e: Engine, c: ChunkIn)
  {
    Get(e, TargetSlot(e)).size + c.size <= Capacity(TargetSlot(e))
  }

  /** `addChunk`: append `{size, data}` to the target if it fits, else drop
      the chunk silently (no other buffer is tried). */
  function AddChunk(e: Engine, c: ChunkIn): Engine
  {
    var t := TargetSlot(e);
    var buf := Get(e, t);
    if Accepts(e, c) then UpdateHealth(Put(e, t, Buf(buf.chunks + [Chunk(c.size, c.data)], buf.size + c.size)))
    else e
  }

  /** How many chunks the `swapBuffers` loop shifts off the head of `cs`
      while the moved total stays below `budget`. */
  function MoveCount(cs: seq<Chunk>, budget: int): (k: nat)
    ensures k <= |cs|
  {
    if cs == [] || budget <= 0 then 0 else 1 + MoveCount(cs[1..], budget - cs[0].size)
  }

  /** `swapBuffers`: refill standby from the head of staging, in order. */
  function Swap(e: Engine): Engine
  {
    if e.isSwapping || e.staging.chunks == [] then e
    else
      var standby := Standby(e);
      var transferSize := Min(ActiveSize - standby.size, e.staging.size);
      if transferSize <= 0 then e
      else
        var k := MoveCount(e.staging.chunks, transferSize);
        var moved := e.staging.chunks[..k];
        var m := Sum(moved);
        var e1 := Put(e, SlotStaging, Buf(e.staging.chunks[k..], e.staging.size - m));
        UpdateHealth(Put(e1, StandbySlot(e), Buf(standby.chunks + moved, standby.size + m)))
  }

  /** `after` is `e` with the first `k` chunks of staging moved, in order,
      to the end of standby, and nothing else changed. */
  ghost predicate Refilled(e: Engine, k: nat, after: Engine)
  {
    && k <= |e.staging.chunks|
    && after == e.(a := after.a, b := after.b, staging := after.staging)
    && after.staging == Buf(e.staging.chunks[k..], e.staging.size - Sum(e.staging.chunks[..k]))
    && Get(after, StandbySlot(e))
       == Buf(Standby(e).chunks + e.staging.chunks[..k], Standby(e).size + Sum(e.staging.chunks[..k]))
    && Get(after, CurrentSlot(e)) == Current(e)
  }

  /** When `Swap` does anything, it is the health update of the refill by
      the loop's count. */
  lemma SwapIsRefill(e: Engine, k: nat, after: Engine)
    requires !e.isSwapping && e.staging.chunks != []
    requires Min(ActiveSize - Standby(e).size, e.staging.size) > 0
    requires k == MoveCount(e.staging.chunks, Min(ActiveSize - Standby(e).size, e.staging.size))
    requires Refilled(e, k, after)
    ensures Swap(e) == UpdateHealth(after)
  {
    var e1 := Put(e, SlotStaging, after.staging);
    var e2 := Put(e1, StandbySlot(e), Get(after, StandbySlot(e)));
    assert Swap(e) == UpdateHealth(e2);
    if e.aActive {
      assert e2 == e.(b := after.b, staging := after.staging);
    } else {
      assert e2 == e.(a := after.a, staging := after.staging);
    }
    assert e2 == after;
  }

  /** A refill keeps the invariant and moves bytes without creating or
      losing any. */
  lemma RefillConserves(e: Engine, k: nat, after: Engine)
    requires Inv(e) && Refilled(e, k, after)
    ensures Inv(after) && Stored(after) == Stored(e)
  {
    var cs := e.staging.chunks;
    SumSplit(cs, k);
    SumAppend(Standby(e).chunks, cs[..k]);
  }

  /** `switchActiveBuffers`: flip both flags, refill the buffer that just
      stopped being current if it is below capacity, update health. */
  function Switch(e: Engine): Engine
  {
    var e1 := e.(aActive := !e.aActive, bActive := !e.bActive);
    var e2 := if Standby(e1).size < ActiveSize then Swap(e1) else e1;
    UpdateHealth(e2)
  }

  /** Hand the head of the current buffer to the sink and drop it from the buffer. */
  function PopCurrent(e: Engine): Engine
  {
    var cur := Current(e);
    if cur.chunks == [] then e
    else
      var c := cur.chunks[0];
      UpdateHealth(Put(e.(delivered := e.delivered + [c]), CurrentSlot(e), Buf(cur.chunks[1..], cur.size - c.size)))
  }

  /** `removeChunk`, one consumption tick's work. */
  function RemoveChunk(e: Engine, sinkUpdating: bool): Engine
  {
    if !e.isPlaying || !e.hasSink || sinkUpdating then e
    else if Current(e).chunks == [] then
      if Standby(e).size == 0 then e else PopCurrent(Switch(e))
    else PopCurrent(e)
  }

  /** `controlPlayback(shouldPlay)`: set the playing flag, clear any tick,
      start a new one when playing. */
  function ControlPlayback(e: Engine, shouldPlay: bool): Engine
  {
    e.(isPlaying := shouldPlay, ticking := shouldPlay)
  }

  /** One firing of the consumption interval, if it is running. */
  function Tick(e: Engine, sinkUpdating: bool): Engine
  {
    if e.ticking then RemoveChunk(e, sinkUpdating) else e
  }

  // ---------------------------------------------------------------------
  // Flags

  /** Exactly one active buffer is current at the start... */
  lemma InitialInv()
    ensures Inv(Initial())
    ensures Initial().aActive && !Initial().bActive
  {
  }

  /** ...and a switch flips both flags, so exactly one stays current. */
  lemma SwitchFlipsFlags(e: Engine)
    requires Inv(e)
    ensures Switch(e).aActive == !e.aActive && Switch(e).bActive == !e.bActive
    ensures Switch(e).aActive != Switch(e).bActive
  {
    var e1 := e.(aActive := !e.aActive, bActive := !e.bActive);
    SwapKeepsFlags(e1);
  }

  lemma SwapKeepsFlags(e: Engine)
    ensures Swap(e).aActive == e.aActive && Swap(e).bActive == e.bActive
    ensures Swap(e).isPlaying == e.isPlaying && Swap(e).hasSink == e.hasSink
    ensures Swap(e).delivered == e.delivered && Swap(e).options == e.options
  {
  }

  // ---------------------------------------------------------------------
  // addChunk

  /** Placement: current below the ready threshold, else standby below its
      capacity, else staging. */
  lemma TargetRule(e: Engine)
    ensures Current(e).size < ReadySize ==> TargetSlot(e) == CurrentSlot(e)
    ensures Current(e).size >= ReadySize && Standby(e).size < ActiveSize ==> TargetSlot(e) == StandbySlot(e)
    ensures Current(e).size >= ReadySize && Standby(e).size >= ActiveSize ==> TargetSlot(e) == SlotStaging
    ensures TargetSlot(e) != SlotStaging ==> Capacity(TargetSlot(e)) == ActiveSize
  {
  }

  /** An accepted chunk is appended at the tail of the target and counted;
      the other two buffers are untouched. A rejected one changes nothing. */
  lemma AddChunkEffect(e: Engine, c: ChunkIn)
    ensures var r := AddChunk(e, c); var t := TargetSlot(e);
      && (Accepts(e, c) ==>
            && Get(r, t) == Buf(Get(e, t).chunks + [Chunk(c.size, c.data)], Get(e, t).size + c.size)
            && (forall s :: s != t ==> Get(r, s) == Get(e, s))
            && r.aActive == e.aActive && r.delivered == e.delivered)
      && (!Accepts(e, c) ==> r == e)
  {
  }

  /** Accepting a chunk adds exactly its size to what is stored; a dropped
      chunk adds nothing. */
  lemma AddChunkConserves(e: Engine, c: ChunkIn)
    requires Inv(e)
    ensures Inv(AddChunk(e, c))
    ensures Stored(AddChunk(e, c)) == Stored(e) + (if Accepts(e, c) then c.size else 0)
  {
    if Accepts(e, c) {
      var t := TargetSlot(e);
      var after := Put(e, t, Buf(Get(e, t).chunks + [Chunk(c.size, c.data)], Get(e, t).size + c.size));
      AddChunkAccepted(e, c, after);
      UpdateHealthConserves(after);
    }
  }

  /** An accepted chunk is appended to the target, which keeps the
      invariant and stores its bytes, and `AddChunk` is the health update
      of that engine. */
  lemma AddChunkAccepted(e: Engine, c: ChunkIn, after: Engine)
    requires Inv(e) && Accepts(e, c)
    requires after == Put(e, TargetSlot(e), Buf(Get(e, TargetSlot(e)).chunks + [Chunk(c.size, c.data)],
                                                 Get(e, TargetSlot(e)).size + c.size))
    ensures Inv(after) && Stored(after) == Stored(e) + c.size
    ensures AddChunk(e, c) == UpdateHealth(after)
  {
    var t := TargetSlot(e);
    var nb := Buf(Get(e, t).chunks + [Chunk(c.size, c.data)], Get(e, t).size + c.size);
    SumSnoc(Get(e, t).chunks, Chunk(c.size, c.data));
    PutConserves(e, t, nb);
    AddChunkIsAppend(e, c, after);
  }

  lemma AddChunkIsAppend(e: Engine, c: ChunkIn, after: Engine)
    requires Accepts(e, c)
    requires after == Put(e, TargetSlot(e), Buf(Get(e, TargetSlot(e)).chunks + [Chunk(c.size, c.data)],
                                                 Get(e, TargetSlot(e)).size + c.size))
    ensures AddChunk(e, c) == UpdateHealth(after)
  {
  }

  /** With both active buffers and staging full, a non-empty chunk is dropped
      and the reported available space is zero. */
  lemma FullEngineDropsChunk(e: Engine, c: ChunkIn)
    requires Current(e).size == ActiveSize && Standby(e).size == ActiveSize
    requires e.staging.size == StagingSize && c.size > 0
    ensures AddChunk(e, c) == e
    ensures HealthOf(e).availableSpace == 0
  {
  }

  // ---------------------------------------------------------------------
  // swapBuffers

  /** The swap loop stops at the first prefix whose total reaches the budget,
      or when staging runs out; every shorter prefix stays below the budget,
      so the move overshoots by less than its last chunk. */
  lemma {:induction false} MoveCountBounds(cs: seq<Chunk>, budget: int)
    ensures var k := MoveCount(cs, budget);
      && (k == |cs| || Sum(cs[..k]) >= budget)
      && (k > 0 ==> budget > 0 && Sum(cs[..k - 1]) < budget)
  {
    var k := MoveCount(cs, budget);
    if cs != [] && budget > 0 {
      var rest := cs[1..];
      var b' := budget - cs[0].size;
      MoveCountBounds(rest, b');
      var k' := MoveCount(rest, b');
      assert k == k' + 1;
      assert cs[..k] == [cs[0]] + rest[..k'];
      assert Sum(cs[..k]) == cs[0].size + Sum(rest[..k']);
      if k' > 0 {
        assert cs[..k - 1] == [cs[0]] + rest[..k' - 1];
        assert Sum(cs[..k - 1]) == cs[0].size + Sum(rest[..k' - 1]);
      } else {
        assert cs[..k - 1] == [];
      }
    }
  }

  /** What a swap that does run does: whole chunks move from the head of
      staging to the tail of standby in order, standby + staging is
      conserved, the moved total reaches min(room in standby, staging size),
      and it exceeds the room by less than one chunk. */
  lemma SwapEffect(e: Engine)
    requires Inv(e)
    requires !e.isSwapping && e.staging.chunks != []
    requires Standby(e).size < ActiveSize && e.staging.size > 0
    ensures var r := Swap(e); var room := ActiveSize - Standby(e).size;
      exists k :: 0 < k <= |e.staging.chunks|
        && Standby(r).chunks == Standby(e).chunks + e.staging.chunks[..k]
        && r.staging.chunks == e.staging.chunks[k..]
        && Standby(r).size + r.staging.size == Standby(e).size + e.staging.size
        && Sum(e.staging.chunks[..k]) >= Min(room, e.staging.size)
        && Sum(e.staging.chunks[..k - 1]) < room
        && Current(r) == Current(e)
  {
    var cs := e.staging.chunks;
    var room := ActiveSize - Standby(e).size;
    var transferSize := Min(room, e.staging.size);
    var k := MoveCount(cs, transferSize);
    MoveCountBounds(cs, transferSize);
    SumSplit(cs, k);
    var moved := cs[..k];
    var e1 := Put(e, SlotStaging, Buf(cs[k..], e.staging.size - Sum(moved)));
    var after := Put(e1, StandbySlot(e), Buf(Standby(e).chunks + moved, Standby(e).size + Sum(moved)));
    assert Refilled(e, k, after);
    SwapIsRefill(e, k, after);
    assert Standby(Swap(e)) == Get(after, StandbySlot(e));
  }

  /** The early returns of `swapBuffers`: a swap already running, an empty
      staging buffer, or no room to transfer leave the engine as it is, with
      no health update. */
  lemma SwapNoop(e: Engine)
    requires e.isSwapping || e.staging.chunks == [] || Min(ActiveSize - Standby(e).size, e.staging.size) <= 0
    ensures Swap(e) == e
  {
  }

  lemma SwapConserves(e: Engine)
    requires Inv(e)
    ensures Inv(Swap(e))
    ensures Stored(Swap(e)) == Stored(e)
  {
    if !e.isSwapping && e.staging.chunks != [] {
      var standby := Standby(e);
      var transferSize := Min(ActiveSize - standby.size, e.staging.size);
      if transferSize > 0 {
        var cs := e.staging.chunks;
        var k := MoveCount(cs, transferSize);
        var m := Sum(cs[..k]);
        var after := Put(Put(e, SlotStaging, Buf(cs[k..], e.staging.size - m)),
                         StandbySlot(e), Buf(standby.chunks + cs[..k], standby.size + m));
        assert Refilled(e, k, after);
        SwapIsRefill(e, k, after);
        RefillConserves(e, k, after);
        UpdateHealthConserves(after);
      }
    }
  }

  // ---------------------------------------------------------------------
  // removeChunk

  lemma SwitchConserves(e: Engine)
    requires Inv(e)
    ensures Inv(Switch(e))
    ensures Stored(Switch(e)) == Stored(e)
    ensures Current(Switch(e)) == Standby(e)
  {
    var e1 := e.(aActive := !e.aActive, bActive := !e.bActive);
    SwapConserves(e1);
    if Standby(e1).size < ActiveSize && !e1.isSwapping && e1.staging.chunks != [] {
      SwapKeepsCurrent(e1);
    }
  }

  lemma SwapKeepsCurrent(e: Engine)
    ensures Current(Swap(e)) == Current(e)
  {
  }

  lemma PopConserves(e: Engine)
    requires Inv(e)
    ensures Inv(PopCurrent(e))
    ensures Stored(PopCurrent(e)) == Stored(e)
  {
    var cur := Current(e);
    if cur.chunks != [] {
      SumSnoc(e.delivered, cur.chunks[0]);
    }
  }

  /** Popping a non-empty current buffer hands its head to the sink; the
      resulting engine keeps the invariant and `PopCurrent` is its health
      update. */
  lemma PopTakesHead(e: Engine, after: Engine)
    requires Inv(e) && Current(e).chunks != []
    requires after == Put(e.(delivered := e.delivered + [Current(e).chunks[0]]), CurrentSlot(e),
                          Buf(Current(e).chunks[1..], Current(e).size - Current(e).chunks[0].size))
    ensures Inv(after) && PopCurrent(e) == UpdateHealth(after)
  {
    var cur := Current(e);
    var c := cur.chunks[0];
    assert cur.chunks == [c] + cur.chunks[1..];
    SumAppend([c], cur.chunks[1..]);
    PutConserves(e.(delivered := e.delivered + [c]), CurrentSlot(e), Buf(cur.chunks[1..], cur.size - c.size));
  }

  /** The branch `removeChunk` takes when it delivers a chunk: straight from
      current, or from current after a switch when current is empty. */
  lemma RemoveChunkPops(e: Engine, sinkUpdating: bool)
    requires e.isPlaying && e.hasSink && !sinkUpdating
    ensures Current(e).chunks != [] ==> RemoveChunk(e, sinkUpdating) == PopCurrent(e)
    ensures Current(e).chunks == [] && Standby(e).size != 0 ==>
      RemoveChunk(e, sinkUpdating) == PopCurrent(Switch(e))
  {
  }

  /** `removeChunk` never creates or loses bytes: what leaves the buffers is
      exactly what reaches the sink. */
  lemma RemoveChunkConserves(e: Engine, sinkUpdating: bool)
    requires Inv(e)
    ensures Inv(RemoveChunk(e, sinkUpdating))
    ensures Stored(RemoveChunk(e, sinkUpdating)) == Stored(e)
  {
    if e.isPlaying && e.hasSink && !sinkUpdating {
      if Current(e).chunks == [] {
        if Standby(e).size != 0 {
          SwitchConserves(e);
          PopConserves(Switch(e));
        }
      } else {
        PopConserves(e);
      }
    }
  }

  /** The cases of `removeChunk`: nothing without playback, a sink, or while
      the sink is updating; nothing when both active buffers are empty by
      size; otherwise the head of current (after a switch when current is
      empty) goes to the sink. */
  lemma RemoveChunkEffect(e: Engine, sinkUpdating: bool)
    requires Inv(e)
    ensures var r := RemoveChunk(e, sinkUpdating);
      && (!e.isPlaying || !e.hasSink || sinkUpdating ==> r == e)
      && (Current(e).chunks == [] && Standby(e).size == 0 ==> r == e)
      && (e.isPlaying && e.hasSink && !sinkUpdating && Current(e).chunks != [] ==>
            && r.delivered == e.delivered + [Current(e).chunks[0]]
            && Current(r).chunks == Current(e).chunks[1..]
            && Current(r).size == Current(e).size - Current(e).chunks[0].size
            && r.aActive == e.aActive)
      && (e.isPlaying && e.hasSink && !sinkUpdating && Current(e).chunks == [] && Standby(e).size != 0 ==>
            && r.aActive == !e.aActive
            && r.delivered == e.delivered + [Standby(e).chunks[0]]
            && Current(r).chunks == Standby(e).chunks[1..])
  {
    if e.isPlaying && e.hasSink && !sinkUpdating && Current(e).chunks == [] && Standby(e).size != 0 {
      SwitchConserves(e);
      SwitchFlipsFlags(e);
      var s := Switch(e);
      assert Current(s) == Standby(e);
      assert Standby(e).chunks != [];
      var e1 := e.(aActive := !e.aActive, bActive := !e.bActive);
      SwapKeepsFlags(e1);
      assert s.delivered == e.delivered;
    }
  }

  // ---------------------------------------------------------------------
  // Health

  /** The snapshot: READY iff current holds at least the ready threshold;
      available space is the room left in standby plus the room in staging. */
  lemma HealthFormula(e: Engine)
    ensures HealthOf(e).state == Ready <==> Current(e).size >= ReadySize
    ensures HealthOf(e).state != Ready ==> HealthOf(e).state == Buffering
    ensures HealthOf(e).availableSpace == (ActiveSize - Standby(e).size) + (StagingSize - e.staging.size)
  {
  }

  /** What one health update fires: `onReadyForPlayback` exactly when the
      snapshot turns READY from another state and the callback is set, and
      `onBufferLow` (as the last event) exactly when the total is at or below
      the threshold and the callback is set; earlier events are kept. */
  lemma UpdateHealthEvents(e: Engine)
    ensures var r := UpdateHealth(e);
      && r.health == HealthOf(e)
      && |r.events| >= |e.events| && r.events[..|e.events|] == e.events
      && (ReadyForPlayback in r.events[|e.events|..] <==>
            HealthOf(e).state == Ready && e.health.state != Ready && e.options.onReadyForPlayback)
      && (TotalSize(e) <= LowThreshold && e.options.onBufferLow <==>
            |r.events| > |e.events| && r.events[|r.events| - 1] == BufferLow(HealthOf(e).availableSpace))
  {
    var r := UpdateHealth(e);
    var h := HealthOf(e);
    var ready: seq<Event> := if h.state == Ready && e.health.state != Ready && e.options.onReadyForPlayback
                             then [ReadyForPlayback] else [];
    var low: seq<Event> := if TotalSize(e) <= LowThreshold && e.options.onBufferLow
                           then [BufferLow(h.availableSpace)] else [];
    assert r.events == e.events + ready + low;
    assert r.events[|e.events|..] == ready + low;
  }

  /** `onReadyForPlayback` fires only on the rising edge: a second update
      with the same buffers does not fire it again, while `onBufferLow`
      fires on both when the total is at or below the threshold. */
  lemma ReadyOnRisingEdgeLowEveryTime(e: Engine)
    requires e.options == Options(true, true)
    ensures var e1 := UpdateHealth(e); var e2 := UpdateHealth(e1);
      && (ReadyForPlayback in e1.events[|e.events|..] <==> Current(e).size >= ReadySize && e.health.state != Ready)
      && ReadyForPlayback !in e2.events[|e1.events|..]
      && (TotalSize(e) <= LowThreshold ==>
            e1.events[|e1.events| - 1] == BufferLow(HealthOf(e).availableSpace) &&
            e2.events[|e2.events| - 1] == BufferLow(HealthOf(e).availableSpace))
  {
    var e1 := UpdateHealth(e);
    UpdateHealthEvents(e);
    UpdateHealthEvents(e1);
    assert HealthOf(e1) == HealthOf(e);
  }

  /** Re-initializing resets the state to INITIALIZED, so a later update
      fires `onReadyForPlayback` again even if the engine was READY. */
  lemma InitializeRearmsReady(e: Engine, sinkPresent: bool)
    requires Current(e).size >= ReadySize
    ensures var e1 := Initialize(e, sinkPresent, Options(true, true));
      UpdateHealth(e1).events[|e1.events|] == ReadyForPlayback
  {
  }

  lemma UpdateHealthConserves(e: Engine)
    requires Inv(e)
    ensures Inv(UpdateHealth(e)) && Stored(UpdateHealth(e)) == Stored(e)
  {
  }

  // ---------------------------------------------------------------------
  // Runs of operations

  datatype Op = Add(chunk: ChunkIn) | Remove(sinkUpdating: bool) | Refill | Play(shouldPlay: bool)

  function Step(e: Engine, op: Op): Engine
  {
    match op
    case Add(c) => AddChunk(e, c)
    case Remove(u) => Tick(e, u)
    case Refill => Swap(e)
    case Play(p) => ControlPlayback(e, p)
  }

  function Run(e: Engine, ops: seq<Op>): Engine
    decreases |ops|
  {
    if ops == [] then e else Run(Step(e, ops[0]), ops[1..])
  }

  /** Bytes accepted by the adds of a run. */
  function AcceptedBytes(e: Engine, ops: seq<Op>): nat
    decreases |ops|
  {
    if ops == [] then 0
    else
      (if ops[0].Add? && Accepts(e, ops[0].chunk) then ops[0].chunk.size else 0)
      + AcceptedBytes(Step(e, ops[0]), ops[1..])
  }

  /** Conservation over any run: the buffered total plus what reached the
      sink grows by exactly the bytes that adds accepted. */
  lemma {:induction false} RunConserves(e: Engine, ops: seq<Op>)
    requires Inv(e)
    ensures Inv(Run(e, ops))
    ensures Stored(Run(e, ops)) == Stored(e) + AcceptedBytes(e, ops)
    decreases |ops|
  {
    if ops != [] {
      match ops[0] {
        case Add(c) => AddChunkConserves(e, c);
        case Remove(u) => if e.ticking { RemoveChunkConserves(e, u); }
        case Refill => SwapConserves(e);
        case Play(p) =>
      }
      RunConserves(Step(e, ops[0]), ops[1..]);
    }
  }
}
