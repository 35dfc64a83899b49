/** The `useBufferManager` hook as a class: three buffer objects updated in
    place, the health snapshot, the playing flag and the consumption
    interval. Every method is proved to perform the step of module
    BufferModel on the abstract engine, so the properties proved there
    (placement, conservation, in-order refill, callback edges) hold for the
    class. The decode sink appears as a presence flag, its `updating` flag as
    an input, and the chunks handed to `appendBuffer` as `delivered`. */
module UseBufferManager {
  import opened BufferModel

  /** One of `activeA`, `activeB`, `staging`: its chunk list, its
      `metadata.size` and its `isActive` flag (staging never reads its flag). */
  class Buffer {
    var chunks: seq<Chunk>
    var size: int
    var isActive: bool

    constructor (active: bool)
      ensures chunks == [] && size == 0 && isActive == active
    {
      chunks := [];
      size := 0;
      isActive := active;
    }

    function Value(): Buf
      reads this
    {
      Buf(chunks, size)
    }

    /** The transfer loop of `swapBuffers`: `shift` chunks off the head while
        the moved total is below `transferSize` and chunks remain. The size
        counter is left to the caller, as in the source. */
    method ShiftWhileBelow(transferSize: int) returns (moved: seq<Chunk>, transferredSize: nat)
      modifies this
      ensures moved == old(chunks)[..MoveCount(old(chunks), transferSize)]
      ensures chunks == old(chunks)[|moved|..]
      ensures transferredSize == Sum(moved)
      ensures size == old(size) && isActive == old(isActive)
    {
      ghost var cs := chunks;
      moved := [];
      transferredSize := 0;
      while transferredSize < transferSize && chunks != []
        invariant |moved| <= |cs|
        invariant moved == cs[..|moved|] && chunks == cs[|moved|..]
        invariant transferredSize == Sum(moved)
        invariant MoveCount(cs, transferSize) == |moved| + MoveCount(chunks, transferSize - transferredSize)
        invariant size == old(size) && isActive == old(isActive)
        decreases |chunks|
      {
        var chunk := chunks[0];
        assert chunks[1..] == cs[|moved| + 1..];
        chunks := chunks[1..];
        SumSnoc(moved, chunk);
        assert cs[..|moved| + 1] == moved + [chunk];
        moved := moved + [chunk];
        transferredSize := transferredSize + chunk.size;
      }
    }
  }

  class BufferManager {
    const activeA: Buffer
    const activeB: Buffer
    const staging: Buffer
    var isSwapping: bool
    var health: Health
    var hasSink: bool
    var options: Options
    var isPlaying: bool
    var ticking: bool
    var delivered: seq<Chunk>
    var events: seq<Event>

    function Abs(): Engine
      reads this, activeA, activeB, staging
    {
      Engine(activeA.Value(), activeA.isActive, activeB.Value(), activeB.isActive, staging.Value(),
             isSwapping, health, hasSink, options, isPlaying, ticking, delivered, events)
    }

    ghost predicate Valid()
      reads this, activeA, activeB, staging
    {
      && activeA != activeB && activeA != staging && activeB != staging
      && Inv(Abs())
    }

    constructor ()
      ensures Valid() && Abs() == Initial()
      ensures fresh(activeA) && fresh(activeB) && fresh(staging)
    {
      activeA := new Buffer(true);
      activeB := new Buffer(false);
      staging := new Buffer(false);
      isSwapping := false;
      health := Health(Uninitialized, 0, true, 0, false, 0, ActiveSize + StagingSize);
      hasSink := false;
      options := Options(false, false);
      isPlaying := false;
      ticking := false;
      delivered := [];
      events := [];
    }

    /** `initialize(sourceBuffer, options)`. */
    method Initialize(sinkPresent: bool, opts: Options)
      requires Valid()
      modifies this
      ensures Valid() && Abs() == BufferModel.Initialize(old(Abs()), sinkPresent, opts)
      ensures health.state == Initialized
    {
      hasSink := sinkPresent;
      options := opts;
      health := health.(state := Initialized);
    }

    /** `updateBufferHealth`. */
    method UpdateBufferHealth()
      requires Valid()
      modifies this
      ensures Valid() && Abs() == UpdateHealth(old(Abs()))
    {
      var current := if activeA.isActive then activeA else activeB;
      var standby := if activeA.isActive then activeB else activeA;
      var totalSize := activeA.size + activeB.size + staging.size;
      var newHealth := Health(if current.size >= ReadySize then Ready else Buffering,
                              activeA.size, activeA.isActive, activeB.size, activeB.isActive, staging.size,
                              ActiveSize - standby.size + StagingSize - staging.size);
      assert newHealth == HealthOf(Abs()) && totalSize == TotalSize(Abs());
      if newHealth.state == Ready && health.state != Ready && options.onReadyForPlayback {
        events := events + [ReadyForPlayback];
      }
      if totalSize <= LowThreshold && options.onBufferLow {
        events := events + [BufferLow(newHealth.availableSpace)];
      }
      health := newHealth;
      UpdateHealthConserves(old(Abs()));
    }

    /** `swapBuffers`: shift chunks off staging while the moved total is
      below the transfer size, then append them to standby in one go. */
    method SwapBuffers()
      requires Valid()
      modifies this, activeA, activeB, staging
      ensures Valid() && Abs() == Swap(old(Abs()))
    {
      if isSwapping || staging.chunks == [] {
        return;
      }
      var standby := if activeA.isActive then activeB else activeA;
      isSwapping := true;
      var transferSize := Min(ActiveSize - standby.size, staging.size);
      if transferSize <= 0 {
        isSwapping := false;
        return;
      }
      ghost var e := old(Abs());
      var moved, transferredSize := staging.ShiftWhileBelow(transferSize);
      standby.chunks := standby.chunks + moved;
      standby.size := standby.size + transferredSize;
      staging.size := staging.size - transferredSize;
      isSwapping := false;
      assert Refilled(e, |moved|, Abs());
      SwapIsRefill(e, |moved|, Abs());
      RefillConserves(e, |moved|, Abs());
      UpdateBufferHealth();
    }

    /** `switchActiveBuffers`. */
    method SwitchActiveBuffers()
      requires Valid()
      modifies this, activeA, activeB, staging
      ensures Valid() && Abs() == Switch(old(Abs()))
    {
      activeA.isActive := !activeA.isActive;
      activeB.isActive := !activeB.isActive;
      var previousActive := if activeA.isActive then activeB else activeA;
      if previousActive.size < ActiveSize {
        SwapBuffers();
      }
      UpdateBufferHealth();
      SwitchConserves(old(Abs()));
    }

    /** The buffer object playing role `s`. */
    function BufferAt(s: Slot): Buffer
    {
      match s
      case SlotA => activeA
      case SlotB => activeB
      case SlotStaging => staging
    }

    /** Append `c` to the buffer in role `s` and count its size. */
    method AppendAt(s: Slot, c: Chunk)
      requires activeA != activeB && activeA != staging && activeB != staging
      modifies BufferAt(s)
      ensures Abs() == Put(old(Abs()), s, Buf(Get(old(Abs()), s).chunks + [c], Get(old(Abs()), s).size + c.size))
    {
      var b := BufferAt(s);
      b.chunks := b.chunks + [c];
      b.size := b.size + c.size;
    }

    /** `operations.addChunk(chunk)`: pick the target by the three-tier rule
        and append only if the chunk fits its capacity. */
    method AddChunk(chunk: ChunkIn)
      requires Valid()
      modifies this, activeA, activeB, staging
      ensures Valid() && Abs() == BufferModel.AddChunk(old(Abs()), chunk)
    {
      var current := if activeA.isActive then SlotA else SlotB;
      var target: Slot;
      if BufferAt(current).size < ReadySize {
        target := current;
      } else {
        var standby := if activeA.isActive then SlotB else SlotA;
        if BufferAt(standby).size < ActiveSize {
          target := standby;
        } else {
          target := SlotStaging;
        }
      }
      var targetBuffer := BufferAt(target);
      var maxSize := if targetBuffer == staging then StagingSize else ActiveSize;
      assert target == TargetSlot(Abs()) && targetBuffer.Value() == Get(Abs(), target);
      if targetBuffer.size + chunk.size <= maxSize {
        ghost var before := Abs();
        AppendAt(target, Chunk(chunk.size, chunk.data));
        AddChunkAccepted(before, chunk, Abs());
        UpdateBufferHealth();
      }
    }

    /** `chunks.shift()` on the buffer in role `s`, with its size reduced by
        the removed chunk's. */
    method ShiftAt(s: Slot) returns (c: Chunk)
      requires activeA != activeB && activeA != staging && activeB != staging
      requires Get(Abs(), s).chunks != []
      modifies BufferAt(s)
      ensures c == Get(old(Abs()), s).chunks[0]
      ensures Abs() == Put(old(Abs()), s, Buf(Get(old(Abs()), s).chunks[1..], Get(old(Abs()), s).size - c.size))
    {
      var b := BufferAt(s);
      c := b.chunks[0];
      b.chunks := b.chunks[1..];
      b.size := b.size - c.size;
    }

    /** The delivering tail of `removeChunk`: hand the head of current to
        `appendBuffer`, shift it off, reduce the size, update health. */
    method DeliverHead()
      requires Valid() && Current(Abs()).chunks != []
      modifies this, activeA, activeB, staging
      ensures Valid() && Abs() == PopCurrent(old(Abs()))
    {
      ghost var before := Abs();
      var current := if activeA.isActive then SlotA else SlotB;
      assert current == CurrentSlot(before) && BufferAt(current).Value() == Current(before);
      var chunk := BufferAt(current).chunks[0];
      delivered := delivered + [chunk];
      assert Abs() == before.(delivered := before.delivered + [chunk]);
      chunk := ShiftAt(current);
      PopTakesHead(before, Abs());
      UpdateBufferHealth();
    }

    /** `operations.removeChunk()` with the sink's `updating` flag as input. */
    method RemoveChunk(sinkUpdating: bool)
      requires Valid()
      modifies this, activeA, activeB, staging
      ensures Valid() && Abs() == BufferModel.RemoveChunk(old(Abs()), sinkUpdating)
    {
      if !isPlaying || !hasSink || sinkUpdating {
        return;
      }
      RemoveChunkPops(Abs(), sinkUpdating);
      var current := if activeA.isActive then activeA else activeB;
      if current.chunks == [] {
        var standby := if activeA.isActive then activeB else activeA;
        if standby.size == 0 {
          return;
        }
        SwitchConserves(Abs());
        assert Standby(Abs()).chunks != [];
        SwitchActiveBuffers();
        current := if activeA.isActive then activeA else activeB;
      }
      if current.chunks == [] {
        return;
      }
      DeliverHead();
    }

    /** `controlPlayback(shouldPlay)`. */
    method ControlPlayback(shouldPlay: bool)
      requires Valid()
      modifies this
      ensures Valid() && Abs() == BufferModel.ControlPlayback(old(Abs()), shouldPlay)
    {
      isPlaying := shouldPlay;
      ticking := false;
      if shouldPlay {
        ticking := true;
      }
    }

    /** One firing of the one-second interval. */
    method Tick(sinkUpdating: bool)
      requires Valid()
      modifies this, activeA, activeB, staging
      ensures Valid() && Abs() == BufferModel.Tick(old(Abs()), sinkUpdating)
    {
      if ticking {
        RemoveChunk(sinkUpdating);
      }
    }
  }
}
