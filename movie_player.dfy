/** The streaming logic of `MoviePlayer`: the leader's send loop
    (`handleChunkSend` with `readNextChunk` re-entered from `reader.onload`),
    the viewer's chunk handler, and the playback-start guards
    `handleReadyForPlayback`, `handlePlay` and `handleBufferLow`. The file is
    a byte sequence; `Date.now()` is an input (`now`, or its Float64 bytes
    `clock`); the play timer firing and the result of `video.play()` are
    inputs of `OnStartTimer`. */
module MoviePlayer {
  import opened Wrappers
  import opened Bytes
  import opened BufferModel
  import UseBufferManager
  import MovieServices
  import PeerContext

  /** `CHUNK_SIZE`: 64 KiB. */
  const ChunkSize: nat := 64 * 1024
  /** Delay between the ready notice and the agreed start time. */
  const StartDelayMs: nat := 1000

  /** `Math.floor(availableSpace / CHUNK_SIZE)`. */
  function MaxChunks(availableSpace: int): (m: int)
    ensures m * ChunkSize <= availableSpace < (m + 1) * ChunkSize
  {
    availableSpace / ChunkSize
  }

  /** Start offset of the k-th chunk of a call that began at `offset`. The
      step is `ChunkSize` written as a literal, which keeps the arithmetic
      linear for the solver; `SlicesStep` states the step as `ChunkSize`. */
  function ChunkStart(offset: nat, k: nat): nat
  {
    offset + k * 65536
  }

  /** `file.slice(start, start + CHUNK_SIZE)`; `slice` clamps to the file. */
  function SliceAt(f: seq<byte>, start: nat): (s: seq<byte>)
    ensures |s| <= ChunkSize
    ensures start < |f| ==> 0 < |s| && s == f[start..Min(start + ChunkSize, |f|)]
  {
    f[Min(start, |f|)..Min(start + ChunkSize, |f|)]
  }

  /** How many chunks one call sends: it stops when the budget is spent or
      the next start is at or past the end of the file. */
  function ChunksFrom(offset: nat, size: nat, budget: int): nat
    decreases size - offset
  {
    if budget <= 0 || offset >= size then 0 else 1 + ChunksFrom(offset + ChunkSize, size, budget - 1)
  }

  /** The slices of the first `n` chunks from `offset`, in order. */
  function Slices(f: seq<byte>, offset: nat, n: nat): (r: seq<seq<byte>>)
    ensures |r| == n
    decreases n
  {
    if n == 0 then [] else Slices(f, offset, n - 1) + [SliceAt(f, ChunkStart(offset, n - 1))]
  }

  /** The wire frames for `slices`, numbered from `seq0`, flag clear. */
  function Frames(slices: seq<seq<byte>>, seq0: nat, clock: seq<byte>): (r: seq<seq<byte>>)
    requires |clock| == MovieServices.TimestampWidth
    ensures |r| == |slices|
    decreases |slices|
  {
    if slices == [] then []
    else
      var k := |slices| - 1;
      Frames(slices[..k], seq0, clock) + [MovieServices.EncodeMessage(seq0 + k, slices[k], clock, false)]
  }

  /** The engine after `slices` are added in order as chunks numbered
      from `seq0`. */
  function Feed(e: Engine, slices: seq<seq<byte>>, seq0: nat): Engine
    decreases |slices|
  {
    if slices == [] then e
    else
      var k := |slices| - 1;
      AddChunk(Feed(e, slices[..k], seq0), ChunkIn(seq0 + k, |slices[k]|, slices[k]))
  }

  function Flatten(ss: seq<seq<byte>>): seq<byte>
    decreases |ss|
  {
    if ss == [] then [] else Flatten(ss[..|ss| - 1]) + ss[|ss| - 1]
  }

  // ---------------------------------------------------------------------
  // One send call

  /** A call sends nothing with a budget of zero or less (a negative
      available space included); otherwise at most the budget; it stops
      either on the budget or at the end of the file; and every chunk it
      sends starts inside the file. */
  lemma {:induction false} SendCountBounds(offset: nat, size: nat, budget: int)
    ensures var n := ChunksFrom(offset, size, budget);
      && (budget <= 0 ==> n == 0)
      && (budget > 0 ==> n <= budget)
      && (n >= budget || ChunkStart(offset, n) >= size)
      && (forall k :: 0 <= k < n ==> ChunkStart(offset, k) < size)
    decreases size - offset
  {
    var n := ChunksFrom(offset, size, budget);
    if budget > 0 && offset < size {
      SendCountBounds(offset + ChunkSize, size, budget - 1);
      var n' := ChunksFrom(offset + ChunkSize, size, budget - 1);
      assert n == n' + 1;
      assert ChunkStart(offset, n) == ChunkStart(offset + ChunkSize, n');
      forall k | 0 <= k < n ensures ChunkStart(offset, k) < size {
        if k > 0 {
          assert ChunkStart(offset, k) == ChunkStart(offset + ChunkSize, k - 1);
        }
      }
    }
  }

  /** The chunks of a call are contiguous and do not overlap: together they
      are exactly the file bytes from `offset` up to the next resume point
      (clamped to the file). */
  lemma {:induction false} SlicesAreContiguous(f: seq<byte>, offset: nat, n: nat)
    requires offset <= |f|
    ensures Flatten(Slices(f, offset, n)) == f[offset..Min(ChunkStart(offset, n), |f|)]
    decreases n
  {
    if n > 0 {
      SlicesAreContiguous(f, offset, n - 1);
      SlicesStep(f, offset, n - 1);
      SnocPrefix(Slices(f, offset, n - 1), SliceAt(f, ChunkStart(offset, n - 1)));
      var a := Min(ChunkStart(offset, n - 1), |f|);
      var b := Min(ChunkStart(offset, n), |f|);
      assert offset <= a <= b;
      assert SliceAt(f, ChunkStart(offset, n - 1)) == f[a..b];
      assert f[offset..a] + f[a..b] == f[offset..b];
    }
  }

  /** A later call that resumes at the recorded offset continues the same
      slicing: the two calls' chunks are the chunks of one longer call. */
  lemma {:induction false} ResumeContinuesSlicing(f: seq<byte>, offset: nat, n1: nat, n2: nat)
    ensures Slices(f, offset, n1) + Slices(f, ChunkStart(offset, n1), n2) == Slices(f, offset, n1 + n2)
    decreases n2
  {
    if n2 == 0 {
      assert Slices(f, offset, n1) + [] == Slices(f, offset, n1);
    } else {
      ResumeContinuesSlicing(f, offset, n1, n2 - 1);
      assert ChunkStart(ChunkStart(offset, n1), n2 - 1) == ChunkStart(offset, n1 + n2 - 1);
    }
  }

  lemma {:induction false} FramesShape(slices: seq<seq<byte>>, seq0: nat, clock: seq<byte>)
    requires |clock| == MovieServices.TimestampWidth
    ensures |Frames(slices, seq0, clock)| == |slices|
    ensures forall k :: 0 <= k < |slices| ==>
      Frames(slices, seq0, clock)[k] == MovieServices.EncodeMessage(seq0 + k, slices[k], clock, false)
    decreases |slices|
  {
    if slices != [] {
      var m := |slices| - 1;
      FramesShape(slices[..m], seq0, clock);
      forall k | 0 <= k < m
        ensures Frames(slices, seq0, clock)[k] == MovieServices.EncodeMessage(seq0 + k, slices[k], clock, false)
      {
        assert slices[..m][k] == slices[k];
      }
    }
  }

  /** What the peer parses out of the k-th frame of a call: sequence number
      seq0 + k (modulo 2^32), the slice's length, the slice itself, and a
      clear last-chunk flag. */
  lemma FramesParse(slices: seq<seq<byte>>, seq0: nat, clock: seq<byte>, k: nat)
    requires |clock| == MovieServices.TimestampWidth && k < |slices|
    ensures var r := MovieServices.ParseChunkMessage(Frames(slices, seq0, clock)[k]);
      && r.Ok?
      && r.value.sequence == (seq0 + k) % Two32
      && r.value.size == |slices[k]| % Two32
      && r.value.data == slices[k]
      && !r.value.isLastChunk
  {
    FramesShape(slices, seq0, clock);
    MovieServices.RoundTrip(seq0 + k, slices[k], clock, false);
  }

  /** One more chunk extends the slices of a call by that chunk. */
  lemma SlicesStep(f: seq<byte>, offset: nat, c: nat)
    ensures Slices(f, offset, c + 1) == Slices(f, offset, c) + [SliceAt(f, ChunkStart(offset, c))]
    ensures ChunkStart(offset, c + 1) == ChunkStart(offset, c) + ChunkSize
  {
  }

  /** The count a loop reaches is `ChunksFrom` as soon as it stops: every
      chunk it sent was within budget and started inside the file, and the
      guard now fails. */
  lemma {:induction false} ChunksFromStops(offset: nat, size: nat, budget: int, c: nat)
    requires c == 0 || (c <= budget && ChunkStart(offset, c - 1) < size)
    requires c >= budget || ChunkStart(offset, c) >= size
    ensures ChunksFrom(offset, size, budget) == c
    decreases c
  {
    if c > 0 {
      assert offset < size by { assert ChunkStart(offset, 0) <= ChunkStart(offset, c - 1); }
      assert ChunkStart(offset + ChunkSize, c - 1) == ChunkStart(offset, c);
      if c > 1 {
        assert ChunkStart(offset + ChunkSize, c - 2) == ChunkStart(offset, c - 1);
      }
      ChunksFromStops(offset + ChunkSize, size, budget - 1, c - 1);
    }
  }

  /** One more slice is one more `addChunk`, numbered after the others. */
  lemma FeedNext(before: seq<seq<byte>>, chunk: seq<byte>, seq0: nat, e0: Engine, prev: Engine, next: Engine)
    requires prev == Feed(e0, before, seq0)
    requires next == AddChunk(prev, ChunkIn(seq0 + |before|, |chunk|, chunk))
    ensures next == Feed(e0, before + [chunk], seq0)
  {
    SnocPrefix(before, chunk);
  }

  /** Appending a slice appends its frame. */
  lemma FramesStep(before: seq<seq<byte>>, chunk: seq<byte>, seq0: nat, clock: seq<byte>)
    requires |clock| == MovieServices.TimestampWidth
    ensures Frames(before + [chunk], seq0, clock)
         == Frames(before, seq0, clock) + [MovieServices.EncodeMessage(seq0 + |before|, chunk, clock, false)]
  {
    SnocPrefix(before, chunk);
  }

  lemma SnocPrefix<T>(s: seq<T>, x: T)
    ensures (s + [x])[..|s|] == s && (s + [x])[|s|] == x
  {
  }

  /** The player's send state after the slices `sent` of a call: the
      sequence number advanced by one per slice, their frames on the wire
      when the channel is open, and their adds applied to the buffer. */
  ghost predicate SentSoFar(sequence: nat, wire: seq<seq<byte>>, engine: Engine, open: bool,
                            sent: seq<seq<byte>>, seq0: nat, wire0: seq<seq<byte>>, e0: Engine,
                            clock: seq<byte>)
    requires |clock| == MovieServices.TimestampWidth
  {
    && sequence == seq0 + |sent|
    && wire == wire0 + (if open then Frames(sent, seq0, clock) else [])
    && engine == Feed(e0, sent, seq0)
  }

  // ---------------------------------------------------------------------
  // The player

  class Player {
    /** The player's own buffer manager. */
    const buffer: UseBufferManager.BufferManager
    var isLeader: bool
    /** `fileRef.current`: the file's bytes. */
    var file: Option<seq<byte>>
    /** `fileRef.current.streamOffset || 0`. */
    var streamOffset: nat
    /** `fileRef.current.sequence || 0`. */
    var sequence: nat
    /** `peer.channels.movie` is set. */
    var movieChannel: bool
    /** The movie channel's `readyState` is "open" (`sendMovieData` sends only then). */
    var movieChannelOpen: bool
    var controlChannelOpen: bool
    /** Frames handed to the movie channel. */
    var wire: seq<seq<byte>>
    /** The outcome of every `sendControl` call, in order. */
    var control: seq<PeerContext.SendOutcome>
    /** `streamingCurrentlyRef`. */
    var streamingCurrently: bool
    /** Play timers armed by `handlePlay` and not yet fired. */
    var pendingStarts: nat
    /** The delay of every play timer armed. */
    var scheduledDelays: seq<int>
    /** Calls of `onPlayingChange`. */
    var playingChanges: seq<bool>
    var error: Option<string>

    ghost predicate Valid()
      reads this, buffer, buffer.activeA, buffer.activeB, buffer.staging
    {
      buffer.Valid()
    }

    constructor (b: UseBufferManager.BufferManager, leader: bool, f: Option<seq<byte>>)
      requires b.Valid()
      ensures Valid() && buffer == b && isLeader == leader && file == f
      ensures streamOffset == 0 && sequence == 0 && wire == [] && control == []
      ensures !streamingCurrently && pendingStarts == 0 && error.None?
    {
      buffer := b;
      isLeader := leader;
      file := f;
      streamOffset := 0;
      sequence := 0;
      movieChannel := false;
      movieChannelOpen := false;
      controlChannelOpen := false;
      wire := [];
      control := [];
      streamingCurrently := false;
      pendingStarts := 0;
      scheduledDelays := [];
      playingChanges := [];
      error := None;
    }

    /** `handleChunkSend(availableSpace)`: the leader reads, buffers locally,
        frames and sends contiguous 64 KiB slices from the stream offset,
        then records where to resume. */
    method HandleChunkSend(availableSpace: int, clock: seq<byte>)
      requires Valid() && |clock| == MovieServices.TimestampWidth
      modifies this, buffer, buffer.activeA, buffer.activeB, buffer.staging
      ensures Valid()
      ensures isLeader == old(isLeader) && file == old(file) && control == old(control)
      ensures movieChannelOpen == old(movieChannelOpen) && streamingCurrently == old(streamingCurrently)
      ensures !(old(isLeader) && old(file).Some? && old(movieChannel)) ==>
        && streamOffset == old(streamOffset) && sequence == old(sequence)
        && wire == old(wire) && buffer.Abs() == old(buffer.Abs())
      ensures old(isLeader) && old(file).Some? && old(movieChannel) ==>
        var f := old(file).value;
        var n := ChunksFrom(old(streamOffset), |f|, MaxChunks(availableSpace));
        var sl := Slices(f, old(streamOffset), n);
        && streamOffset == ChunkStart(old(streamOffset), n)
        && sequence == old(sequence) + n
        && wire == old(wire) + (if movieChannelOpen then Frames(sl, old(sequence), clock) else [])
        && buffer.Abs() == Feed(old(buffer.Abs()), sl, old(sequence))
    {
      if !isLeader || file.None? || !movieChannel {
        return;
      }
      var f := file.value;
      var maxChunks := MaxChunks(availableSpace);
      var sent;
      ghost var slices;
      sent, slices := ReadNextChunk(f, streamOffset, maxChunks, clock, 0, [], sequence, wire, buffer.Abs());
    }

    /** `readNextChunk` after the slices `sent` of a call that began at
        `offset`: stop and record the resume offset when the budget is spent
        or the next start is past the file, otherwise send the next slice
        (the `reader.onload` body) and re-enter. Returns the call's count
        and, as ghost, its slices. */
    method ReadNextChunk(f: seq<byte>, offset: nat, maxChunks: int, clock: seq<byte>, chunksSent: nat,
                         ghost sent: seq<seq<byte>>, ghost seq0: nat, ghost wire0: seq<seq<byte>>, ghost e0: Engine)
      returns (total: nat, ghost all: seq<seq<byte>>)
      requires Valid() && |clock| == MovieServices.TimestampWidth
      requires chunksSent == 0 || (chunksSent <= maxChunks && ChunkStart(offset, chunksSent - 1) < |f|)
      requires sent == Slices(f, offset, chunksSent)
      requires SentSoFar(sequence, wire, buffer.Abs(), movieChannelOpen, sent, seq0, wire0, e0, clock)
      modifies this, buffer, buffer.activeA, buffer.activeB, buffer.staging
      ensures Valid() && total == ChunksFrom(offset, |f|, maxChunks) && all == Slices(f, offset, total)
      ensures SentSoFar(sequence, wire, buffer.Abs(), movieChannelOpen, all, seq0, wire0, e0, clock)
      ensures streamOffset == ChunkStart(offset, total)
      ensures isLeader == old(isLeader) && file == old(file) && control == old(control)
      ensures movieChannelOpen == old(movieChannelOpen) && streamingCurrently == old(streamingCurrently)
      decreases |f| - ChunkStart(offset, chunksSent)
    {
      if chunksSent >= maxChunks || ChunkStart(offset, chunksSent) >= |f| {
        ChunksFromStops(offset, |f|, maxChunks, chunksSent);
        streamOffset := ChunkStart(offset, chunksSent);
        return chunksSent, sent;
      }
      var chunk := SliceAt(f, ChunkStart(offset, chunksSent));
      var isLast := ChunkStart(offset, chunksSent) >= |f|;
      SlicesStep(f, offset, chunksSent);
      SendChunk(chunk, isLast, clock, sent, seq0, wire0, e0);
      total, all := ReadNextChunk(f, offset, maxChunks, clock, chunksSent + 1, sent + [chunk], seq0, wire0, e0);
    }

    /** The body of `reader.onload`: add the slice to the local buffer
        under the current sequence number, then frame and send it. Stated
        as one step of the send loop, after the slices `sent`. */
    method SendChunk(chunk: seq<byte>, isLastChunk: bool, clock: seq<byte>,
                     ghost sent: seq<seq<byte>>, ghost seq0: nat, ghost wire0: seq<seq<byte>>, ghost e0: Engine)
      requires Valid() && |clock| == MovieServices.TimestampWidth && !isLastChunk
      requires SentSoFar(sequence, wire, buffer.Abs(), movieChannelOpen, sent, seq0, wire0, e0, clock)
      modifies this, buffer, buffer.activeA, buffer.activeB, buffer.staging
      ensures Valid()
      ensures SentSoFar(sequence, wire, buffer.Abs(), movieChannelOpen, sent + [chunk], seq0, wire0, e0, clock)
      ensures isLeader == old(isLeader) && file == old(file) && control == old(control)
      ensures movieChannelOpen == old(movieChannelOpen) && streamingCurrently == old(streamingCurrently)
      ensures streamOffset == old(streamOffset)
    {
      AddLocal(chunk, sent, seq0, e0);
      SendFrame(chunk, isLastChunk, clock, sent, seq0, wire0);
    }

    /** `operations.addChunk({sequence, size, data})` for the next chunk. */
    method AddLocal(chunk: seq<byte>, ghost before: seq<seq<byte>>, ghost seq0: nat, ghost e0: Engine)
      requires Valid() && sequence == seq0 + |before|
      requires buffer.Abs() == Feed(e0, before, seq0)
      modifies buffer, buffer.activeA, buffer.activeB, buffer.staging
      ensures Valid()
      ensures buffer.Abs() == Feed(e0, before + [chunk], seq0)
    {
      ghost var prev := buffer.Abs();
      buffer.AddChunk(ChunkIn(sequence, |chunk|, chunk));
      FeedNext(before, chunk, seq0, e0, prev, buffer.Abs());
    }

    /** `createChunkMessage(sequence++, chunk, isLastChunk)` and
        `sendMovieData`, which sends only on an open channel. */
    method SendFrame(chunk: seq<byte>, isLastChunk: bool, clock: seq<byte>,
                     ghost before: seq<seq<byte>>, ghost seq0: nat, ghost wire0: seq<seq<byte>>)
      requires |clock| == MovieServices.TimestampWidth && !isLastChunk
      requires sequence == seq0 + |before|
      requires wire == wire0 + (if movieChannelOpen then Frames(before, seq0, clock) else [])
      modifies this
      ensures sequence == seq0 + |before| + 1
      ensures wire == wire0 + (if movieChannelOpen then Frames(before + [chunk], seq0, clock) else [])
      ensures isLeader == old(isLeader) && file == old(file) && control == old(control)
      ensures movieChannelOpen == old(movieChannelOpen) && streamingCurrently == old(streamingCurrently)
      ensures streamOffset == old(streamOffset)
    {
      var message := MovieServices.CreateChunkMessage(sequence, chunk, clock, isLastChunk);
      sequence := sequence + 1;
      if movieChannelOpen {
        wire := wire + [message[..]];
      }
      FramesStep(before, chunk, seq0, clock);
    }

    /** `handleChunkReceived(data)` on a viewer: parse the frame and add it
        under its declared size; a frame shorter than the header sets the
        error. The callbacks the add fires are then run. */
    method HandleChunkReceived(data: seq<byte>, now: int)
      requires Valid()
      modifies this, buffer, buffer.activeA, buffer.activeB, buffer.staging
      ensures Valid() && isLeader == old(isLeader) && wire == old(wire)
      ensures old(isLeader) ==> buffer.Abs() == old(buffer.Abs()) && error == old(error)
      ensures !old(isLeader) && |data| < MovieServices.HeaderSize ==>
        buffer.Abs() == old(buffer.Abs()) && error == Some("Failed to process video chunk")
      ensures !old(isLeader) && |data| >= MovieServices.HeaderSize ==>
        var c := MovieServices.ParseChunkMessage(data).value;
        buffer.Abs() == AddChunk(old(buffer.Abs()), ChunkIn(c.sequence, c.size, c.data))
    {
      if isLeader {
        return;
      }
      var parsed := MovieServices.ParseChunkMessage(data);
      if parsed.Err? {
        error := Some("Failed to process video chunk");
        return;
      }
      var c := parsed.value;
      var from := |buffer.events|;
      buffer.AddChunk(ChunkIn(c.sequence, c.size, c.data));
      ghost var added := buffer.Abs();
      var i := from;
      while i < |buffer.events|
        invariant buffer.Valid() && buffer.Abs() == added
        invariant isLeader == old(isLeader) && wire == old(wire)
      {
        OnBufferEvent(buffer.events[i], now);
        i := i + 1;
      }
    }

    /** The callbacks passed to `initialize`, run for one engine event. */
    method OnBufferEvent(ev: Event, now: int)
      requires Valid()
      modifies this
      ensures Valid() && isLeader == old(isLeader) && wire == old(wire)
      ensures ev.ReadyForPlayback? && !old(isLeader) && !old(streamingCurrently) ==>
        && control == old(control) + [PeerContext.SendControl(Some("MOVIE_ISPLAYING"),
                         PeerContext.JObj([("timestamp", PeerContext.JNum(now + StartDelayMs))]), controlChannelOpen, now)]
        && scheduledDelays == old(scheduledDelays) + [StartDelayMs]
        && pendingStarts == old(pendingStarts) + 1
      ensures ev.ReadyForPlayback? && (old(isLeader) || old(streamingCurrently)) ==>
        control == old(control) && scheduledDelays == old(scheduledDelays) && pendingStarts == old(pendingStarts)
      ensures ev.BufferLow? ==>
        && control == old(control) + (if old(isLeader) then [] else [PeerContext.InvalidType])
        && pendingStarts == old(pendingStarts) && scheduledDelays == old(scheduledDelays)
    {
      match ev {
        case ReadyForPlayback => HandleReadyForPlayback(now);
        case BufferLow(space) => HandleBufferLow(space, now);
      }
    }

    /** `peer.send.control(type, payload)`: record what `sendControl` did. */
    method SendControl(msgType: Option<string>, payload: PeerContext.Json, now: int)
      modifies this
      ensures control == old(control) + [PeerContext.SendControl(msgType, payload, controlChannelOpen, now)]
      ensures isLeader == old(isLeader) && wire == old(wire) && streamingCurrently == old(streamingCurrently)
      ensures pendingStarts == old(pendingStarts) && scheduledDelays == old(scheduledDelays)
      ensures controlChannelOpen == old(controlChannelOpen)
    {
      control := control + [PeerContext.SendControl(msgType, payload, controlChannelOpen, now)];
    }

    /** `handlePlay(timestamp)` at time `now`: arm the start timer only when
        the start time is strictly in the future. */
    method HandlePlay(timestamp: int, now: int)
      modifies this
      ensures timestamp - now > 0 ==>
        pendingStarts == old(pendingStarts) + 1 && scheduledDelays == old(scheduledDelays) + [timestamp - now]
      ensures timestamp - now <= 0 ==>
        pendingStarts == old(pendingStarts) && scheduledDelays == old(scheduledDelays)
      ensures isLeader == old(isLeader) && wire == old(wire) && control == old(control)
      ensures streamingCurrently == old(streamingCurrently) && controlChannelOpen == old(controlChannelOpen)
    {
      var timeUntilStart := timestamp - now;
      if timeUntilStart > 0 {
        scheduledDelays := scheduledDelays + [timeUntilStart];
        pendingStarts := pendingStarts + 1;
      }
    }

    /** `handleReadyForPlayback`: a viewer that is not streaming announces a
        start one second ahead and schedules the same start locally. */
    method HandleReadyForPlayback(now: int)
      modifies this
      ensures isLeader == old(isLeader) && wire == old(wire)
      ensures !old(isLeader) && !old(streamingCurrently) ==>
        && control == old(control) + [PeerContext.SendControl(Some("MOVIE_ISPLAYING"),
                         PeerContext.JObj([("timestamp", PeerContext.JNum(now + StartDelayMs))]), controlChannelOpen, now)]
        && scheduledDelays == old(scheduledDelays) + [StartDelayMs]
        && pendingStarts == old(pendingStarts) + 1
      ensures old(isLeader) || old(streamingCurrently) ==>
        control == old(control) && scheduledDelays == old(scheduledDelays) && pendingStarts == old(pendingStarts)
    {
      if !isLeader && !streamingCurrently {
        var startTime := now + StartDelayMs;
        SendControl(PeerContext.ControlMessageType(PeerContext.MovieIsPlaying),
                    PeerContext.JObj([("timestamp", PeerContext.JNum(startTime))]), now);
        HandlePlay(startTime, now);
      }
    }

    /** `handleBufferLow({availableSpace})`: a viewer asks for more data with
        the undefined `MOVIE_BUFFER_LOW` type, which `sendControl` refuses, so
        nothing reaches the channel. */
    method HandleBufferLow(availableSpace: int, now: int)
      modifies this
      ensures isLeader == old(isLeader) && wire == old(wire)
      ensures control == old(control) + (if old(isLeader) then [] else [PeerContext.InvalidType])
      ensures pendingStarts == old(pendingStarts) && scheduledDelays == old(scheduledDelays)
    {
      if !isLeader {
        SendControl(PeerContext.ControlMessageType(PeerContext.MovieBufferLow),
                    PeerContext.JObj([("availableSpace", PeerContext.JNum(availableSpace)),
                                      ("timestamp", PeerContext.JNum(now))]), now);
      }
    }

    /** A play timer fires: with a video element, start consumption and try
        to play; on failure stop consumption again and set the error. */
    method OnStartTimer(videoPresent: bool, playSucceeds: bool)
      requires Valid() && pendingStarts > 0
      modifies this, buffer
      ensures Valid() && pendingStarts == old(pendingStarts) - 1
      ensures !videoPresent ==> buffer.Abs() == old(buffer.Abs()) && streamingCurrently == old(streamingCurrently)
      ensures videoPresent && playSucceeds ==>
        && buffer.Abs() == ControlPlayback(old(buffer.Abs()), true)
        && streamingCurrently && playingChanges == old(playingChanges) + [true]
      ensures videoPresent && !playSucceeds ==>
        && buffer.Abs() == ControlPlayback(old(buffer.Abs()), false)
        && !streamingCurrently && playingChanges == old(playingChanges) + [false]
        && error == Some("Failed to start playback")
    {
      pendingStarts := pendingStarts - 1;
      if videoPresent {
        buffer.ControlPlayback(true);
        if playSucceeds {
          streamingCurrently := true;
          playingChanges := playingChanges + [true];
        } else {
          buffer.ControlPlayback(false);
          streamingCurrently := false;
          playingChanges := playingChanges + [false];
          error := Some("Failed to start playback");
        }
      }
    }
  }
}
