/** The cooperative mutex of `useMutex`: a `locked` flag and a FIFO queue of
    waiters. Acquire, release and the expiry of a waiter's timer are explicit
    events; the clock itself is not modelled. A waiter is named by the id of
    its pending `acquire` call (the source identifies it by its promise's
    `reject` function). */
module UseMutex {
  import opened Wrappers

  type WaiterId = nat

  /** The timeout `acquire` arms when its caller gives none. */
  const DefaultTimeoutMs: nat := 5000

  datatype MutexState = MutexState(locked: bool, queue: seq<WaiterId>)

  /** What an `acquire` call does at once: resolve, or queue the caller and
      arm a timer of the given length. */
  datatype AcquireOutcome = Granted | Queued(timeoutMs: nat)

  /** The error a timed-out waiter is rejected with. */
  const TimeoutMessage: string := "Mutex acquire timeout"

  function Free(): MutexState { MutexState(false, []) }

  /** A free mutex has nobody waiting for it. */
  predicate Inv(m: MutexState) { !m.locked ==> m.queue == [] }

  function EffectiveTimeout(timeout: Option<nat>): (ms: nat)
    ensures timeout.None? ==> ms == DefaultTimeoutMs
    ensures timeout.Some? ==> ms == timeout.value
  {
    match timeout
    case None => DefaultTimeoutMs
    case Some(t) => t
  }

  function AcquireStep(m: MutexState, w: WaiterId, timeout: Option<nat>): (MutexState, AcquireOutcome)
  {
    if !m.locked then (MutexState(true, m.queue), Granted)
    else (MutexState(true, m.queue + [w]), Queued(EffectiveTimeout(timeout)))
  }

  /** Release hands the lock to the head waiter (its timer is cleared), or
      marks the lock free when nobody waits. */
  function ReleaseStep(m: MutexState): (MutexState, Option<WaiterId>)
  {
    if m.queue != [] then (MutexState(m.locked, m.queue[1..]), Some(m.queue[0]))
    else (MutexState(false, []), None)
  }

  /** Index of the first occurrence of `w`, or `|q|` when there is none
      (`findIndex` returning -1). */
  function IndexOf(q: seq<WaiterId>, w: WaiterId): (i: nat)
    ensures i <= |q|
    ensures i < |q| ==> q[i] == w
    ensures forall j :: 0 <= j < i ==> q[j] != w
  {
    if q == [] then 0
    else if q[0] == w then 0
    else 1 + IndexOf(q[1..], w)
  }

  /** The timer of waiter `w` fires: if it is still queued it is spliced out
      and rejected with the timeout error; otherwise nothing happens. */
  function TimeoutStep(m: MutexState, w: WaiterId): (MutexState, Option<string>)
  {
    var i := IndexOf(m.queue, w);
    if i < |m.queue| then (MutexState(m.locked, m.queue[..i] + m.queue[i + 1..]), Some(TimeoutMessage))
    else (m, None)
  }

  // ---------------------------------------------------------------------
  // Properties of the three events

  lemma AcquireFreeGrants(m: MutexState, w: WaiterId, timeout: Option<nat>)
    requires !m.locked
    ensures AcquireStep(m, w, timeout).1 == Granted
    ensures AcquireStep(m, w, timeout).0 == MutexState(true, m.queue)
  {
  }

  lemma AcquireLockedQueues(m: MutexState, w: WaiterId, timeout: Option<nat>)
    requires m.locked
    ensures AcquireStep(m, w, timeout).0 == MutexState(true, m.queue + [w])
    ensures AcquireStep(m, w, timeout).1 == Queued(if timeout.None? then 5000 else timeout.value)
  {
  }

  lemma ReleaseHandsToHead(m: MutexState)
    requires Inv(m) && m.queue != []
    ensures ReleaseStep(m) == (MutexState(true, m.queue[1..]), Some(m.queue[0]))
  {
  }

  /** Releasing a free mutex is harmless: it stays free. */
  lemma ReleaseFreeIsNoop(m: MutexState)
    requires Inv(m) && !m.locked
    ensures ReleaseStep(m) == (m, None)
  {
  }

  /** A timeout takes out exactly the first occurrence of its waiter; the
      lock and the relative order of everybody else are untouched. */
  lemma TimeoutRemovesOnlyThatWaiter(m: MutexState, w: WaiterId)
    requires w in m.queue
    ensures var (m', rejection) := TimeoutStep(m, w);
      rejection == Some(TimeoutMessage) && m'.locked == m.locked &&
      multiset(m'.queue) == multiset(m.queue) - multiset{w} &&
      exists i :: 0 <= i < |m.queue| && m.queue[i] == w && m'.queue == m.queue[..i] + m.queue[i + 1..]
  {
    var i := IndexOf(m.queue, w);
    assert m.queue == m.queue[..i] + [w] + m.queue[i + 1..];
  }

  lemma TimeoutOfAbsentWaiterIsNoop(m: MutexState, w: WaiterId)
    requires w !in m.queue
    ensures TimeoutStep(m, w) == (m, None)
  {
  }

  /** Once release has granted `w` (and `w` is queued only once), its timer
      can no longer reject it: the later timeout is a no-op. */
  lemma GrantedWaiterTimeoutIsNoop(m: MutexState)
    requires m.queue != [] && m.queue[0] !in m.queue[1..]
    ensures var (m', w) := ReleaseStep(m);
      w == Some(m.queue[0]) && TimeoutStep(m', w.value) == (m', None)
  {
  }

  /** Every event keeps "a free mutex has no waiters". */
  lemma InvPreserved(m: MutexState, w: WaiterId, timeout: Option<nat>)
    requires Inv(m)
    ensures Inv(AcquireStep(m, w, timeout).0)
    ensures Inv(ReleaseStep(m).0)
    ensures Inv(TimeoutStep(m, w).0)
  {
  }

  // ---------------------------------------------------------------------
  // FIFO hand-over across several releases

  /** `n` successive releases: the final state and the waiters granted, in order. */
  function ReleaseMany(m: MutexState, n: nat): (MutexState, seq<WaiterId>)
    decreases n
  {
    if n == 0 then (m, [])
    else
      var (m1, w) := ReleaseStep(m);
      var (m2, ws) := ReleaseMany(m1, n - 1);
      (m2, (if w.Some? then [w.value] else []) + ws)
  }

  /** Waiters are granted exactly in the order they queued, and the lock
      becomes free only after the last of them releases. */
  lemma {:induction false} ReleasesGrantInQueueOrder(q: seq<WaiterId>)
    ensures ReleaseMany(MutexState(true, q), |q|) == (MutexState(true, []), q)
    ensures ReleaseMany(MutexState(true, q), |q| + 1) == (Free(), q)
  {
    var m := MutexState(true, q);
    if q == [] {
      var empty: seq<WaiterId> := [];
      assert empty + empty == empty;
    } else {
      ReleasesGrantInQueueOrder(q[1..]);
      assert ReleaseStep(m) == (MutexState(true, q[1..]), Some(q[0]));
      assert [q[0]] + q[1..] == q;
    }
  }

  // ---------------------------------------------------------------------
  // The unbalanced releases of the buffer manager, stated as their effect

  /** `removeChunk` with an empty current buffer and an empty standby
      releases the mutex it acquired twice; `addChunk` releases once after
      its acquire. Run sequentially on a free mutex, both leave it free. */
  lemma DoubleReleaseOnFreeMutex(m: MutexState, w: WaiterId, timeout: Option<nat>)
    requires Inv(m) && !m.locked
    ensures ReleaseStep(ReleaseStep(AcquireStep(m, w, timeout).0).0).0 == Free()
    ensures ReleaseStep(AcquireStep(m, w, timeout).0).0 == Free()
  {
  }

  /** If another task holds the mutex while `w` waits, one release that
      nobody acquired for (the stray release in `removeChunk` after a buffer
      switch) grants the lock to `w` while the holder still works under it. */
  lemma StrayReleaseAdmitsSecondHolder(holder: WaiterId, w: WaiterId, timeout: Option<nat>)
    ensures AcquireStep(Free(), holder, Some(1000)) == (MutexState(true, []), Granted)
    ensures AcquireStep(MutexState(true, []), w, timeout).0 == MutexState(true, [w])
    ensures ReleaseStep(MutexState(true, [w])) == (MutexState(true, []), Some(w))
  {
    assert [w][1..] == [];
  }

  /** The hook's state: the `locked` ref and the `queue` ref. */
  class Mutex {
    var locked: bool
    var queue: seq<WaiterId>

    function State(): MutexState
      reads this
    {
      MutexState(locked, queue)
    }

    ghost predicate Valid()
      reads this
    {
      Inv(State())
    }

    constructor ()
      ensures Valid() && State() == Free()
    {
      locked := false;
      queue := [];
    }

    method Acquire(w: WaiterId, timeout: Option<nat>) returns (outcome: AcquireOutcome)
      requires Valid()
      modifies this
      ensures Valid()
      ensures (State(), outcome) == AcquireStep(old(State()), w, timeout)
      ensures old(locked) ==> locked && queue == old(queue) + [w]
      ensures !old(locked) ==> locked && outcome == Granted
    {
      if !locked {
        locked := true;
        outcome := Granted;
      } else {
        queue := queue + [w];
        outcome := Queued(EffectiveTimeout(timeout));
      }
    }

    method Release() returns (woken: Option<WaiterId>)
      requires Valid()
      modifies this
      ensures Valid()
      ensures (State(), woken) == ReleaseStep(old(State()))
      ensures old(queue) != [] ==> woken == Some(old(queue)[0]) && queue == old(queue)[1..] && locked
      ensures old(queue) == [] ==> woken.None? && !locked
    {
      if queue != [] {
        woken := Some(queue[0]);
        queue := queue[1..];
      } else {
        woken := None;
        locked := false;
      }
    }

    /** The timer callback of waiter `w`: `findIndex`, then `splice`. */
    method OnTimeout(w: WaiterId) returns (rejection: Option<string>)
      requires Valid()
      modifies this
      ensures Valid()
      ensures (State(), rejection) == TimeoutStep(old(State()), w)
      ensures rejection.Some? <==> w in old(queue)
      ensures rejection.Some? ==> rejection.value == TimeoutMessage
      ensures locked == old(locked)
    {
      var index := 0;
      while index < |queue| && queue[index] != w
        invariant index <= |queue|
        invariant forall j :: 0 <= j < index ==> queue[j] != w
      {
        index := index + 1;
      }
      assert index == IndexOf(queue, w);
      if index < |queue| {
        queue := queue[..index] + queue[index + 1..];
        rejection := Some(TimeoutMessage);
      } else {
        rejection := None;
      }
    }
  }
}
