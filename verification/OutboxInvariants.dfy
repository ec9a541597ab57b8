/** What every run of the outbox keeps. */
module OutboxInvariants {
  import opened OutboxModel

  function Count(stream: seq<EventId>, i: EventId): nat {
    if stream == [] then 0 else Count(stream[..|stream| - 1], i) + (if stream[|stream| - 1] == i then 1 else 0)
  }

  /** Between two failures at least the backoff has passed. */
  predicate SpacedOut(failures: seq<int>) {
    forall k :: 0 <= k && k + 1 < |failures| ==> failures[k + 1] >= failures[k] + Backoff(k + 1)
  }

  /** A row no tick is working on. */
  predicate Settled(e: Event) {
    && e.status != Processing
    && e.attempts == |e.failures| + (if e.status == Published then 1 else 0)
    && e.appended == e.unacknowledged + (if e.status == Published then 1 else 0)
    && e.unacknowledged <= |e.failures|
    && e.attempts <= MAX_ATTEMPTS
    && (e.status == Pending <==> e.attempts == 0)
    && (e.status == Dead <==> |e.failures| == MAX_ATTEMPTS)
    && SpacedOut(e.failures)
    && (e.status == Failed ==> e.availableAt == e.failures[|e.failures| - 1] + Backoff(|e.failures|))
  }

  /** A locked row: waiting in the table and due when its tick started, and in the draft not tried yet or settled. */
  predicate DraftFits(e: Event, d: Event, start: int, tried: bool) {
    && Waiting(e) && e.availableAt <= start
    && if tried then Settled(d) && d.appended >= e.appended else d == e.(status := Processing)
  }

  ghost predicate TickFits(s: Outbox, t: TickId)
    requires t in s.ticks
  {
    var tick := s.ticks[t];
    && tick.done <= |tick.batch| && Distinct(tick.batch) && tick.start <= s.now
    && forall k :: 0 <= k < |tick.batch| ==>
         var i := tick.batch[k];
         i < |s.events| && Owned(s, i, t) && DraftFits(s.events[i], s.drafts[i].row, tick.start, k < tick.done)
  }

  /** Every lock belongs to a running tick. */
  ghost predicate LocksFit(s: Outbox) {
    forall i :: i in s.drafts ==> s.drafts[i].owner in s.ticks && i in s.ticks[s.drafts[i].owner].batch
  }

  /** Every appended entry is accounted for: by the row's own ticks or by rolled-back ones. */
  ghost predicate StreamFits(s: Outbox) {
    && |s.wasted| == |s.events|
    && (forall k :: 0 <= k < |s.stream| ==> s.stream[k] < |s.events|)
    && forall i: nat :: i < |s.events| ==> Count(s.stream, i) == Current(s, i).appended + s.wasted[i]
  }

  ghost predicate Sound(s: Outbox) {
    && (forall i :: 0 <= i < |s.events| ==> Settled(s.events[i]))
    && AllTicksFit(s)
    && LocksFit(s)
    && StreamFits(s)
  }

  lemma BackoffIsPower(n: nat)
    requires 0 < n < MAX_ATTEMPTS
    ensures Backoff(n) == Pow2(n) < MAX_BACKOFF_S
  {
    assert Pow2(8) == 256;
  }

  lemma SendSettles(e: Event, d: Event, reply: Reply, start: int)
    requires Settled(e) && DraftFits(e, d, start, false)
    ensures DraftFits(e, Sent(d, reply, start), start, true)
    ensures Sent(d, reply, start).appended == d.appended + (if reply.Refused? then 0 else 1)
  {
    var r := Sent(d, reply, start);
    if !reply.Acknowledged? {
      assert r.failures == e.failures + [start];
      forall k | 0 <= k && k + 1 < |r.failures|
        ensures r.failures[k + 1] >= r.failures[k] + Backoff(k + 1)
      {
      }
    }
  }

  lemma CountAppend(stream: seq<EventId>, x: EventId, i: EventId)
    ensures Count(stream + [x], i) == Count(stream, i) + (if x == i then 1 else 0)
  {
    assert (stream + [x])[..|stream|] == stream;
  }

  ghost predicate AllTicksFit(s: Outbox) {
    forall t :: t in s.ticks ==> TickFits(s, t)
  }

  lemma BeginKeepsTicks(s: Outbox, t: TickId, batch: seq<EventId>)
    requires AllTicksFit(s) && Enabled(s, Begin(t, batch))
    ensures AllTicksFit(Apply(s, Begin(t, batch)))
  {
  }

  lemma BeginKeepsStream(s: Outbox, t: TickId, batch: seq<EventId>)
    requires StreamFits(s) && Enabled(s, Begin(t, batch))
    ensures StreamFits(Apply(s, Begin(t, batch)))
  {
    var z := Apply(s, Begin(t, batch));
    forall i: nat | i < |s.events|
      ensures Current(z, i).appended == Current(s, i).appended
    {
    }
  }

  lemma BeginKeepsSound(s: Outbox, t: TickId, batch: seq<EventId>)
    requires Sound(s) && Enabled(s, Begin(t, batch))
    ensures Sound(Apply(s, Begin(t, batch)))
  {
    BeginKeepsTicks(s, t, batch);
    BeginKeepsStream(s, t, batch);
  }

  lemma SendKeepsTicks(s: Outbox, t: TickId, reply: Reply)
    requires Enabled(s, Send(t, reply)) && AllTicksFit(s)
    requires forall i :: 0 <= i < |s.events| ==> Settled(s.events[i])
    ensures AllTicksFit(Apply(s, Send(t, reply)))
  {
    var z := Apply(s, Send(t, reply));
    var tick := s.ticks[t];
    var i := tick.batch[tick.done];
    SendSettles(s.events[i], s.drafts[i].row, reply, tick.start);
    forall u | u in z.ticks
      ensures TickFits(z, u)
    {
      assert TickFits(s, u);
      forall k | 0 <= k < |z.ticks[u].batch|
        ensures z.ticks[u].batch[k] == i ==> u == t && k == tick.done
      {
        assert Owned(s, z.ticks[u].batch[k], u);
      }
    }
  }

  lemma SendKeepsStream(s: Outbox, t: TickId, reply: Reply)
    requires Enabled(s, Send(t, reply)) && TickFits(s, t) && StreamFits(s)
    requires forall i :: 0 <= i < |s.events| ==> Settled(s.events[i])
    ensures StreamFits(Apply(s, Send(t, reply)))
  {
    var z := Apply(s, Send(t, reply));
    var tick := s.ticks[t];
    var x := tick.batch[tick.done];
    SendSettles(s.events[x], s.drafts[x].row, reply, tick.start);
    forall i: nat | i < |z.events|
      ensures Count(z.stream, i) == Current(z, i).appended + z.wasted[i]
    {
      CountAppend(s.stream, x, i);
    }
  }

  lemma SendKeepsSound(s: Outbox, t: TickId, reply: Reply)
    requires Sound(s) && Enabled(s, Send(t, reply))
    ensures Sound(Apply(s, Send(t, reply)))
  {
    SendKeepsTicks(s, t, reply);
    SendKeepsStream(s, t, reply);
  }

  /** A finished tick only takes its own locks along. */
  lemma ReleaseKeepsTicks(s: Outbox, t: TickId, z: Outbox)
    requires t in s.ticks && AllTicksFit(s) && z.drafts == Released(s, t) && z.ticks == s.ticks - {t} && z.now == s.now
    requires |z.events| == |s.events| && forall i :: 0 <= i < |s.events| ==> Owned(s, i, t) || z.events[i] == s.events[i]
    ensures AllTicksFit(z)
  {
    forall u | u in z.ticks
      ensures TickFits(z, u)
    {
      assert TickFits(s, u);
    }
  }

  lemma CommitKeepsSound(s: Outbox, t: TickId)
    requires Sound(s) && Enabled(s, Commit(t))
    ensures Sound(Apply(s, Commit(t)))
  {
    var z := Apply(s, Commit(t));
    assert TickFits(s, t);
    ReleaseKeepsTicks(s, t, z);
    forall i: nat | i < |s.events|
      ensures Settled(z.events[i]) && Current(z, i) == Current(s, i)
    {
    }
  }

  lemma RollbackKeepsSound(s: Outbox, t: TickId)
    requires Sound(s) && Enabled(s, Rollback(t))
    ensures Sound(Apply(s, Rollback(t)))
  {
    var z := Apply(s, Rollback(t));
    assert TickFits(s, t);
    ReleaseKeepsTicks(s, t, z);
    forall i: nat | i < |s.events|
      ensures Current(z, i).appended + z.wasted[i] == Current(s, i).appended + s.wasted[i]
    {
      if Owned(s, i, t) {
        assert i in s.ticks[t].batch;
      }
    }
  }

  lemma {:induction false} CountBound(stream: seq<EventId>, i: EventId)
    requires forall k :: 0 <= k < |stream| ==> stream[k] < i
    ensures Count(stream, i) == 0
  {
    if stream != [] {
      CountBound(stream[..|stream| - 1], i);
    }
  }

  lemma EnqueueKeepsSound(s: Outbox, created: int, delay: nat)
    requires Sound(s)
    ensures Sound(Apply(s, Enqueue(created, delay)))
  {
    var z := Apply(s, Enqueue(created, delay));
    CountBound(s.stream, |s.events|);
    forall t | t in z.ticks
      ensures TickFits(z, t)
    {
      assert TickFits(s, t);
    }
    LockedIsWaiting(s);
  }

  lemma WaitKeepsSound(s: Outbox, seconds: nat)
    requires Sound(s)
    ensures Sound(Apply(s, Wait(seconds)))
  {
    var z := Apply(s, Wait(seconds));
    forall t | t in z.ticks
      ensures TickFits(z, t)
    {
      assert TickFits(s, t);
    }
  }

  lemma LockedIsWaiting(s: Outbox)
    requires Sound(s)
    ensures forall i :: i in s.drafts ==> i < |s.events| && Waiting(s.events[i])
  {
    forall i | i in s.drafts
      ensures i < |s.events| && Waiting(s.events[i])
    {
      assert TickFits(s, s.drafts[i].owner);
    }
  }

  lemma StepKeepsSound(s: Outbox, step: Step)
    requires Sound(s) && Enabled(s, step)
    ensures Sound(Apply(s, step))
  {
    match step
    case Wait(d) => WaitKeepsSound(s, d);
    case Enqueue(c, delay) => EnqueueKeepsSound(s, c, delay);
    case Begin(t, batch) => BeginKeepsSound(s, t, batch);
    case Send(t, reply) => SendKeepsSound(s, t, reply);
    case Commit(t) => CommitKeepsSound(s, t);
    case Rollback(t) => RollbackKeepsSound(s, t);
  }

  lemma {:induction false} RunKeepsSound(s: Outbox, steps: seq<Step>)
    requires Sound(s) && Possible(s, steps)
    ensures Sound(Run(s, steps))
    decreases |steps|
  {
    if steps != [] {
      StepKeepsSound(s, steps[0]);
      RunKeepsSound(Apply(s, steps[0]), steps[1..]);
    }
  }
}
