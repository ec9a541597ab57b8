/**
 The outbox publisher: any number of ticks at the same time, each one transaction that
 locks a batch of events, appends them to the stream and records how that went. The
 stream is not part of the transaction, so what a rolled-back tick appended stays.
 */
module OutboxModel {

  const BATCH_SIZE := 10
  const MAX_ATTEMPTS := 8
  const BASE_BACKOFF_S := 2
  const MAX_BACKOFF_S := 300

  type EventId = nat
  type TickId = nat

  datatype Status = Pending | Processing | Published | Failed | Dead

  /**
   A row of the outbox. `failures` (when the failed ticks had started), `appended` and
   `unacknowledged` (how often the row's own ticks appended it, and how many of these got
   an error back) are bookkeeping beside the columns.
   */
  datatype Event = Event(
    status: Status, attempts: nat, availableAt: int, created: int,
    failures: seq<int>, appended: nat, unacknowledged: nat)

  /** How an append ended: done, not done, or done although the publisher got an error. */
  datatype Reply = Acknowledged | Refused | ReplyLost

  /** A row as its locking tick sees it. */
  datatype Draft = Draft(owner: TickId, row: Event)

  datatype Tick = Tick(start: int, batch: seq<EventId>, done: nat)

  datatype Outbox = Outbox(
    now: int, events: seq<Event>, drafts: map<EventId, Draft>, ticks: map<TickId, Tick>,
    stream: seq<EventId>, wasted: seq<nat>)

  const INITIAL := Outbox(0, [], map[], map[], [], [])

  datatype Step =
    | Wait(seconds: nat)
    | Enqueue(created: int, delay: nat)
    | Begin(t: TickId, batch: seq<EventId>)
    | Send(t: TickId, reply: Reply)
    | Commit(t: TickId)
    | Rollback(t: TickId)

  // ----- One row --------------------------------------------------------------------

  function Pow2(n: nat): nat {
    if n == 0 then 1 else 2 * Pow2(n - 1)
  }

  /** Seconds to wait after the n-th failure. */
  function Backoff(n: nat): nat
    requires n > 0
  {
    var d := BASE_BACKOFF_S * Pow2(n - 1);
    if d < MAX_BACKOFF_S then d else MAX_BACKOFF_S
  }

  /** A new row, due at once or, as a retry's dispatch, after its backoff. */
  function NewEvent(now: int, created: int, delay: nat): Event {
    Event(Pending, 0, now + delay, created, [], 0, 0)
  }

  function Sent(e: Event, reply: Reply, start: int): Event {
    var next := e.attempts + 1;
    if reply.Acknowledged? then e.(status := Published, attempts := next, appended := e.appended + 1)
    else
      var f := e.(attempts := next, failures := e.failures + [start]);
      var g := if reply.ReplyLost? then f.(appended := f.appended + 1, unacknowledged := f.unacknowledged + 1) else f;
      if next >= MAX_ATTEMPTS then g.(status := Dead)
      else g.(status := Failed, availableAt := start + Backoff(next))
  }

  // ----- The query that picks a batch -----------------------------------------------

  predicate Waiting(e: Event) {
    e.status == Pending || e.status == Failed
  }

  predicate Eligible(s: Outbox, i: EventId) {
    i < |s.events| && i !in s.drafts && Waiting(s.events[i]) && s.events[i].availableAt <= s.now
  }

  predicate Distinct(batch: seq<EventId>) {
    forall i, k :: 0 <= i < k < |batch| ==> batch[i] != batch[k]
  }

  /** The oldest due events nobody has locked, at most ten, oldest first. */
  predicate IsBatch(s: Outbox, batch: seq<EventId>) {
    && batch != [] && |batch| <= BATCH_SIZE && Distinct(batch)
    && (forall k :: 0 <= k < |batch| ==> Eligible(s, batch[k]))
    && (forall i, k :: 0 <= i < k < |batch| ==> s.events[batch[i]].created <= s.events[batch[k]].created)
    && (forall e: nat :: e < |s.events| && Eligible(s, e) && e !in batch ==>
          |batch| == BATCH_SIZE && forall k :: 0 <= k < |batch| ==> s.events[batch[k]].created <= s.events[e].created)
  }

  // ----- Steps ----------------------------------------------------------------------

  predicate Owned(s: Outbox, i: EventId, t: TickId) {
    i in s.drafts && s.drafts[i].owner == t
  }

  /** The newest version of a row: the locking tick's, else the committed one. */
  function Current(s: Outbox, i: EventId): Event
    requires i < |s.events|
  {
    if i in s.drafts then s.drafts[i].row else s.events[i]
  }

  predicate Enabled(s: Outbox, step: Step) {
    match step
    case Wait(_) => true
    case Enqueue(_, _) => true
    case Begin(t, batch) => t !in s.ticks && IsBatch(s, batch)
    case Send(t, _) =>
      t in s.ticks && s.ticks[t].done < |s.ticks[t].batch| && s.ticks[t].batch[s.ticks[t].done] in s.drafts
    case Commit(t) => t in s.ticks && s.ticks[t].done == |s.ticks[t].batch|
    case Rollback(t) => t in s.ticks
  }

  function Locked(s: Outbox, t: TickId, batch: seq<EventId>): map<EventId, Draft>
    requires forall k :: 0 <= k < |batch| ==> batch[k] < |s.events|
  {
    s.drafts + map i: EventId | i in batch :: Draft(t, s.events[i].(status := Processing))
  }

  function Released(s: Outbox, t: TickId): map<EventId, Draft> {
    map i | i in s.drafts && s.drafts[i].owner != t :: s.drafts[i]
  }

  function Appended(stream: seq<EventId>, i: EventId, reply: Reply): seq<EventId> {
    if reply.Refused? then stream else stream + [i]
  }

  /** What the tick appended for a row it now gives up. */
  function Given(s: Outbox, i: EventId, t: TickId): nat
    requires i < |s.events|
  {
    if Owned(s, i, t) && s.drafts[i].row.appended >= s.events[i].appended
    then s.drafts[i].row.appended - s.events[i].appended else 0
  }

  function Apply(s: Outbox, step: Step): Outbox
    requires Enabled(s, step)
  {
    match step
    case Wait(d) => s.(now := s.now + d)
    case Enqueue(c, delay) => s.(events := s.events + [NewEvent(s.now, c, delay)], wasted := s.wasted + [0])
    case Begin(t, batch) =>
      s.(drafts := Locked(s, t, batch), ticks := s.ticks[t := Tick(s.now, batch, 0)])
    case Send(t, reply) =>
      var tick := s.ticks[t];
      var i := tick.batch[tick.done];
      s.(drafts := s.drafts[i := Draft(t, Sent(s.drafts[i].row, reply, tick.start))],
         ticks := s.ticks[t := tick.(done := tick.done + 1)],
         stream := Appended(s.stream, i, reply))
    case Commit(t) =>
      s.(events := seq(|s.events|, i requires 0 <= i < |s.events| => if Owned(s, i, t) then s.drafts[i].row else s.events[i]),
         drafts := Released(s, t), ticks := s.ticks - {t})
    case Rollback(t) =>
      s.(wasted := seq(|s.wasted|, i requires 0 <= i < |s.wasted| => if i < |s.events| then s.wasted[i] + Given(s, i, t) else s.wasted[i]),
         drafts := Released(s, t), ticks := s.ticks - {t})
  }

  /** The end of a run, if every step was possible. */
  predicate Possible(s: Outbox, steps: seq<Step>)
    decreases |steps|
  {
    steps == [] || (Enabled(s, steps[0]) && Possible(Apply(s, steps[0]), steps[1..]))
  }

  function Run(s: Outbox, steps: seq<Step>): Outbox
    requires Possible(s, steps)
    decreases |steps|
  {
    if steps == [] then s else Run(Apply(s, steps[0]), steps[1..])
  }
}
