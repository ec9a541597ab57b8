/** The publisher's tick as the program runs it, against the steps of the model. */
module OutboxPublisher {
  import opened OutboxModel

  function Sends(t: TickId, replies: seq<Reply>): seq<Step> {
    seq(|replies|, i requires 0 <= i < |replies| => Send(t, replies[i]))
  }

  /** A tick is committed if the database answers to the end, else rolled back after the replies it got. */
  function TickSteps(t: TickId, batch: seq<EventId>, replies: seq<Reply>, commits: bool): seq<Step> {
    var got := if |replies| < |batch| then replies else replies[..|batch|];
    [Begin(t, batch)] + Sends(t, got) + [if commits && |got| == |batch| then Commit(t) else Rollback(t)]
  }

  lemma {:induction false} RunExtends(s: Outbox, steps: seq<Step>, last: Step)
    requires Possible(s, steps) && Enabled(Run(s, steps), last)
    ensures Possible(s, steps + [last]) && Run(s, steps + [last]) == Apply(Run(s, steps), last)
    decreases |steps|
  {
    if steps != [] {
      assert (steps + [last])[1..] == steps[1..] + [last];
      RunExtends(Apply(s, steps[0]), steps[1..], last);
    }
  }

  lemma LockedGrows(s: Outbox, t: TickId, batch: seq<EventId>, k: nat)
    requires k < |batch| && forall i :: 0 <= i < |batch| ==> batch[i] < |s.events|
    ensures Locked(s, t, batch[..k + 1])
            == Locked(s, t, batch[..k])[batch[k] := Draft(t, s.events[batch[k]].(status := Processing))]
  {
    var ids, more := batch[..k], batch[..k + 1];
    assert more == ids + [batch[k]];
    assert forall i :: i in more <==> i in ids || i == batch[k];
  }

  lemma SendsGrow(steps: seq<Step>, t: TickId, replies: seq<Reply>, k: nat)
    requires k < |replies|
    ensures steps + Sends(t, replies[..k + 1]) == (steps + Sends(t, replies[..k])) + [Send(t, replies[k])]
  {
  }

  lemma BatchSays(s: Outbox, batch: seq<EventId>)
    requires if batch == [] then forall e: EventId :: !Eligible(s, e) else IsBatch(s, batch)
    ensures |batch| <= 10 && forall k :: 0 <= k < |batch| ==>
          && batch[k] < |s.events| && batch[k] !in s.drafts
          && s.events[batch[k]].status in {Pending, Failed} && s.events[batch[k]].availableAt <= s.now
    ensures forall e: EventId ::
          && e < |s.events| && e !in s.drafts && s.events[e].status in {Pending, Failed} && s.events[e].availableAt <= s.now
          && e !in batch ==>
          |batch| == 10 && forall k :: 0 <= k < |batch| ==> s.events[batch[k]].created <= s.events[e].created
  {
    forall e: EventId | e < |s.events| && e !in s.drafts && s.events[e].status in {Pending, Failed} && s.events[e].availableAt <= s.now
      ensures Eligible(s, e)
    {
    }
  }

  class Publisher {
    var now: int
    var events: seq<Event>
    var drafts: map<EventId, Draft>
    var ticks: map<TickId, Tick>
    var stream: seq<EventId>
    var wasted: seq<nat>

    constructor ()
      ensures View() == INITIAL
    {
      now, events, drafts, ticks, stream, wasted := 0, [], map[], map[], [], [];
    }

    ghost function View(): Outbox
      reads this
    {
      Outbox(now, events, drafts, ticks, stream, wasted)
    }

    predicate Due(i: EventId)
      reads this
      ensures Due(i) <==> Eligible(View(), i)
    {
      i < |events| && i !in drafts && Waiting(events[i]) && events[i].availableAt <= now
    }

    /** The oldest due event that is not picked yet. */
    method Oldest(picked: seq<EventId>) returns (found: bool, best: EventId)
      ensures found ==> Eligible(View(), best) && best !in picked
      ensures found ==> forall e: EventId :: Eligible(View(), e) && e !in picked ==> events[best].created <= events[e].created
      ensures !found ==> forall e: EventId :: Eligible(View(), e) ==> e in picked
    {
      found, best := false, 0;
      for i := 0 to |events|
        invariant found ==> best < i && Eligible(View(), best) && best !in picked
        invariant forall e: EventId :: e < i && Eligible(View(), e) && e !in picked ==>
          found && events[best].created <= events[e].created
      {
        if Due(i) && i !in picked && (!found || events[i].created < events[best].created) {
          found, best := true, i;
        }
      }
    }

    /** One row after the other, oldest first. */
    method CollectBatch() returns (batch: seq<EventId>)
      ensures batch == [] ==> forall e: EventId :: !Eligible(View(), e)
      ensures batch != [] ==> IsBatch(View(), batch)
    {
      batch := [];
      while |batch| < BATCH_SIZE
        invariant |batch| <= BATCH_SIZE && Distinct(batch)
        invariant forall k :: 0 <= k < |batch| ==> Eligible(View(), batch[k])
        invariant forall i, k :: 0 <= i < k < |batch| ==> events[batch[i]].created <= events[batch[k]].created
        invariant forall e: EventId, k :: Eligible(View(), e) && e !in batch && 0 <= k < |batch| ==>
          events[batch[k]].created <= events[e].created
        decreases BATCH_SIZE - |batch|
      {
        var found, best := Oldest(batch);
        if !found {
          return;
        }
        batch := batch + [best];
      }
    }

    /** The rows the query returns: those that wait, pending or failed, are due and not locked, at most ten. */
    method PickBatch() returns (batch: seq<EventId>)
      ensures batch == [] ==> forall e: EventId :: !Eligible(View(), e)
      ensures batch != [] ==> IsBatch(View(), batch)
      ensures |batch| <= 10 && forall k :: 0 <= k < |batch| ==>
                && batch[k] < |events| && batch[k] !in drafts
                && events[batch[k]].status in {Pending, Failed} && events[batch[k]].availableAt <= now
      ensures forall e: EventId ::
                && e < |events| && e !in drafts && events[e].status in {Pending, Failed} && events[e].availableAt <= now
                && e !in batch ==>
                  |batch| == 10 && forall k :: 0 <= k < |batch| ==> events[batch[k]].created <= events[e].created
    {
      batch := CollectBatch();
      BatchSays(View(), batch);
    }

    method LockBatch(t: TickId, batch: seq<EventId>)
      requires Enabled(View(), Begin(t, batch))
      modifies this
      ensures View() == Apply(old(View()), Begin(t, batch))
    {
      ghost var s := View();
      for k := 0 to |batch|
        invariant View() == s.(drafts := drafts)
        invariant drafts == Locked(s, t, batch[..k])
      {
        LockedGrows(s, t, batch, k);
        drafts := drafts[batch[k] := Draft(t, events[batch[k]].(status := Processing))];
      }
      assert batch[..|batch|] == batch;
      ticks := ticks[t := Tick(now, batch, 0)];
    }

    method SendOne(t: TickId, reply: Reply)
      requires Enabled(View(), Send(t, reply))
      modifies this
      ensures View() == Apply(old(View()), Send(t, reply))
    {
      var tick := ticks[t];
      var i := tick.batch[tick.done];
      var row := drafts[i].row;
      if !reply.Refused? {
        stream := stream + [i];
      }
      if reply.Acknowledged? {
        row := row.(status := Published, attempts := row.attempts + 1, appended := row.appended + 1);
      } else {
        var nextAttempt := row.attempts + 1;
        row := row.(attempts := nextAttempt, failures := row.failures + [tick.start]);
        if reply.ReplyLost? {
          row := row.(appended := row.appended + 1, unacknowledged := row.unacknowledged + 1);
        }
        if nextAttempt >= MAX_ATTEMPTS {
          row := row.(status := Dead);
        } else {
          row := row.(status := Failed, availableAt := tick.start + Backoff(nextAttempt));
        }
      }
      drafts := drafts[i := Draft(t, row)];
      ticks := ticks[t := tick.(done := tick.done + 1)];
    }

    method CommitRows(t: TickId)
      modifies this`events
      ensures View() == old(View()).(events := events) && |events| == |old(events)|
      ensures forall k :: 0 <= k < |events| ==>
        events[k] == if Owned(old(View()), k, t) then drafts[k].row else old(events)[k]
    {
      var i := 0;
      while i < |events|
        invariant i <= |events| == |old(events)|
        invariant forall k :: 0 <= k < i ==> events[k] == if Owned(old(View()), k, t) then drafts[k].row else old(events)[k]
        invariant forall k :: i <= k < |events| ==> events[k] == old(events)[k]
      {
        if i in drafts && drafts[i].owner == t {
          events := events[i := drafts[i].row];
        }
        i := i + 1;
      }
    }

    /** Bookkeeping: what a rolled-back tick had appended is nobody's. */
    method CountWasted(t: TickId)
      modifies this`wasted
      ensures View() == old(View()).(wasted := wasted) && |wasted| == |old(wasted)|
      ensures forall k :: 0 <= k < |wasted| ==>
        wasted[k] == if k < |events| then old(wasted)[k] + Given(old(View()), k, t) else old(wasted)[k]
    {
      var i := 0;
      while i < |wasted|
        invariant i <= |wasted| == |old(wasted)|
        invariant forall k :: 0 <= k < i ==>
          wasted[k] == if k < |events| then old(wasted)[k] + Given(old(View()), k, t) else old(wasted)[k]
        invariant forall k :: i <= k < |wasted| ==> wasted[k] == old(wasted)[k]
      {
        if i < |events| && i in drafts && drafts[i].owner == t && drafts[i].row.appended >= events[i].appended {
          wasted := wasted[i := wasted[i] + (drafts[i].row.appended - events[i].appended)];
        }
        i := i + 1;
      }
    }

    method EndTick(t: TickId, commits: bool)
      requires t in ticks && (commits ==> ticks[t].done == |ticks[t].batch|)
      modifies this
      ensures View() == Apply(old(View()), if commits then Commit(t) else Rollback(t))
    {
      if commits {
        CommitRows(t);
      } else {
        CountWasted(t);
      }
      drafts := map i | i in drafts && drafts[i].owner != t :: drafts[i];
      ticks := ticks - {t};
    }

    /** One row after the other, as far as the database answers; `steps` led from `s` to here. */
    method SendAll(t: TickId, batch: seq<EventId>, replies: seq<Reply>, ghost s: Outbox, ghost steps: seq<Step>)
      returns (k: nat)
      requires t in ticks && ticks[t].batch == batch && ticks[t].done == 0
      requires forall j :: 0 <= j < |batch| ==> batch[j] in drafts
      requires Possible(s, steps) && View() == Run(s, steps)
      modifies this
      ensures t in ticks && ticks[t].batch == batch && ticks[t].done == k
      ensures k == if |replies| < |batch| then |replies| else |batch|
      ensures Possible(s, steps + Sends(t, replies[..k])) && View() == Run(s, steps + Sends(t, replies[..k]))
    {
      k := 0;
      ghost var path := steps + Sends(t, replies[..0]);
      assert path == steps;
      while k < |batch| && k < |replies|
        invariant k <= |batch| && k <= |replies|
        invariant t in ticks && ticks[t].batch == batch && ticks[t].done == k
        invariant forall j :: 0 <= j < |batch| ==> batch[j] in drafts
        invariant path == steps + Sends(t, replies[..k])
        invariant Possible(s, path) && View() == Run(s, path)
      {
        RunExtends(s, path, Send(t, replies[k]));
        SendOne(t, replies[k]);
        path := path + [Send(t, replies[k])];
        SendsGrow(steps, t, replies, k);
        k := k + 1;
      }
    }

    /**
     One tick. `replies` is what the stream answers, row by row; the database fails when
     they run out before the batch does, or at the commit.
     */
    method RunTick(t: TickId, replies: seq<Reply>, commits: bool) returns (batch: seq<EventId>)
      requires t !in ticks
      modifies this
      ensures batch == [] ==> View() == old(View()) && forall e: EventId :: !Eligible(View(), e)
      ensures batch != [] ==> IsBatch(old(View()), batch)
      ensures batch != [] ==> Possible(old(View()), TickSteps(t, batch, replies, commits))
      ensures batch != [] ==> View() == Run(old(View()), TickSteps(t, batch, replies, commits))
    {
      ghost var s := View();
      batch := PickBatch();
      if batch == [] {
        return;
      }
      ghost var steps := [Begin(t, batch)];
      RunExtends(s, [], Begin(t, batch));
      assert [] + steps == steps;
      LockBatch(t, batch);
      var k := SendAll(t, batch, replies, s, steps);
      var all := commits && k == |batch|;
      RunExtends(s, steps + Sends(t, replies[..k]), if all then Commit(t) else Rollback(t));
      assert replies[..|replies|] == replies;
      EndTick(t, all);
    }
  }
}
