/**
 No event is given up before its eighth failure: from every reachable outbox, whatever
 ticks are under way, the publisher can still publish every event that is not dead.
 */
module OutboxProgress {
  import opened OutboxModel
  import opened OutboxInvariants

  // ----- Runs one after the other -----------------------------------------------------

  lemma {:induction false} RunAppend(s: Outbox, a: seq<Step>, b: seq<Step>)
    requires Possible(s, a) && Possible(Run(s, a), b)
    ensures Possible(s, a + b) && Run(s, a + b) == Run(Run(s, a), b)
    decreases |a|
  {
    if a == [] {
      assert a + b == b;
    } else {
      assert (a + b)[1..] == a[1..] + b;
      RunAppend(Apply(s, a[0]), a[1..], b);
    }
  }

  lemma RunOne(s: Outbox, step: Step)
    requires Enabled(s, step)
    ensures Possible(s, [step]) && Run(s, [step]) == Apply(s, step)
  {
    assert [step][1..] == [];
  }

  // ----- A batch can be found -----------------------------------------------------------

  /** The oldest due events nobody has locked, so far. */
  ghost predicate OldestFirst(s: Outbox, batch: seq<EventId>) {
    && Distinct(batch)
    && (forall k :: 0 <= k < |batch| ==> Eligible(s, batch[k]))
    && (forall i, k :: 0 <= i < k < |batch| ==> s.events[batch[i]].created <= s.events[batch[k]].created)
    && (forall e: EventId, k :: Eligible(s, e) && e !in batch && 0 <= k < |batch| ==>
          s.events[batch[k]].created <= s.events[e].created)
  }

  lemma {:induction false} Oldest(s: Outbox, picked: seq<EventId>, n: nat) returns (best: EventId)
    requires n <= |s.events| && exists e: EventId :: e < n && Eligible(s, e) && e !in picked
    ensures best < n && Eligible(s, best) && best !in picked
    ensures forall e: EventId :: e < n && Eligible(s, e) && e !in picked ==> s.events[best].created <= s.events[e].created
    decreases n
  {
    if exists e: EventId :: e < n - 1 && Eligible(s, e) && e !in picked {
      best := Oldest(s, picked, n - 1);
      if Eligible(s, n - 1) && n - 1 !in picked && s.events[n - 1].created < s.events[best].created {
        best := n - 1;
      }
    } else {
      best := n - 1;
    }
  }

  lemma {:induction false} BatchExists(s: Outbox, picked: seq<EventId>) returns (batch: seq<EventId>)
    requires OldestFirst(s, picked) && |picked| <= BATCH_SIZE
    requires picked != [] || exists e: EventId :: Eligible(s, e)
    ensures IsBatch(s, batch)
    decreases BATCH_SIZE - |picked|
  {
    if |picked| == BATCH_SIZE || forall e: EventId :: Eligible(s, e) ==> e in picked {
      batch := picked;
    } else {
      var best := Oldest(s, picked, |s.events|);
      batch := BatchExists(s, picked + [best]);
    }
  }

  // ----- A tick that publishes its whole batch --------------------------------------------

  /** The tick has published the first n events of its batch and nothing else is under way. */
  ghost predicate Publishing(s0: Outbox, s: Outbox, batch: seq<EventId>, n: nat) {
    && s.events == s0.events && s.now == s0.now && Distinct(batch) && n <= |batch|
    && s.ticks == map[0 := Tick(s0.now, batch, n)]
    && (forall i :: i in s.drafts <==> i in batch)
    && (forall i :: i in s.drafts ==> s.drafts[i].owner == 0 && i < |s.events|)
    && forall k :: 0 <= k < n ==> s.drafts[batch[k]].row.status == Published
  }

  lemma BeginPublishing(s: Outbox, batch: seq<EventId>)
    requires s.ticks == map[] && s.drafts == map[] && IsBatch(s, batch)
    ensures Enabled(s, Begin(0, batch)) && Publishing(s, Apply(s, Begin(0, batch)), batch, 0)
  {
  }

  lemma SendPublishes(s0: Outbox, s: Outbox, batch: seq<EventId>, n: nat)
    requires Publishing(s0, s, batch, n) && n < |batch|
    ensures Enabled(s, Send(0, Acknowledged)) && Publishing(s0, Apply(s, Send(0, Acknowledged)), batch, n + 1)
  {
    assert batch[n] in batch;
  }

  lemma {:induction false} SendRest(s0: Outbox, s: Outbox, batch: seq<EventId>, n: nat) returns (steps: seq<Step>)
    requires Publishing(s0, s, batch, n)
    ensures Possible(s, steps) && Publishing(s0, Run(s, steps), batch, |batch|)
    decreases |batch| - n
  {
    if n == |batch| {
      steps := [];
    } else {
      var step := Send(0, Acknowledged);
      SendPublishes(s0, s, batch, n);
      var rest := SendRest(s0, Apply(s, step), batch, n + 1);
      RunOne(s, step);
      RunAppend(s, [step], rest);
      steps := [step] + rest;
    }
  }

  /** Nobody is at work, and the batch is published. */
  ghost predicate Delivered(s: Outbox, s': Outbox, batch: seq<EventId>) {
    && s'.ticks == map[] && s'.drafts == map[] && |s'.events| == |s.events|
    && forall i: EventId :: i < |s.events| ==> if i in batch then s'.events[i].status == Published else s'.events[i] == s.events[i]
  }

  lemma CommitDelivers(s0: Outbox, s: Outbox, batch: seq<EventId>)
    requires Publishing(s0, s, batch, |batch|)
    ensures Enabled(s, Commit(0)) && Delivered(s0, Apply(s, Commit(0)), batch)
  {
    var z := Apply(s, Commit(0));
    assert z.ticks == map[] && z.drafts == map[];
    forall i: EventId | i < |s0.events| && i in batch
      ensures z.events[i].status == Published
    {
      var k :| 0 <= k < |batch| && batch[k] == i;
    }
  }

  lemma PublishBatch(s: Outbox, batch: seq<EventId>) returns (steps: seq<Step>)
    requires s.ticks == map[] && s.drafts == map[] && IsBatch(s, batch)
    ensures Possible(s, steps) && Delivered(s, Run(s, steps), batch)
  {
    var begin, commit := Begin(0, batch), Commit(0);
    BeginPublishing(s, batch);
    RunOne(s, begin);
    var sends := SendRest(s, Apply(s, begin), batch, 0);
    RunAppend(s, [begin], sends);
    var sent := Run(s, [begin] + sends);
    CommitDelivers(s, sent, batch);
    RunOne(sent, commit);
    RunAppend(s, [begin] + sends, [commit]);
    steps := ([begin] + sends) + [commit];
  }

  // ----- All events -------------------------------------------------------------------------

  ghost predicate Open(e: Event) {
    e.status != Published && e.status != Dead
  }

  ghost function OpenEvents(s: Outbox): set<EventId> {
    set i: EventId | i < |s.events| && Open(s.events[i])
  }

  /** When all events that wait now are due. */
  lemma {:induction false} AllDue(events: seq<Event>) returns (due: int)
    ensures forall i :: 0 <= i < |events| ==> events[i].availableAt <= due
  {
    if events == [] {
      due := 0;
    } else {
      var n := |events| - 1;
      due := AllDue(events[..n]);
      assert forall i :: 0 <= i < n ==> events[..n][i] == events[i];
      if due < events[n].availableAt {
        due := events[n].availableAt;
      }
    }
  }

  /** Dead events stay as they are, and every other one is published. */
  ghost predicate Served(s: Outbox, s': Outbox) {
    && |s'.events| == |s.events|
    && forall i: EventId :: i < |s.events| ==>
         if s.events[i].status == Dead then s'.events[i] == s.events[i] else s'.events[i].status == Published
  }

  lemma ServedLater(s: Outbox, mid: Outbox, s': Outbox, batch: seq<EventId>)
    requires Delivered(s, mid, batch) && Served(mid, s')
    requires forall i :: i in batch ==> i < |s.events| && s.events[i].status != Dead
    ensures Served(s, s')
  {
  }

  lemma FewerOpen(s: Outbox, mid: Outbox, batch: seq<EventId>)
    requires Delivered(s, mid, batch) && batch != [] && batch[0] < |s.events| && Open(s.events[batch[0]])
    ensures |OpenEvents(mid)| < |OpenEvents(s)|
  {
    var a, b := OpenEvents(mid), OpenEvents(s);
    assert batch[0] in batch && batch[0] in b && batch[0] !in a;
    assert a <= b - {batch[0]};
    SubsetIsSmaller(a, b - {batch[0]});
  }

  lemma {:induction false} SubsetIsSmaller(a: set<EventId>, b: set<EventId>)
    requires a <= b
    ensures |a| <= |b|
  {
    if a != {} {
      var x :| x in a;
      SubsetIsSmaller(a - {x}, b - {x});
    }
  }

  /** With nobody at work, batch after batch. */
  lemma {:induction false} PublishAll(s: Outbox) returns (steps: seq<Step>)
    requires s.ticks == map[] && s.drafts == map[] && Sound(s)
    ensures Possible(s, steps) && Served(s, Run(s, steps))
    decreases |OpenEvents(s)|
  {
    if OpenEvents(s) == {} {
      steps := [];
      assert forall i: EventId :: i < |s.events| && Open(s.events[i]) ==> i in OpenEvents(s);
    } else {
      var first :| first in OpenEvents(s);
      var due := AllDue(s.events);
      var wait := Wait(if due > s.now then due - s.now else 0);
      var waited := Apply(s, wait);
      assert Eligible(waited, first);
      var batch := BatchExists(waited, []);
      var tick := PublishBatch(waited, batch);
      RunOne(s, wait);
      RunAppend(s, [wait], tick);
      var mid := Run(s, [wait] + tick);
      RunKeepsSound(s, [wait] + tick);
      assert Eligible(waited, batch[0]);
      FewerOpen(s, mid, batch);
      var rest := PublishAll(mid);
      RunAppend(s, [wait] + tick, rest);
      steps := ([wait] + tick) + rest;
      BatchIsAlive(waited, batch);
      ServedLater(s, mid, Run(s, steps), batch);
    }
  }

  lemma BatchIsAlive(s: Outbox, batch: seq<EventId>)
    requires IsBatch(s, batch)
    ensures forall i :: i in batch ==> i < |s.events| && s.events[i].status != Dead
  {
  }

  /** Every tick under way can end in a rollback. */
  lemma {:induction false} RollBackAll(s: Outbox) returns (steps: seq<Step>)
    requires Sound(s)
    ensures Possible(s, steps) && Run(s, steps).ticks == map[] && Run(s, steps).drafts == map[]
    ensures Run(s, steps).events == s.events
    decreases |s.ticks|
  {
    if s.ticks == map[] {
      steps := [];
      assert forall i :: i in s.drafts ==> false;
    } else {
      var t :| t in s.ticks;
      var z := Apply(s, Rollback(t));
      assert z.ticks.Keys == s.ticks.Keys - {t};
      StepKeepsSound(s, Rollback(t));
      var rest := RollBackAll(z);
      RunOne(s, Rollback(t));
      RunAppend(s, [Rollback(t)], rest);
      steps := [Rollback(t)] + rest;
    }
  }

  /**
   From every reachable outbox, whatever has failed and whatever ticks are under way, some
   run publishes every event that is not dead: pending and failed ones alike.
   */
  lemma EveryEventCanBePublished(steps: seq<Step>) returns (more: seq<Step>)
    requires Possible(INITIAL, steps)
    ensures Possible(INITIAL, steps + more) && Served(Run(INITIAL, steps), Run(INITIAL, steps + more))
  {
    var s := Run(INITIAL, steps);
    RunKeepsSound(INITIAL, steps);
    var back := RollBackAll(s);
    RunKeepsSound(s, back);
    var rest := PublishAll(Run(s, back));
    RunAppend(s, back, rest);
    more := back + rest;
    RunAppend(INITIAL, steps, more);
  }
}
