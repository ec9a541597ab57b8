/** What can be said of an event at any moment of any run of the outbox. */
module OutboxHistory {
  import opened OutboxModel
  import opened OutboxInvariants

  ghost predicate Final(e: Event) {
    e.status == Published || e.status == Dead
  }

  /** Committed as published or dead, a row never changes again. */
  lemma FinalStays(s: Outbox, step: Step, i: EventId)
    requires Sound(s) && Enabled(s, step) && i < |s.events| && Final(s.events[i])
    ensures i < |Apply(s, step).events| && Apply(s, step).events[i] == s.events[i]
  {
    LockedIsWaiting(s);
  }

  lemma {:induction false} FinalStaysForGood(s: Outbox, steps: seq<Step>, i: EventId)
    requires Sound(s) && Possible(s, steps) && i < |s.events| && Final(s.events[i])
    ensures i < |Run(s, steps).events| && Run(s, steps).events[i] == s.events[i]
    decreases |steps|
  {
    if steps != [] {
      FinalStays(s, steps[0], i);
      StepKeepsSound(s, steps[0]);
      FinalStaysForGood(Apply(s, steps[0]), steps[1..], i);
    }
  }

  /** How often a run commits an event as published. */
  ghost function Publications(s: Outbox, steps: seq<Step>, i: EventId): nat
    requires Possible(s, steps)
    decreases |steps|
  {
    if steps == [] then 0
    else
      var z := Apply(s, steps[0]);
      (if IsPublished(z, i) && !IsPublished(s, i) then 1 else 0) + Publications(z, steps[1..], i)
  }

  ghost predicate IsPublished(s: Outbox, i: EventId) {
    i < |s.events| && s.events[i].status == Published
  }

  lemma {:induction false} PublicationsCount(s: Outbox, steps: seq<Step>, i: EventId)
    requires Sound(s) && Possible(s, steps)
    ensures Publications(s, steps, i) + (if IsPublished(s, i) then 1 else 0) == if IsPublished(Run(s, steps), i) then 1 else 0
    decreases |steps|
  {
    if steps != [] {
      if IsPublished(s, i) {
        FinalStays(s, steps[0], i);
      }
      StepKeepsSound(s, steps[0]);
      PublicationsCount(Apply(s, steps[0]), steps[1..], i);
    }
  }

  /**
   In every run, with any number of ticks at the same time and any rollbacks: no committed
   row is PROCESSING, and an event is committed as published at most once, exactly if it
   ends up published.
   */
  lemma PublishedAtMostOnce(steps: seq<Step>, i: EventId)
    requires Possible(INITIAL, steps)
    ensures Publications(INITIAL, steps, i) == if IsPublished(Run(INITIAL, steps), i) then 1 else 0
    ensures i < |Run(INITIAL, steps).events| ==> Run(INITIAL, steps).events[i].status != Processing
  {
    PublicationsCount(INITIAL, steps, i);
    RunKeepsSound(INITIAL, steps);
  }

  /**
   The stream holds each event as often as the row's committed and running ticks appended
   it and rolled-back ticks wasted it; so a published one is in it, and when no tick has it
   locked every further entry is a lost reply or a rollback.
   */
  lemma StreamIsAccountedFor(steps: seq<Step>, i: EventId)
    requires Possible(INITIAL, steps) && i < |Run(INITIAL, steps).events|
    ensures var s := Run(INITIAL, steps);
            var e := s.events[i];
            && |s.wasted| == |s.events|
            && Count(s.stream, i) == Current(s, i).appended + s.wasted[i]
            && (i !in s.drafts ==>
                  Count(s.stream, i) == (if e.status == Published then 1 else 0) + e.unacknowledged + s.wasted[i])
            && (e.status == Published ==> i in s.stream)
  {
    var s := Run(INITIAL, steps);
    RunKeepsSound(INITIAL, steps);
    if s.events[i].status == Published {
      LockedIsWaiting(s);
      CountedIsIn(s.stream, i);
    }
  }

  lemma {:induction false} CountedIsIn(stream: seq<EventId>, i: EventId)
    requires Count(stream, i) > 0
    ensures i in stream
  {
    if stream[|stream| - 1] != i {
      CountedIsIn(stream[..|stream| - 1], i);
    }
  }

  /** Nothing rolls back and no reply is lost. */
  predicate Smooth(steps: seq<Step>) {
    forall k :: 0 <= k < |steps| ==> !steps[k].Rollback? && (steps[k].Send? ==> !steps[k].reply.ReplyLost?)
  }

  ghost predicate NothingWasted(s: Outbox) {
    && (forall i :: 0 <= i < |s.wasted| ==> s.wasted[i] == 0)
    && (forall i :: 0 <= i < |s.events| ==> s.events[i].unacknowledged == 0)
    && (forall i :: i in s.drafts ==> s.drafts[i].row.unacknowledged == 0)
  }

  lemma {:induction false} SmoothWastesNothing(s: Outbox, steps: seq<Step>)
    requires NothingWasted(s) && Possible(s, steps) && Smooth(steps)
    ensures NothingWasted(Run(s, steps))
    decreases |steps|
  {
    if steps != [] {
      assert !steps[0].Rollback? && (steps[0].Send? ==> !steps[0].reply.ReplyLost?);
      assert forall k :: 0 <= k < |steps[1..]| ==> steps[1..][k] == steps[k + 1];
      SmoothWastesNothing(Apply(s, steps[0]), steps[1..]);
    }
  }

  /** Without rollbacks and lost replies every event no tick holds is in the stream exactly once if published, else not at all. */
  lemma SmoothRunsDeliverExactlyOnce(steps: seq<Step>, i: EventId)
    requires Possible(INITIAL, steps) && Smooth(steps)
    requires var s := Run(INITIAL, steps); i < |s.events| && i !in s.drafts
    ensures var s := Run(INITIAL, steps); Count(s.stream, i) == if s.events[i].status == Published then 1 else 0
  {
    StreamIsAccountedFor(steps, i);
    SmoothWastesNothing(INITIAL, steps);
  }

  // ----- Attempts and delays --------------------------------------------------------------

  /** What the waits before the n-th failure add up to. */
  function WaitedBefore(n: nat): nat {
    if n <= 1 then 0 else WaitedBefore(n - 1) + Backoff(n - 1)
  }

  lemma {:induction false} FailuresSpread(failures: seq<int>, n: nat)
    requires SpacedOut(failures) && 1 <= n <= |failures|
    ensures failures[n - 1] >= failures[0] + WaitedBefore(n)
  {
    if n > 1 {
      FailuresSpread(failures, n - 1);
      assert failures[n - 2 + 1] >= failures[n - 2] + Backoff(n - 1);
    }
  }

  lemma SevenWaits()
    ensures WaitedBefore(MAX_ATTEMPTS) == 254
    ensures forall n: nat :: 0 < n < MAX_ATTEMPTS ==> Backoff(n) == Pow2(n) < MAX_BACKOFF_S
  {
    forall n: nat | 0 < n < MAX_ATTEMPTS
      ensures Backoff(n) == Pow2(n) < MAX_BACKOFF_S
    {
      BackoffIsPower(n);
    }
    assert Pow2(1) == 2 && Pow2(2) == 4 && Pow2(3) == 8 && Pow2(4) == 16 && Pow2(5) == 32 && Pow2(6) == 64 && Pow2(7) == 128;
    assert WaitedBefore(2) == 2 && WaitedBefore(3) == 6 && WaitedBefore(4) == 14 && WaitedBefore(5) == 30;
    assert WaitedBefore(6) == 62 && WaitedBefore(7) == 126;
  }

  /**
   Every event is tried at most eight times, is dead exactly after its eighth failure, and
   that comes at least 254 seconds after the first, with no wait cut short by the cap.
   */
  lemma DeadAfterEightFailures(steps: seq<Step>, i: EventId)
    requires Possible(INITIAL, steps) && i < |Run(INITIAL, steps).events|
    ensures var e := Run(INITIAL, steps).events[i];
            && e.attempts <= MAX_ATTEMPTS
            && (e.status == Dead <==> |e.failures| == MAX_ATTEMPTS)
            && (e.status == Dead ==> e.failures[7] >= e.failures[0] + 254)
            && (e.status == Failed ==>
                  && 0 < |e.failures| < MAX_ATTEMPTS
                  && e.availableAt == e.failures[|e.failures| - 1] + Pow2(|e.failures|))
  {
    var e := Run(INITIAL, steps).events[i];
    RunKeepsSound(INITIAL, steps);
    SevenWaits();
    if e.status == Dead {
      FailuresSpread(e.failures, 8);
    }
  }

  // ----- Delays before the first attempt ------------------------------------------------------

  /** Event i is neither available nor in the stream before `due`. */
  ghost predicate NotBefore(s: Outbox, i: EventId, due: int) {
    && i < |s.events| && s.events[i].availableAt >= due
    && (i in s.drafts ==> s.drafts[i].row.availableAt >= due)
    && (i in s.stream ==> s.now >= due)
  }

  lemma StepKeepsOff(s: Outbox, step: Step, i: EventId, due: int)
    requires Sound(s) && Enabled(s, step) && NotBefore(s, i, due)
    ensures NotBefore(Apply(s, step), i, due)
  {
    if step.Send? {
      assert TickFits(s, step.t);
    }
  }

  lemma {:induction false} RunKeepsOff(s: Outbox, steps: seq<Step>, i: EventId, due: int)
    requires Sound(s) && Possible(s, steps) && NotBefore(s, i, due)
    ensures NotBefore(Run(s, steps), i, due)
    decreases |steps|
  {
    if steps != [] {
      StepKeepsSound(s, steps[0]);
      StepKeepsOff(s, steps[0], i, due);
      RunKeepsOff(Apply(s, steps[0]), steps[1..], i, due);
    }
  }

  /** Whatever has happened and happens then, a delayed event is not in the stream before its delay is over. */
  lemma NothingIsSentEarly(before: seq<Step>, created: int, delay: nat, after: seq<Step>)
    requires Possible(INITIAL, before)
    requires Possible(Apply(Run(INITIAL, before), Enqueue(created, delay)), after)
    ensures var s := Run(INITIAL, before);
            var z := Run(Apply(s, Enqueue(created, delay)), after);
            |s.events| in z.stream ==> z.now >= s.now + delay
  {
    var s := Run(INITIAL, before);
    RunKeepsSound(INITIAL, before);
    StepKeepsSound(s, Enqueue(created, delay));
    LockedIsWaiting(s);
    RunKeepsOff(Apply(s, Enqueue(created, delay)), after, |s.events|, s.now + delay);
  }

  // ----- Rolled-back ticks ------------------------------------------------------------------

  /** A rollback gives every row of the batch back as it was, due at once, and takes nothing out of the stream. */
  lemma RollbackGivesBack(s: Outbox, t: TickId, k: nat)
    requires Sound(s) && Enabled(s, Rollback(t)) && k < |s.ticks[t].batch|
    ensures var z := Apply(s, Rollback(t));
            var i := s.ticks[t].batch[k];
            && z.events == s.events && z.stream == s.stream
            && Eligible(z, i)
  {
    assert TickFits(s, t);
  }
}
