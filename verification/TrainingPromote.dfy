/**
 Promotion of blocked jobs: repeated passes reach a fixpoint that depends only on
 the dependency graph, and a blocked job never waits on finished work.
 */
module TrainingPromote {
  import opened TrainingModel
  import opened TrainingTables

  function BlockedJobs(db: Db): (b: set<JobId>) {
    set j | 0 <= j < |db.jobs| && db.jobs[j].status == Blocked
  }

  /** One pass over the candidates, in the order the query returned them. */
  function Pass(db: Db, order: seq<JobId>): Db
    decreases |order|
  {
    if order == [] then db else Pass(Promote(db, order[0]), order[1..])
  }

  /** The query returns every blocked job and no other, in any order. */
  ghost predicate Candidates(db: Db, order: seq<JobId>) {
    forall j :: j in order <==> j in BlockedJobs(db)
  }

  /** Passes repeated with no other step in between. */
  function Passes(db: Db, orders: seq<seq<JobId>>): Db
    decreases |orders|
  {
    if orders == [] then db else Passes(Pass(db, orders[0]), orders[1..])
  }

  ghost predicate ValidPasses(db: Db, orders: seq<seq<JobId>>)
    decreases |orders|
  {
    orders == [] || (Candidates(db, orders[0]) && ValidPasses(Pass(db, orders[0]), orders[1..]))
  }

  ghost predicate Fixpoint(db: Db) {
    forall j :: j in BlockedJobs(db) ==> Promote(db, j) == db
  }

  /** A chain of blocked jobs, each waiting for the next, that ends at a job with a failed dependency. */
  ghost predicate DoomedBy(db: Db, path: seq<JobId>) {
    && path != []
    && (forall i :: 0 <= i < |path| ==> path[i] in BlockedJobs(db))
    && (forall i :: 0 <= i < |path| - 1 ==> (path[i], path[i + 1]) in db.deps)
    && AnyDepFailed(db, path[|path| - 1])
  }

  ghost predicate Doomed(db: Db, j: JobId) {
    exists path :: DoomedBy(db, path) && path[0] == j
  }

  // ----- What passes can do to a job -----------------------------------------

  /** The rows of db compared with those before the passes began. */
  ghost predicate Since(db0: Db, db: Db) {
    && db.deps == db0.deps && |db.jobs| == |db0.jobs|
    && forall k :: 0 <= k < |db.jobs| ==>
         if db0.jobs[k].status != Blocked then db.jobs[k] == db0.jobs[k]
         else match db.jobs[k].status
              case Blocked => true
              case Failed => Doomed(db0, k)
              case Queued => AllDepsCompleted(db0, k)
              case _ => false
  }

  lemma DoomSpreads(db0: Db, db: Db, j: JobId)
    requires Since(db0, db) && j in BlockedJobs(db0) && AnyDepFailed(db, j)
    ensures Doomed(db0, j)
  {
    var p :| p in db.deps && p.0 == j && p.1 < |db.jobs| &&
      (db.jobs[p.1].status == Failed || db.jobs[p.1].status == Cancelled || db.jobs[p.1].status == Stopped);
    var d := p.1;
    if db0.jobs[d].status != Blocked {
      assert AnyDepFailed(db0, j);
      assert DoomedBy(db0, [j]);
    } else {
      var path :| DoomedBy(db0, path) && path[0] == d;
      var longer := [j] + path;
      forall i | 0 <= i < |longer| - 1
        ensures (longer[i], longer[i + 1]) in db0.deps
      {
        if i > 0 { assert longer[i] == path[i - 1] && longer[i + 1] == path[i]; }
      }
      assert longer[|longer| - 1] == path[|path| - 1];
      assert DoomedBy(db0, longer);
    }
  }

  lemma CompletedBefore(db0: Db, db: Db, j: JobId)
    requires Since(db0, db) && AllDepsCompleted(db, j)
    ensures AllDepsCompleted(db0, j)
  {
    forall p | p in db0.deps && p.0 == j && p.1 < |db0.jobs|
      ensures db0.jobs[p.1].status == Completed
    {
      assert p in db.deps && db.jobs[p.1].status == Completed;
    }
  }

  lemma PromoteSince(db0: Db, db: Db, j: JobId)
    requires Since(db0, db)
    ensures Since(db0, Promote(db, j))
  {
    if j < |db.jobs| && db.jobs[j].status == Blocked {
      if AnyDepFailed(db, j) {
        DoomSpreads(db0, db, j);
      } else if AllDepsCompleted(db, j) {
        CompletedBefore(db0, db, j);
      }
    }
  }

  lemma {:induction false} PassSince(db0: Db, db: Db, order: seq<JobId>)
    requires Since(db0, db)
    ensures Since(db0, Pass(db, order))
    decreases |order|
  {
    if order != [] {
      PromoteSince(db0, db, order[0]);
      PassSince(db0, Promote(db, order[0]), order[1..]);
    }
  }

  lemma {:induction false} PassesSince(db0: Db, db: Db, orders: seq<seq<JobId>>)
    requires Since(db0, db)
    ensures Since(db0, Passes(db, orders))
    decreases |orders|
  {
    if orders != [] {
      PassSince(db0, db, orders[0]);
      PassesSince(db0, Pass(db, orders[0]), orders[1..]);
    }
  }

  // ----- Progress -------------------------------------------------------------

  lemma SubsetSmaller(a: set<JobId>, b: set<JobId>)
    requires a <= b
    ensures |a| <= |b|
    ensures a != b ==> |a| < |b|
  {
    assert b == a + (b - a);
    if a != b {
      var x :| x in b - a;
      assert b - a == {x} + (b - a - {x});
    }
  }

  lemma PromoteShrinks(db: Db, j: JobId)
    ensures BlockedJobs(Promote(db, j)) <= BlockedJobs(db)
    ensures |BlockedJobs(Promote(db, j))| + (if Promote(db, j) == db then 0 else 1) == |BlockedJobs(db)|
  {
    var db' := Promote(db, j);
    if db' != db {
      assert BlockedJobs(db') == BlockedJobs(db) - {j} && j in BlockedJobs(db);
    }
  }

  /** A pass that changes nothing has found every candidate waiting; any other pass resolves one. */
  lemma {:induction false} PassProgress(db: Db, order: seq<JobId>)
    ensures |BlockedJobs(Pass(db, order))| <= |BlockedJobs(db)|
    ensures |BlockedJobs(Pass(db, order))| == |BlockedJobs(db)| ==>
              Pass(db, order) == db && forall j :: j in order ==> Promote(db, j) == db
    decreases |order|
  {
    if order != [] {
      PromoteShrinks(db, order[0]);
      PassProgress(Promote(db, order[0]), order[1..]);
      SubsetSmaller(BlockedJobs(Promote(db, order[0])), BlockedJobs(db));
    }
  }

  lemma {:induction false} PassAtFixpoint(db: Db, order: seq<JobId>)
    requires Fixpoint(db) && forall j :: j in order ==> j in BlockedJobs(db)
    ensures Pass(db, order) == db
    decreases |order|
  {
    if order != [] {
      assert order[0] in BlockedJobs(db);
      PassAtFixpoint(db, order[1..]);
    }
  }

  lemma {:induction false} PassesAtFixpoint(db: Db, orders: seq<seq<JobId>>)
    requires Fixpoint(db) && ValidPasses(db, orders)
    ensures Passes(db, orders) == db
    decreases |orders|
  {
    if orders != [] {
      PassAtFixpoint(db, orders[0]);
      PassesAtFixpoint(db, orders[1..]);
    }
  }

  lemma {:induction false} PassesReachFixpoint(db: Db, orders: seq<seq<JobId>>)
    requires ValidPasses(db, orders) && |orders| >= |BlockedJobs(db)|
    ensures Fixpoint(Passes(db, orders))
    decreases |orders|
  {
    if BlockedJobs(db) == {} {
      PassesAtFixpoint(db, orders);
    } else {
      PassProgress(db, orders[0]);
      if |BlockedJobs(Pass(db, orders[0]))| == |BlockedJobs(db)| {
        PassesAtFixpoint(db, orders);
      } else {
        PassesReachFixpoint(Pass(db, orders[0]), orders[1..]);
      }
    }
  }

  lemma {:induction false} DoomArrives(db0: Db, db: Db, path: seq<JobId>, i: nat)
    requires Since(db0, db) && Fixpoint(db) && DoomedBy(db0, path) && i < |path|
    ensures db.jobs[path[i]].status == Failed
    decreases |path| - i
  {
    var j := path[i];
    if i + 1 < |path| {
      DoomArrives(db0, db, path, i + 1);
      var p := (path[i], path[i + 1]);
      assert p in db.deps && db.jobs[p.1].status == Failed;
    } else {
      var p :| p in db0.deps && p.0 == j && p.1 < |db0.jobs| &&
        (db0.jobs[p.1].status == Failed || db0.jobs[p.1].status == Cancelled || db0.jobs[p.1].status == Stopped);
      assert p in db.deps && db.jobs[p.1] == db0.jobs[p.1];
    }
    assert AnyDepFailed(db, j);
    assert j in BlockedJobs(db) ==> Promote(db, j) == db;
    assert DoomedBy(db0, path[i..]) by {
      forall k | 0 <= k < |path[i..]| - 1
        ensures (path[i..][k], path[i..][k + 1]) in db0.deps
      {
        assert (path[i + k], path[i + k + 1]) in db0.deps;
      }
    }
    DoomedIsNotReady(db0, path[i..]);
  }

  lemma DoomedIsNotReady(db: Db, path: seq<JobId>)
    requires DoomedBy(db, path)
    ensures !AllDepsCompleted(db, path[0])
  {
    if |path| > 1 {
      assert (path[0], path[1]) in db.deps;
      assert path[1] in BlockedJobs(db);
    }
  }

  /**
   Repeated passes, whatever the order of the candidates in each, reach a fixpoint
   after as many passes as there are blocked jobs. There a job that was blocked is
   FAILED exactly when a chain of blocked dependencies leads from it to a failed,
   cancelled or stopped job, QUEUED exactly when all its dependencies had
   completed, and still BLOCKED otherwise.
   */
  lemma PassesConverge(db: Db, orders: seq<seq<JobId>>, j: JobId)
    requires ValidPasses(db, orders) && |orders| >= |BlockedJobs(db)| && j in BlockedJobs(db)
    ensures var end := Passes(db, orders);
            && Fixpoint(end)
            && j < |end.jobs|
            && (end.jobs[j].status == Failed <==> Doomed(db, j))
            && (end.jobs[j].status == Queued <==> AllDepsCompleted(db, j))
            && (end.jobs[j].status == Blocked <==> !Doomed(db, j) && !AllDepsCompleted(db, j))
  {
    PassesReachFixpoint(db, orders);
    PassesSince(db, db, orders);
    var end := Passes(db, orders);
    if Doomed(db, j) {
      var path :| DoomedBy(db, path) && path[0] == j;
      DoomArrives(db, end, path, 0);
      DoomedIsNotReady(db, path);
    }
    if AllDepsCompleted(db, j) {
      forall p | p in end.deps && p.0 == j && p.1 < |end.jobs|
        ensures end.jobs[p.1].status == Completed
      {
        assert p in db.deps && db.jobs[p.1].status == Completed;
      }
      assert AllDepsCompleted(end, j);
      assert j in BlockedJobs(end) ==> Promote(end, j) == end;
    }
  }

  // ----- No deadlock ------------------------------------------------------------

  /** A walk along dependencies only reaches older jobs, so it never returns. */
  lemma {:induction false} WalkGoesBack(db: Db, walk: seq<JobId>, i: nat, k: nat)
    requires DepsPointBack(db) && i < k < |walk|
    requires forall n :: 0 <= n < |walk| - 1 ==> (walk[n], walk[n + 1]) in db.deps
    ensures walk[k] < walk[i]
    decreases k - i
  {
    assert (walk[i], walk[i + 1]) in db.deps;
    if i + 1 < k {
      WalkGoesBack(db, walk, i + 1, k);
    }
  }

  /** In every reachable state the dependency graph has no cycle. */
  lemma NoDependencyCycle(p: Params, steps: seq<Step>, walk: seq<JobId>)
    requires |walk| >= 2
    requires forall n :: 0 <= n < |walk| - 1 ==> (walk[n], walk[n + 1]) in Run(INITIAL, p, steps).db.deps
    ensures walk[0] != walk[|walk| - 1]
  {
    RunKeepsTables(INITIAL, p, steps);
    WalkGoesBack(Run(INITIAL, p, steps).db, walk, 0, |walk| - 1);
  }

  lemma {:induction false} OldestBlocked(db: Db, n: nat) returns (j: JobId)
    requires n in BlockedJobs(db)
    ensures j in BlockedJobs(db) && forall k :: k in BlockedJobs(db) ==> j <= k
  {
    if k :| k in BlockedJobs(db) && k < n {
      j := OldestBlocked(db, k);
    } else {
      j := n;
    }
  }

  /**
   No deadlock: in every reachable state with a blocked job in which every other
   job is finished, one pass in any order leaves strictly fewer jobs blocked.
   */
  lemma PassBreaksTheWait(p: Params, steps: seq<Step>, order: seq<JobId>)
    requires var db := Run(INITIAL, p, steps).db;
             && BlockedJobs(db) != {} && Candidates(db, order)
             && forall j :: 0 <= j < |db.jobs| ==> db.jobs[j].status == Blocked || Terminal(db.jobs[j].status)
    ensures var db := Run(INITIAL, p, steps).db;
            |BlockedJobs(Pass(db, order))| < |BlockedJobs(db)|
  {
    RunKeepsTables(INITIAL, p, steps);
    OldestIsReady(Run(INITIAL, p, steps).db, order);
  }

  lemma OldestIsReady(db: Db, order: seq<JobId>)
    requires DepsPointBack(db) && BlockedJobs(db) != {} && Candidates(db, order)
    requires forall j :: 0 <= j < |db.jobs| ==> db.jobs[j].status == Blocked || Terminal(db.jobs[j].status)
    ensures |BlockedJobs(Pass(db, order))| < |BlockedJobs(db)|
  {
    var n :| n in BlockedJobs(db);
    var j := OldestBlocked(db, n);
    forall d | (j, d) in db.deps && d < |db.jobs|
      ensures Terminal(db.jobs[d].status)
    {
      assert d < j;
      assert d !in BlockedJobs(db);
    }
    assert Promote(db, j) != db by {
      var job' := Promote(db, j).jobs[j];
      if !AnyDepFailed(db, j) {
        forall q | q in db.deps && q.0 == j && q.1 < |db.jobs|
          ensures db.jobs[q.1].status == Completed
        {
          assert (j, q.1) in db.deps;
        }
        assert AllDepsCompleted(db, j);
      }
      assert job'.status != Blocked;
    }
    PassProgress(db, order);
  }

  /** A pass is the scheduler's promote stage: one promote step per candidate. */
  lemma {:induction false} PassIsAStage(s: System, p: Params, order: seq<JobId>, stage: seq<Step>)
    requires s.candidates == {} && |stage| == |order|
    requires forall i :: 0 <= i < |order| ==> stage[i] == DoPromote(order[i])
    ensures Run(s, p, stage) == s.(db := Pass(s.db, order))
    decreases |order|
  {
    if order != [] {
      assert stage[0] == DoPromote(order[0]);
      PassIsAStage(Apply(s, p, stage[0]), p, order[1..], stage[1..]);
    }
  }
}
