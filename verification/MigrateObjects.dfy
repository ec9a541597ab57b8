/**
 Copying every object of one store to another, verifying each by reading it back, and
 checking the result against the database. An object is known by digest and size; what a
 read or write comes to is chosen freely per object.
 */
module MigrateObjects {
  import opened Wrappers

  datatype Name = Name(bucket: string, key: string)

  datatype Object = Object(sha: int, size: nat)

  type Store = map<Name, Object>

  /** Reading the source: the object, gone since it was listed, or an error. */
  datatype SourceRead = Read(o: Object) | Gone | Broken

  /** Writing to the target may fail, before or after something was stored. */
  datatype Put = Stores(o: Object) | Fails(stored: Option<Object>)

  /** What happens to one object: reads and writes as they will turn out. */
  datatype Luck = Luck(source: SourceRead, targetReads: bool, put: Put, readsBack: bool)

  datatype Item = Item(name: Name, luck: Luck)

  /** A source bucket with what it lists; opening either side's bucket or listing may fail. */
  datatype Bucket = Bucket(name: string, opens: bool, objects: seq<(string, Luck)>)

  datatype Outcome = Copied | Skipped | Failed | WouldCopy

  function ItemsOf(b: Bucket): (items: seq<Item>)
    ensures |items| == |b.objects|
    ensures forall k :: 0 <= k < |items| ==> items[k] == Item(Name(b.name, b.objects[k].0), b.objects[k].1)
  {
    seq(|b.objects|, k requires 0 <= k < |b.objects| => Item(Name(b.name, b.objects[k].0), b.objects[k].1))
  }

  function Listed(buckets: seq<Bucket>): seq<Item> {
    if buckets == [] then [] else Listed(buckets[..|buckets| - 1]) + ItemsOf(buckets[|buckets| - 1])
  }

  /** A store lists each key once. */
  ghost predicate Distinct(items: seq<Item>) {
    forall i, k :: 0 <= i < k < |items| ==> items[i].name != items[k].name
  }

  /** The target holds what was read from the source. */
  predicate Served(i: Item, dst: Store) {
    i.luck.source.Read? && i.name in dst && dst[i.name] == i.luck.source.o
  }

  ghost predicate AllServed(items: seq<Item>, dst: Store) {
    forall k :: 0 <= k < |items| ==> Served(items[k], dst)
  }

  /** The target can be read for every object. */
  ghost predicate Quiet(items: seq<Item>) {
    forall k :: 0 <= k < |items| ==> items[k].luck.targetReads
  }

  predicate ReadOnly(mode: string) {
    mode == "verify" || mode == "dryrun"
  }

  /** The state of a migration: the target store and what is noted about it. */
  datatype State = State(
    dst: Store, dstBuckets: set<string>, target: map<Name, int>,
    failures: seq<Name>, copied: nat, skipped: nat, wouldCopy: nat)

  ghost predicate Valid(s: State) {
    forall n :: n in s.dst ==> n.bucket in s.dstBuckets
  }

  function Counted(s: State): nat {
    s.copied + s.skipped + |s.failures| + s.wouldCopy
  }

  // ----- One object ---------------------------------------------------------------------

  /** Exactly one of the four counts goes up, by one. */
  ghost predicate CountsOnce(s: State, z: State, i: Item, how: Outcome) {
    && z.copied == s.copied + (if how.Copied? then 1 else 0)
    && z.skipped == s.skipped + (if how.Skipped? then 1 else 0)
    && z.failures == s.failures + (if how.Failed? then [i.name] else [])
    && z.wouldCopy == s.wouldCopy + (if how.WouldCopy? then 1 else 0)
  }

  /** Only the object itself can change on the target, and only when it is to be copied; nothing is removed. */
  ghost predicate OnlyWrites(s: State, z: State, i: Item, how: Outcome, mode: string) {
    && z.dstBuckets == s.dstBuckets
    && (how.Skipped? || how.WouldCopy? || ReadOnly(mode) ==> z.dst == s.dst)
    && s.dst.Keys <= z.dst.Keys
    && forall n :: n in z.dst && n != i.name ==> n in s.dst && z.dst[n] == s.dst[n]
  }

  /** The object can be read on both sides and the target does not serve it yet. */
  predicate NeedsCopy(i: Item, s: State) {
    && i.luck.source.Read? && !Served(i, s.dst)
    && (i.name.bucket in s.dstBuckets ==> i.luck.targetReads)
  }

  /** The write stores what was read first, and it can be read back. */
  predicate CopyHolds(i: Item, s: State) {
    i.luck.source.Read? && i.name.bucket in s.dstBuckets && i.luck.put == Stores(i.luck.source.o) && i.luck.readsBack
  }

  /** An object counts as copied or present exactly if the target can be seen to serve what the source has. */
  ghost predicate Verifies(s: State, z: State, i: Item, how: Outcome, mode: string) {
    && (how.Copied? || how.Skipped? ==> Served(i, z.dst) && z.target == s.target[i.name := i.luck.source.o.sha])
    && (how.Failed? || how.WouldCopy? ==> z.target == s.target)
    && (how.Skipped? <==> i.luck.targetReads && Served(i, s.dst))
    && (how.WouldCopy? <==> mode == "dryrun" && NeedsCopy(i, s))
    && (how.Copied? <==> !ReadOnly(mode) && NeedsCopy(i, s) && CopyHolds(i, s))
    && (!ReadOnly(mode) && NeedsCopy(i, s) && i.name.bucket in s.dstBuckets && i.luck.put.Stores? ==>
          z.dst == s.dst[i.name := i.luck.put.o])
  }

  // ----- Many objects -------------------------------------------------------------------

  /** Without failures every object so far is served and noted. */
  ghost predicate ServesDone(done: seq<Item>, s: State) {
    s.failures == [] && s.wouldCopy == 0 ==> AllServed(done, s.dst) && forall k :: 0 <= k < |done| ==> done[k].name in s.target
  }

  /** What is noted is on the target. */
  ghost predicate NotesHold(s: State) {
    forall n :: n in s.target ==> n in s.dst && s.dst[n].sha == s.target[n]
  }

  /** The target store only gained listed objects. */
  ghost predicate KeepsRest(mode: string, done: seq<Item>, dst0: Store, s: State) {
    && dst0.Keys <= s.dst.Keys
    && (forall n :: n in s.dst && (forall k :: 0 <= k < |done| ==> done[k].name != n) ==> n in dst0 && s.dst[n] == dst0[n])
    && (ReadOnly(mode) ==> s.dst == dst0)
    && (AllServed(done, dst0) && Quiet(done) ==> s.skipped == |done| && s.dst == dst0)
  }

  ghost predicate Progress(mode: string, done: seq<Item>, dst0: Store, s: State) {
    && Valid(s) && Counted(s) == |done| && (s.wouldCopy > 0 ==> mode == "dryrun")
    && ServesDone(done, s) && NotesHold(s) && KeepsRest(mode, done, dst0, s) && NoIdleFailure(mode, done, s)
  }

  lemma ServesMore(done: seq<Item>, i: Item, s: State, z: State, how: Outcome, mode: string)
    requires ServesDone(done, s) && forall k :: 0 <= k < |done| ==> done[k].name != i.name
    requires CountsOnce(s, z, i, how) && OnlyWrites(s, z, i, how, mode) && Verifies(s, z, i, how, mode)
    ensures ServesDone(done + [i], z)
  {
  }

  lemma NotesStillHold(i: Item, s: State, z: State, how: Outcome, mode: string)
    requires NotesHold(s) && OnlyWrites(s, z, i, how, mode) && Verifies(s, z, i, how, mode) && i.name !in s.target
    ensures NotesHold(z)
  {
  }

  lemma KeepsMore(mode: string, done: seq<Item>, dst0: Store, i: Item, s: State, z: State, how: Outcome)
    requires KeepsRest(mode, done, dst0, s) && forall k :: 0 <= k < |done| ==> done[k].name != i.name
    requires CountsOnce(s, z, i, how) && OnlyWrites(s, z, i, how, mode) && Verifies(s, z, i, how, mode)
    ensures KeepsRest(mode, done + [i], dst0, z)
  {
    var all := done + [i];
    assert all[|done|] == i && forall k :: 0 <= k < |done| ==> all[k] == done[k];
  }

  /** Everything can be read, and a write stores what was read. */
  predicate Lucky(i: Item) {
    i.luck.source.Read? && i.luck.targetReads && i.luck.put == Stores(i.luck.source.o) && i.luck.readsBack
  }

  /** Copying only fails where a read or write does. */
  ghost predicate NoIdleFailure(mode: string, done: seq<Item>, s: State) {
    mode == "copy" && (forall k :: 0 <= k < |done| ==> Lucky(done[k])) ==> s.failures == []
  }

  lemma NoIdleFailureYet(mode: string, done: seq<Item>, i: Item, s: State, z: State, how: Outcome)
    requires NoIdleFailure(mode, done, s) && (mode == "copy" ==> i.name.bucket in s.dstBuckets)
    requires CountsOnce(s, z, i, how) && Verifies(s, z, i, how, mode)
    ensures NoIdleFailure(mode, done + [i], z)
  {
    var all := done + [i];
    assert all[|done|] == i && forall k :: 0 <= k < |done| ==> all[k] == done[k];
  }

  /** Noted objects are listed ones. */
  ghost predicate NotesListed(done: seq<Item>, s: State) {
    forall n :: n in s.target ==> exists k :: 0 <= k < |done| && done[k].name == n
  }

  class Migration {
    var dst: Store
    var dstBuckets: set<string>
    var target: map<Name, int>
    var failures: seq<Name>
    var copied: nat
    var skipped: nat
    var wouldCopy: nat

    constructor (dst: Store, dstBuckets: set<string>)
      requires forall n :: n in dst ==> n.bucket in dstBuckets
      ensures Valid(View()) && View() == State(dst, dstBuckets, map[], [], 0, 0, 0)
    {
      this.dst, this.dstBuckets := dst, dstBuckets;
      target, failures, copied, skipped, wouldCopy := map[], [], 0, 0, 0;
    }

    ghost function View(): State
      reads this
    {
      State(dst, dstBuckets, target, failures, copied, skipped, wouldCopy)
    }

    /** One object: skip, report, or copy and read back. */
    method Transfer(mode: string, i: Item, dstHasBucket: bool) returns (how: Outcome)
      requires Valid(View()) && (dstHasBucket <==> i.name.bucket in dstBuckets)
      modifies this
      ensures Valid(View())
      ensures CountsOnce(old(View()), View(), i, how)
      ensures OnlyWrites(old(View()), View(), i, how, mode)
      ensures Verifies(old(View()), View(), i, how, mode)
    {
      var name, luck := i.name, i.luck;
      if !luck.source.Read? {
        failures := failures + [name];
        return Failed;
      }
      var srcSum := luck.source.o;
      if dstHasBucket && !luck.targetReads {
        failures := failures + [name];
        return Failed;
      }
      var existing := if dstHasBucket && name in dst then Some(dst[name]) else None;
      if existing == Some(srcSum) {
        skipped := skipped + 1;
        target := target[name := srcSum.sha];
        return Skipped;
      }
      if ReadOnly(mode) {
        if mode == "dryrun" {
          wouldCopy := wouldCopy + 1;
          return WouldCopy;
        }
        failures := failures + [name];
        return Failed;
      }
      var put := if dstHasBucket then luck.put else Fails(None);
      if put.Fails? {
        if put.stored.Some? {
          dst := dst[name := put.stored.value];
        }
        failures := failures + [name];
        return Failed;
      }
      dst := dst[name := put.o];
      if !luck.readsBack || dst[name] != srcSum {
        failures := failures + [name];
        return Failed;
      }
      target := target[name := dst[name].sha];
      copied := copied + 1;
      return Copied;
    }

    method TransferNext(mode: string, ghost done: seq<Item>, ghost dst0: Store, i: Item, dstHasBucket: bool)
      requires Progress(mode, done, dst0, View()) && NotesListed(done, View())
      requires (dstHasBucket <==> i.name.bucket in dstBuckets) && (mode == "copy" ==> dstHasBucket)
      requires forall k :: 0 <= k < |done| ==> done[k].name != i.name
      modifies this
      ensures Progress(mode, done + [i], dst0, View()) && NotesListed(done + [i], View())
      ensures dstBuckets == old(dstBuckets)
    {
      ghost var s := View();
      var how := Transfer(mode, i, dstHasBucket);
      Advance(mode, done, dst0, i, s, View(), how);
    }

    /** One bucket, which must exist on the target before anything can be copied into it. */
    method TransferBucket(mode: string, ghost done: seq<Item>, ghost dst0: Store, b: Bucket)
      requires Progress(mode, done, dst0, View()) && NotesListed(done, View()) && Distinct(done + ItemsOf(b))
      modifies this
      ensures Progress(mode, done + ItemsOf(b), dst0, View()) && NotesListed(done + ItemsOf(b), View())
      ensures mode != "copy" ==> dstBuckets == old(dstBuckets)
    {
      var dstHasBucket := b.name in dstBuckets;
      if mode == "copy" && !dstHasBucket {
        dstBuckets := dstBuckets + {b.name};
        dstHasBucket := true;
      }
      var items := ItemsOf(b);
      assert done + items[..0] == done;
      for n := 0 to |items|
        invariant Progress(mode, done + items[..n], dst0, View()) && NotesListed(done + items[..n], View())
        invariant (dstHasBucket <==> b.name in dstBuckets) && (mode == "copy" ==> dstHasBucket)
        invariant mode != "copy" ==> dstBuckets == old(dstBuckets)
      {
        NextIsNew(done, items, n);
        TransferNext(mode, done + items[..n], dst0, items[n], dstHasBucket);
      }
      assert items[..|items|] == items;
    }

    /** All buckets; false if a bucket could not be opened or listed, which ends the program. */
    method TransferAll(mode: string, buckets: seq<Bucket>) returns (completed: bool)
      requires Distinct(Listed(buckets)) && Valid(View()) && View() == State(dst, dstBuckets, map[], [], 0, 0, 0)
      modifies this
      ensures completed <==> forall k :: 0 <= k < |buckets| ==> buckets[k].opens
      ensures completed ==> Progress(mode, Listed(buckets), old(dst), View()) && NotesListed(Listed(buckets), View())
      ensures ReadOnly(mode) ==> dst == old(dst) && dstBuckets == old(dstBuckets)
      ensures old(dst).Keys <= dst.Keys && Valid(View())
    {
      ghost var dst0, done: seq<Item> := dst, [];
      StartProgress(mode, View());
      for n := 0 to |buckets|
        invariant forall k :: 0 <= k < n ==> buckets[k].opens
        invariant done == Listed(buckets[..n])
        invariant Progress(mode, done, dst0, View()) && NotesListed(done, View())
        invariant mode != "copy" ==> dstBuckets == old(dstBuckets)
      {
        ProgressSays(mode, done, dst0, View());
        if !buckets[n].opens {
          return false;
        }
        NextBucket(buckets, n, done);
        TransferBucket(mode, done, dst0, buckets[n]);
        done := done + ItemsOf(buckets[n]);
      }
      assert buckets[..|buckets|] == buckets;
      ProgressSays(mode, done, dst0, View());
      return true;
    }

    /**
     The whole run and its exit code. `expected` is the key list of the database, if one
     was supplied.
     */
    method Run(mode: string, buckets: seq<Bucket>, expected: Option<set<Name>>) returns (code: int)
      requires Distinct(Listed(buckets)) && Valid(View()) && View() == State(dst, dstBuckets, map[], [], 0, 0, 0)
      modifies this
      ensures code == 0 || code == 1
      ensures ReadOnly(mode) ==> dst == old(dst) && dstBuckets == old(dstBuckets)
      ensures old(dst).Keys <= dst.Keys && Valid(View())
      ensures Opens(buckets) ==> Counted(View()) == |Listed(buckets)|
      ensures code == 0 ==> Opens(buckets)
      ensures code == 0 && mode != "dryrun" ==> AllServed(Listed(buckets), dst) && failures == []
      ensures code == 0 && mode != "dryrun" && expected.Some? ==> expected.value <= dst.Keys
      ensures Opens(buckets) && AllServed(Listed(buckets), old(dst)) && Quiet(Listed(buckets)) ==>
        copied == 0 && skipped == |Listed(buckets)| && dst == old(dst)
      ensures Opens(buckets) && mode == "copy" && (forall k :: 0 <= k < |Listed(buckets)| ==> Lucky(Listed(buckets)[k])) ==>
        failures == []
      ensures mode == "dryrun" ==> (code == 0 <==> Opens(buckets))
      ensures Opens(buckets) && mode != "dryrun" ==>
        (code == 0 <==> failures == [] && (expected.Some? ==> expected.value <= target.Keys))
    {
      var completed := TransferAll(mode, buckets);
      if !completed {
        return 1;
      }
      if mode == "dryrun" {
        return 0;
      }
      if failures != [] {
        return 1;
      }
      if expected.Some? && !(expected.value <= target.Keys) {
        return 1;
      }
      return 0;
    }
  }

  predicate Opens(buckets: seq<Bucket>) {
    forall k :: 0 <= k < |buckets| ==> buckets[k].opens
  }

  lemma Advance(mode: string, done: seq<Item>, dst0: Store, i: Item, s: State, z: State, how: Outcome)
    requires Progress(mode, done, dst0, s) && NotesListed(done, s) && Valid(z)
    requires (forall k :: 0 <= k < |done| ==> done[k].name != i.name) && (mode == "copy" ==> i.name.bucket in s.dstBuckets)
    requires CountsOnce(s, z, i, how) && OnlyWrites(s, z, i, how, mode) && Verifies(s, z, i, how, mode)
    ensures Progress(mode, done + [i], dst0, z) && NotesListed(done + [i], z)
  {
    ServesMore(done, i, s, z, how, mode);
    NotesStillHold(i, s, z, how, mode);
    KeepsMore(mode, done, dst0, i, s, z, how);
    ListsMore(done, i, s, z, how, mode);
    NoIdleFailureYet(mode, done, i, s, z, how);
  }

  lemma StartProgress(mode: string, s: State)
    requires Valid(s) && s == State(s.dst, s.dstBuckets, map[], [], 0, 0, 0)
    ensures Progress(mode, [], s.dst, s) && NotesListed([], s)
  {
  }

  lemma ProgressSays(mode: string, done: seq<Item>, dst0: Store, s: State)
    requires Progress(mode, done, dst0, s)
    ensures Valid(s) && dst0.Keys <= s.dst.Keys && (ReadOnly(mode) ==> s.dst == dst0)
  {
  }

  lemma ListsMore(done: seq<Item>, i: Item, s: State, z: State, how: Outcome, mode: string)
    requires NotesListed(done, s) && Verifies(s, z, i, how, mode)
    ensures NotesListed(done + [i], z)
  {
    forall n | n in z.target
      ensures exists k :: 0 <= k < |done + [i]| && (done + [i])[k].name == n
    {
      if n == i.name {
        assert (done + [i])[|done|].name == n;
      } else {
        var k :| 0 <= k < |done| && done[k].name == n;
        assert (done + [i])[k].name == n;
      }
    }
  }

  lemma NextIsNew(done: seq<Item>, items: seq<Item>, n: nat)
    requires n < |items| && Distinct(done + items)
    ensures var before := done + items[..n];
            before + [items[n]] == done + items[..n + 1] && forall k :: 0 <= k < |before| ==> before[k].name != items[n].name
  {
    var all, before := done + items, done + items[..n];
    assert all[|done| + n] == items[n];
    assert forall k :: 0 <= k < |before| ==> before[k] == all[k];
  }

  lemma {:induction false} ListedPrefix(buckets: seq<Bucket>, n: nat) returns (rest: seq<Item>)
    requires n <= |buckets|
    ensures Listed(buckets) == Listed(buckets[..n]) + rest
  {
    if n == |buckets| {
      assert buckets[..n] == buckets;
      rest := [];
    } else {
      var m := |buckets| - 1;
      rest := ListedPrefix(buckets[..m], n);
      assert buckets[..m][..n] == buckets[..n];
      rest := rest + ItemsOf(buckets[m]);
    }
  }

  lemma TakeTake(buckets: seq<Bucket>, n: nat)
    requires n < |buckets|
    ensures |buckets[..n + 1]| == n + 1 && buckets[..n + 1][..n] == buckets[..n] && buckets[..n + 1][n] == buckets[n]
  {
  }

  lemma ListedStep(buckets: seq<Bucket>, n: nat)
    requires n < |buckets|
    ensures Listed(buckets[..n + 1]) == Listed(buckets[..n]) + ItemsOf(buckets[n])
  {
    TakeTake(buckets, n);
  }

  lemma PrefixIsDistinct(buckets: seq<Bucket>, n: nat)
    requires n <= |buckets| && Distinct(Listed(buckets))
    ensures Distinct(Listed(buckets[..n]))
  {
    var rest := ListedPrefix(buckets, n);
    DistinctPrefix(Listed(buckets), Listed(buckets[..n]), rest);
  }

  lemma NextBucket(buckets: seq<Bucket>, n: nat, done: seq<Item>)
    requires n < |buckets| && Distinct(Listed(buckets)) && done == Listed(buckets[..n])
    ensures done + ItemsOf(buckets[n]) == Listed(buckets[..n + 1])
    ensures Distinct(done + ItemsOf(buckets[n]))
  {
    ListedStep(buckets, n);
    PrefixIsDistinct(buckets, n + 1);
  }

  lemma DistinctPrefix(all: seq<Item>, items: seq<Item>, rest: seq<Item>)
    requires all == items + rest && Distinct(all)
    ensures Distinct(items)
  {
    assert forall k :: 0 <= k < |items| ==> items[k] == all[k];
  }

  // ----- A second run -------------------------------------------------------------------------

  /** Another run over the same objects, unchanged in the source. */
  ghost predicate SameObjects(a: seq<Item>, b: seq<Item>) {
    |a| == |b| && forall k :: 0 <= k < |a| ==> a[k].name == b[k].name && a[k].luck.source == b[k].luck.source
  }

  /** What one run left served is what a second run finds, so by the contract of `Run` it copies nothing. */
  lemma SecondRunFindsAll(first: seq<Item>, second: seq<Item>, dst: Store)
    requires AllServed(first, dst) && SameObjects(first, second)
    ensures AllServed(second, dst)
  {
    forall k | 0 <= k < |second|
      ensures Served(second[k], dst)
    {
      assert Served(first[k], dst);
    }
  }

  /** The program run twice: after a first run that ends well, the second copies nothing. */
  method RunTwice(m: Migration, mode: string, buckets: seq<Bucket>, later: seq<Bucket>) returns (code: int, again: Migration)
    requires Distinct(Listed(buckets)) && Distinct(Listed(later)) && mode != "dryrun"
    requires Opens(later) && Quiet(Listed(later)) && SameObjects(Listed(buckets), Listed(later))
    requires Valid(m.View()) && m.View() == State(m.dst, m.dstBuckets, map[], [], 0, 0, 0)
    modifies m
    ensures code == 0 ==> again.copied == 0 && again.failures == [] && again.dst == m.dst
  {
    code := m.Run(mode, buckets, None);
    again := new Migration(m.dst, m.dstBuckets);
    if code == 0 {
      SecondRunFindsAll(Listed(buckets), Listed(later), m.dst);
    }
    var second := again.Run(mode, later, None);
  }
}
