/**
 Three merges of the class lists of several sources: the compatibility check shown before
 a build, the merge a build is configured with, and the list shown for a built dataset.
 They agree, whatever order the sources and rows come in and even with empty class names.
 */
module ClassMerge {
  import opened Wrappers
  import opened Whitespace

  /** A class of a source's latest scan. */
  datatype Row = Row(index: int, name: string, source: string)

  /** A source with its class rows, in index order. */
  datatype Source = Source(name: string, classes: seq<(int, string)>)

  datatype Class = Class(index: int, name: string)

  datatype Conflict = Conflict(index: int, nameA: string, nameB: string, sourceA: string, sourceB: string)

  datatype BuildError = ClassMismatch(index: int, existing: string, name: string) | NoClasses | OverrideInvalid

  // ----- What the rows say -------------------------------------------------------------

  predicate Has(rows: seq<Row>, index: int) {
    exists k :: 0 <= k < |rows| && rows[k].index == index
  }

  /** The rows of one class index. */
  function Opinions(rows: seq<Row>, index: int): (r: seq<Row>)
    ensures forall k :: 0 <= k < |r| ==> r[k].index == index && r[k] in rows
    ensures forall k :: 0 <= k < |rows| && rows[k].index == index ==> rows[k] in r
    ensures !Has(rows, index) ==> r == []
  {
    if rows == [] then []
    else
      var n := |rows| - 1;
      LastHas(rows, index);
      Opinions(rows[..n], index) + (if rows[n].index == index then [rows[n]] else [])
  }

  /** All rows of an index give it the same name. */
  ghost predicate AgreeOn(rows: seq<Row>, index: int) {
    forall i, k :: 0 <= i < |rows| && 0 <= k < |rows| && rows[i].index == index && rows[k].index == index ==>
      rows[i].name == rows[k].name
  }

  ghost predicate Compatible(rows: seq<Row>) {
    forall i, k :: 0 <= i < |rows| && 0 <= k < |rows| && rows[i].index == rows[k].index ==> rows[i].name == rows[k].name
  }

  function FirstName(rows: seq<Row>, index: int): string
    requires Has(rows, index)
  {
    var n := |rows| - 1;
    if Has(rows[..n], index) then FirstName(rows[..n], index) else rows[n].name
  }

  function SourceRows(s: Source): (rows: seq<Row>)
    ensures |rows| == |s.classes|
    ensures forall k :: 0 <= k < |rows| ==> rows[k] == Row(s.classes[k].0, s.classes[k].1, s.name)
  {
    seq(|s.classes|, k requires 0 <= k < |s.classes| => Row(s.classes[k].0, s.classes[k].1, s.name))
  }

  function AllRows(sources: seq<Source>): seq<Row> {
    if sources == [] then [] else AllRows(sources[..|sources| - 1]) + SourceRows(sources[|sources| - 1])
  }

  ghost predicate Ascending(xs: seq<int>) {
    forall i, k :: 0 <= i < k < |xs| ==> xs[i] < xs[k]
  }

  /** Exactly the indices that occur, ascending. */
  ghost predicate IndicesOf(rows: seq<Row>, xs: seq<int>) {
    Ascending(xs) && forall x :: x in xs <==> Has(rows, x)
  }

  // ----- The insertion-ordered map ---------------------------------------------------------

  /** The keys of a map as its insertion order lists them. */
  ghost predicate Lists<V>(keys: seq<int>, m: map<int, V>) {
    && (forall i, k :: 0 <= i < k < |keys| ==> keys[i] != keys[k])
    && forall x :: x in keys <==> x in m
  }

  function InsertIndex(x: int, xs: seq<int>): seq<int> {
    if xs == [] || x < xs[0] then [x] + xs else [xs[0]] + InsertIndex(x, xs[1..])
  }

  function SortIndices(xs: seq<int>): seq<int> {
    if xs == [] then [] else InsertIndex(xs[0], SortIndices(xs[1..]))
  }

  lemma {:induction false} InsertIndexKeeps(x: int, xs: seq<int>)
    requires Ascending(xs) && x !in xs
    ensures Ascending(InsertIndex(x, xs)) && forall y :: y in InsertIndex(x, xs) <==> y == x || y in xs
  {
    if xs != [] && x >= xs[0] {
      InsertIndexKeeps(x, xs[1..]);
      var r := InsertIndex(x, xs[1..]);
      forall k | 0 <= k < |r|
        ensures xs[0] < r[k]
      {
        assert r[k] in r;
      }
    }
  }

  lemma {:induction false} SortIndicesKeeps(xs: seq<int>)
    requires forall i, k :: 0 <= i < k < |xs| ==> xs[i] != xs[k]
    ensures Ascending(SortIndices(xs)) && forall y :: y in SortIndices(xs) <==> y in xs
  {
    if xs != [] {
      SortIndicesKeeps(xs[1..]);
      InsertIndexKeeps(xs[0], SortIndices(xs[1..]));
    }
  }

  lemma {:induction false} AscendingUnique(a: seq<int>, b: seq<int>)
    requires Ascending(a) && Ascending(b) && forall x :: x in a <==> x in b
    ensures a == b
    decreases |a|
  {
    assert (a == [] || a[0] in b) && (b == [] || b[0] in a) by {
      assert a == [] || a[0] in a;
      assert b == [] || b[0] in b;
    }
    if a != [] {
      assert a[0] == b[0];
      forall x
        ensures x in a[1..] <==> x in b[1..]
      {
        if x in a[1..] { assert x in a && x != a[0]; }
        if x in b[1..] { assert x in b && x != b[0]; }
      }
      AscendingUnique(a[1..], b[1..]);
    }
  }

  // ----- One more row ----------------------------------------------------------------------

  lemma OneMoreRow(rows: seq<Row>, r: Row)
    ensures forall x :: Has(rows + [r], x) <==> Has(rows, x) || x == r.index
    ensures forall x :: Has(rows, x) ==> FirstName(rows + [r], x) == FirstName(rows, x)
    ensures !Has(rows, r.index) ==> FirstName(rows + [r], r.index) == r.name
  {
    assert (rows + [r])[..|rows|] == rows;
    forall x | Has(rows, x)
      ensures Has(rows + [r], x)
    {
      var k :| 0 <= k < |rows| && rows[k].index == x;
      assert (rows + [r])[k].index == x;
    }
    assert (rows + [r])[|rows|] == r;
  }

  lemma {:induction false} FirstIsOne(rows: seq<Row>, index: int)
    requires Has(rows, index)
    ensures exists k :: 0 <= k < |rows| && rows[k].index == index && rows[k].name == FirstName(rows, index)
  {
    var n := |rows| - 1;
    if Has(rows[..n], index) {
      FirstIsOne(rows[..n], index);
      var k :| 0 <= k < n && rows[..n][k].index == index && rows[..n][k].name == FirstName(rows[..n], index);
      assert rows[k].name == FirstName(rows, index);
    } else {
      LastHas(rows, index);
    }
  }

  lemma LastHas(rows: seq<Row>, index: int)
    requires rows != []
    ensures Has(rows, index) <==> Has(rows[..|rows| - 1], index) || rows[|rows| - 1].index == index
  {
    var init := rows[..|rows| - 1];
    if Has(init, index) {
      var k :| 0 <= k < |init| && init[k].index == index;
      assert rows[k].index == index;
    }
    if Has(rows, index) {
      var k :| 0 <= k < |rows| && rows[k].index == index;
      assert k < |init| ==> init[k].index == index;
    }
  }

  lemma {:induction false} FirstOpinion(rows: seq<Row>, index: int)
    requires Has(rows, index)
    ensures Opinions(rows, index) != [] && Opinions(rows, index)[0].name == FirstName(rows, index)
  {
    var n := |rows| - 1;
    LastHas(rows, index);
    if Has(rows[..n], index) {
      FirstOpinion(rows[..n], index);
    }
  }

  lemma AgreeOnOneMore(rows: seq<Row>, r: Row)
    ensures forall x :: x != r.index ==> (AgreeOn(rows + [r], x) <==> AgreeOn(rows, x))
    ensures !Has(rows, r.index) ==> AgreeOn(rows + [r], r.index)
    ensures Has(rows, r.index) ==>
              (AgreeOn(rows + [r], r.index) <==> AgreeOn(rows, r.index) && r.name == FirstName(rows, r.index))
  {
    var all := rows + [r];
    if Has(rows, r.index) {
      FirstIsOne(rows, r.index);
      var k :| 0 <= k < |rows| && rows[k].index == r.index && rows[k].name == FirstName(rows, r.index);
      assert all[k] == rows[k] && all[|rows|] == r;
      if AgreeOn(all, r.index) {
        forall i, j | 0 <= i < |rows| && 0 <= j < |rows| && rows[i].index == r.index && rows[j].index == r.index
          ensures rows[i].name == rows[j].name
        {
          assert all[i] == rows[i] && all[j] == rows[j];
        }
      }
    }
    forall x | x != r.index
      ensures AgreeOn(all, x) <==> AgreeOn(rows, x)
    {
      assert forall i :: 0 <= i < |rows| ==> all[i] == rows[i];
    }
  }

  // ----- The check before a build ------------------------------------------------------------

  /** The entry a row list leaves in the merge map: the name, or '' once two rows disagree. */
  ghost predicate Marked(rows: seq<Row>, keys: seq<int>, merged: map<int, string>) {
    && Lists(keys, merged)
    && (forall x :: x in merged <==> Has(rows, x))
    && forall x :: x in merged ==> merged[x] == if AgreeOn(rows, x) then FirstName(rows, x) else ""
  }

  method MergeRow(ghost rows: seq<Row>, r: Row, keys: seq<int>, merged: map<int, string>)
    returns (keys': seq<int>, merged': map<int, string>)
    requires Marked(rows, keys, merged)
    ensures Marked(rows + [r], keys', merged')
  {
    OneMoreRow(rows, r);
    AgreeOnOneMore(rows, r);
    keys', merged' := keys, merged;
    if r.index in merged {
      if merged[r.index] != r.name {
        merged' := merged[r.index := ""];
      }
    } else {
      keys' := keys + [r.index];
      merged' := merged[r.index := r.name];
    }
  }

  /** The sources an index is present in, each once, in the order in which they come first. */
  function SourcesOf(rows: seq<Row>, index: int): (names: seq<string>)
    ensures forall k :: 0 <= k < |rows| && rows[k].index == index ==> rows[k].source in names
    ensures forall n :: n in names ==> exists k :: 0 <= k < |rows| && rows[k].index == index && rows[k].source == n
    ensures forall i, k :: 0 <= i < k < |names| ==> names[i] != names[k]
  {
    if rows == [] then []
    else
      var r := rows[|rows| - 1];
      var names := SourcesOf(rows[..|rows| - 1], index);
      if r.index == index && r.source !in names then names + [r.source] else names
  }

  ghost predicate Located(rows: seq<Row>, present: map<int, seq<string>>) {
    && (forall x :: x in present <==> Has(rows, x))
    && forall x :: x in present ==> present[x] == SourcesOf(rows, x)
  }

  lemma SourcesOneMore(rows: seq<Row>, r: Row, x: int)
    ensures SourcesOf(rows + [r], x) ==
            SourcesOf(rows, x) + if r.index == x && r.source !in SourcesOf(rows, x) then [r.source] else []
    ensures !Has(rows, x) ==> SourcesOf(rows, x) == []
  {
    assert (rows + [r])[..|rows|] == rows;
    assert SourcesOf(rows, x) != [] ==> SourcesOf(rows, x)[0] in SourcesOf(rows, x);
  }

  method LocateRow(ghost rows: seq<Row>, r: Row, present: map<int, seq<string>>) returns (present': map<int, seq<string>>)
    requires Located(rows, present)
    ensures Located(rows + [r], present')
  {
    OneMoreRow(rows, r);
    forall x
      ensures SourcesOf(rows + [r], x) ==
              SourcesOf(rows, x) + if r.index == x && r.source !in SourcesOf(rows, x) then [r.source] else []
      ensures !Has(rows, x) ==> SourcesOf(rows, x) == []
    {
      SourcesOneMore(rows, r, x);
    }
    if r.index in present {
      if r.source in present[r.index] {
        return present;
      }
      return present[r.index := present[r.index] + [r.source]];
    }
    return present[r.index := [r.source]];
  }

  /** Where the i-th opinion stands among the rows: after exactly the opinions before it. */
  lemma {:induction false} OpinionAt(rows: seq<Row>, index: int, i: nat) returns (k: nat)
    requires i < |Opinions(rows, index)|
    ensures k < |rows| && rows[k] == Opinions(rows, index)[i] && Opinions(rows[..k], index) == Opinions(rows, index)[..i]
  {
    var n := |rows| - 1;
    var before := Opinions(rows[..n], index);
    if i < |before| {
      k := OpinionAt(rows[..n], index, i);
      assert rows[..n][..k] == rows[..k];
      assert Opinions(rows, index)[..i] == before[..i];
    } else {
      k := n;
      assert Opinions(rows, index)[..i] == before;
    }
  }

  lemma Clash(rows: seq<Row>, index: int, i: nat)
    requires 0 < i < |Opinions(rows, index)|
    requires var o := Opinions(rows, index);
             o[i].name != o[0].name && forall m :: 0 <= m < i ==> o[m].name == o[0].name
    ensures var o := Opinions(rows, index);
            IsConflict(rows, index, Conflict(index, o[0].name, o[i].name, o[0].source, o[i].source)) && !AgreeOn(rows, index)
  {
    var o := Opinions(rows, index);
    var j := OpinionAt(rows, index, 0);
    var k := OpinionAt(rows, index, i);
    forall m | 0 <= m < j
      ensures rows[m].index != index
    {
      assert rows[..j][m] == rows[m];
    }
    forall m | 0 <= m < k && rows[m].index == index
      ensures rows[m].name == o[0].name
    {
      assert rows[..k][m] in Opinions(rows[..k], index);
    }
    assert FirstClash(rows, index, j, k);
  }

  lemma LikeOpinions(rows: seq<Row>, index: int, name: string)
    requires forall r :: r in Opinions(rows, index) ==> r.name == name
    ensures AgreeOn(rows, index)
  {
    forall i | 0 <= i < |rows| && rows[i].index == index
      ensures rows[i].name == name
    {
      assert rows[i] in Opinions(rows, index);
    }
  }

  /** The first opinion that differs from the first of all. */
  method FindConflict(rows: seq<Row>, index: int) returns (c: Option<Conflict>)
    requires Has(rows, index)
    ensures c.None? <==> AgreeOn(rows, index)
    ensures c.Some? ==> IsConflict(rows, index, c.value)
  {
    var opinions := Opinions(rows, index);
    FirstOpinion(rows, index);
    var i := FirstDiffering(opinions);
    if i < |opinions| {
      Clash(rows, index, i);
      c := Some(Conflict(index, opinions[0].name, opinions[i].name, opinions[0].source, opinions[i].source));
    } else {
      LikeOpinions(rows, index, opinions[0].name);
      c := None;
    }
  }

  /** The first row named differently than the first of all, the length if there is none. */
  method FirstDiffering(opinions: seq<Row>) returns (i: nat)
    requires opinions != []
    ensures 1 <= i <= |opinions| && forall k :: 0 <= k < i ==> opinions[k].name == opinions[0].name
    ensures i < |opinions| ==> opinions[i].name != opinions[0].name
  {
    i := 1;
    while i < |opinions| && opinions[i].name == opinions[0].name
      invariant 1 <= i <= |opinions| && forall k :: 0 <= k < i ==> opinions[k].name == opinions[0].name
    {
      i := i + 1;
    }
  }

  /** The first row of an index and the first that names it differently. */
  ghost predicate FirstClash(rows: seq<Row>, index: int, j: nat, k: nat) {
    && j < k < |rows| && rows[j].index == index == rows[k].index && rows[j].name != rows[k].name
    && (forall m :: 0 <= m < j ==> rows[m].index != index)
    && forall m :: 0 <= m < k && rows[m].index == index ==> rows[m].name == rows[j].name
  }

  ghost predicate IsConflict(rows: seq<Row>, index: int, c: Conflict) {
    exists j: nat, k: nat ::
      && FirstClash(rows, index, j, k)
      && c == Conflict(index, rows[j].name, rows[k].name, rows[j].source, rows[k].source)
  }

  function ClassText(name: string, c: Option<Conflict>): string {
    match c
    case Some(f) => "CONFLICT: " + f.nameA + " vs " + f.nameB
    case None => name
  }

  predicate Reported(conflicts: seq<Conflict>, index: int) {
    exists k :: 0 <= k < |conflicts| && conflicts[k].index == index
  }

  /** For the given indices: one conflict for each the rows disagree on, and no other. */
  ghost predicate ConflictsOf(rows: seq<Row>, keys: seq<int>, conflicts: seq<Conflict>) {
    && (forall k :: 0 <= k < |conflicts| ==> conflicts[k].index in keys && IsConflict(rows, conflicts[k].index, conflicts[k]))
    && (forall k :: 0 <= k < |keys| ==> (Reported(conflicts, keys[k]) <==> !AgreeOn(rows, keys[k])))
    && forall i, k :: 0 <= i < k < |conflicts| ==> conflicts[i].index != conflicts[k].index
  }

  lemma OneMoreConflict(rows: seq<Row>, keys: seq<int>, conflicts: seq<Conflict>, c: Conflict)
    requires ConflictsOf(rows, keys, conflicts) && c.index !in keys
    requires IsConflict(rows, c.index, c) && !AgreeOn(rows, c.index)
    ensures ConflictsOf(rows, keys + [c.index], conflicts + [c])
  {
    var all, more := keys + [c.index], conflicts + [c];
    assert more[|conflicts|].index == c.index;
    forall x
      ensures Reported(more, x) <==> Reported(conflicts, x) || x == c.index
    {
      if Reported(conflicts, x) {
        var k :| 0 <= k < |conflicts| && conflicts[k].index == x;
        assert more[k].index == x;
      }
    }
  }

  lemma NoMoreConflict(rows: seq<Row>, keys: seq<int>, conflicts: seq<Conflict>, x: int)
    requires ConflictsOf(rows, keys, conflicts) && x !in keys && AgreeOn(rows, x)
    ensures ConflictsOf(rows, keys + [x], conflicts)
  {
    assert !Reported(conflicts, x);
  }

  method FindConflicts(rows: seq<Row>, keys: seq<int>, merged: map<int, string>) returns (conflicts: seq<Conflict>)
    requires Marked(rows, keys, merged)
    ensures ConflictsOf(rows, keys, conflicts)
  {
    conflicts := [];
    for n := 0 to |keys|
      invariant ConflictsOf(rows, keys[..n], conflicts)
    {
      var index := keys[n];
      assert keys[..n + 1] == keys[..n] + [index] && index !in keys[..n] && index in keys;
      var c: Option<Conflict> := None;
      if merged[index] == "" {
        c := FindConflict(rows, index);
      }
      if c.Some? {
        OneMoreConflict(rows, keys[..n], conflicts, c.value);
        conflicts := conflicts + [c.value];
      } else {
        NoMoreConflict(rows, keys[..n], conflicts, index);
      }
    }
    assert keys[..|keys|] == keys;
  }

  method ConflictAt(conflicts: seq<Conflict>, index: int) returns (c: Option<Conflict>)
    ensures c.Some? ==> c.value in conflicts && c.value.index == index
    ensures c.None? ==> forall k :: 0 <= k < |conflicts| ==> conflicts[k].index != index
  {
    for i := 0 to |conflicts|
      invariant forall k :: 0 <= k < i ==> conflicts[k].index != index
    {
      if conflicts[i].index == index {
        return Some(conflicts[i]);
      }
    }
    return None;
  }

  /** All indices ascending, each with its name or a note of its conflict. */
  ghost predicate ReportOf(rows: seq<Row>, xs: seq<int>, conflicts: seq<Conflict>, classes: seq<Class>) {
    && |classes| == |xs|
    && forall k :: 0 <= k < |xs| ==>
         && classes[k].index == xs[k] && Has(rows, xs[k])
         && (AgreeOn(rows, xs[k]) ==> classes[k].name == FirstName(rows, xs[k]))
         && (!AgreeOn(rows, xs[k]) ==> exists c :: c in conflicts && c.index == xs[k] && classes[k].name == "CONFLICT: " + c.nameA + " vs " + c.nameB)
  }

  method MergeSource(rows: seq<Row>, more: seq<Row>, keys: seq<int>, merged: map<int, string>, present: map<int, seq<string>>)
    returns (all: seq<Row>, keys': seq<int>, merged': map<int, string>, present': map<int, seq<string>>)
    requires Marked(rows, keys, merged) && Located(rows, present)
    ensures all == rows + more && Marked(all, keys', merged') && Located(all, present')
  {
    all, keys', merged', present' := rows, keys, merged, present;
    for j := 0 to |more|
      invariant all == rows + more[..j] && Marked(all, keys', merged') && Located(all, present')
    {
      keys', merged' := MergeRow(all, more[j], keys', merged');
      present' := LocateRow(all, more[j], present');
      all := all + [more[j]];
    }
    assert more[..|more|] == more;
  }

  lemma OneMoreClass(rows: seq<Row>, xs: seq<int>, conflicts: seq<Conflict>, classes: seq<Class>, c: Class)
    requires ReportOf(rows, xs, conflicts, classes) && Has(rows, c.index)
    requires AgreeOn(rows, c.index) ==> c.name == FirstName(rows, c.index)
    requires !AgreeOn(rows, c.index) ==> exists f :: f in conflicts && f.index == c.index && c.name == ClassText("", Some(f))
    ensures ReportOf(rows, xs + [c.index], conflicts, classes + [c])
  {
  }

  /** The name of one index, or the note of its conflict. */
  method ReportClass(rows: seq<Row>, keys: seq<int>, merged: map<int, string>, conflicts: seq<Conflict>, index: int)
    returns (c: Class)
    requires Marked(rows, keys, merged) && ConflictsOf(rows, keys, conflicts) && index in keys
    ensures c.index == index && Has(rows, index)
    ensures AgreeOn(rows, index) ==> c.name == FirstName(rows, index)
    ensures !AgreeOn(rows, index) ==> exists f :: f in conflicts && f.index == index && c.name == ClassText("", Some(f))
  {
    var conflict := ConflictAt(conflicts, index);
    c := Class(index, ClassText(merged[index], conflict));
  }

  method ReportEach(rows: seq<Row>, keys: seq<int>, merged: map<int, string>, conflicts: seq<Conflict>, xs: seq<int>)
    returns (classes: seq<Class>)
    requires Marked(rows, keys, merged) && ConflictsOf(rows, keys, conflicts)
    requires forall x :: x in xs ==> x in keys
    ensures ReportOf(rows, xs, conflicts, classes)
  {
    classes := [];
    for n := 0 to |xs|
      invariant ReportOf(rows, xs[..n], conflicts, classes)
    {
      assert xs[n] in xs && xs[..n + 1] == xs[..n] + [xs[n]];
      var c := ReportClass(rows, keys, merged, conflicts, xs[n]);
      OneMoreClass(rows, xs[..n], conflicts, classes, c);
      classes := classes + [c];
    }
    assert xs[..|xs|] == xs;
  }

  method Report(rows: seq<Row>, keys: seq<int>, merged: map<int, string>, conflicts: seq<Conflict>)
    returns (classes: seq<Class>)
    requires Marked(rows, keys, merged) && ConflictsOf(rows, keys, conflicts)
    ensures exists xs :: IndicesOf(rows, xs) && ReportOf(rows, xs, conflicts, classes)
  {
    var sorted := SortIndices(keys);
    SortIndicesKeeps(keys);
    classes := ReportEach(rows, keys, merged, conflicts, sorted);
    assert IndicesOf(rows, sorted);
  }

  /** What the check tells about the rows of all sources. */
  ghost predicate Checked(rows: seq<Row>, compatible: bool, classes: seq<Class>, conflicts: seq<Conflict>) {
    && (compatible <==> Compatible(rows))
    && (exists keys :: ConflictsOf(rows, keys, conflicts) && forall x :: x in keys <==> Has(rows, x))
    && exists xs :: IndicesOf(rows, xs) && ReportOf(rows, xs, conflicts, classes)
  }

  method ValidateClasses(sources: seq<Source>)
    returns (compatible: bool, mergedClasses: seq<Class>, present: map<int, seq<string>>, conflicts: seq<Conflict>)
    ensures Checked(AllRows(sources), compatible, mergedClasses, conflicts) && Located(AllRows(sources), present)
  {
    var allRows: seq<Row>, keys: seq<int>, merged: map<int, string> := [], [], map[];
    present := map[];
    for i := 0 to |sources|
      invariant allRows == AllRows(sources[..i]) && Marked(allRows, keys, merged) && Located(allRows, present)
    {
      assert sources[..i + 1][..i] == sources[..i];
      allRows, keys, merged, present := MergeSource(allRows, SourceRows(sources[i]), keys, merged, present);
    }
    assert sources[..|sources|] == sources;
    conflicts := FindConflicts(allRows, keys, merged);
    mergedClasses := Report(allRows, keys, merged, conflicts);
    compatible := |conflicts| == 0;
    CompatibleMeansNoConflict(allRows, keys, conflicts);
  }

  lemma CompatibleMeansNoConflict(rows: seq<Row>, keys: seq<int>, conflicts: seq<Conflict>)
    requires ConflictsOf(rows, keys, conflicts) && forall x :: x in keys <==> Has(rows, x)
    ensures |conflicts| == 0 <==> Compatible(rows)
  {
    if |conflicts| == 0 {
      forall i, k | 0 <= i < |rows| && 0 <= k < |rows| && rows[i].index == rows[k].index
        ensures rows[i].name == rows[k].name
      {
        assert rows[i].index in keys;
        var n :| 0 <= n < |keys| && keys[n] == rows[i].index;
        assert AgreeOn(rows, keys[n]);
      }
    } else {
      var c := conflicts[0];
      assert Reported(conflicts, c.index) && c.index in keys;
      assert !AgreeOn(rows, c.index);
    }
  }

  // ----- The merge of a build --------------------------------------------------------------------

  /** Every index with its name, ascending. */
  ghost predicate ListOf(rows: seq<Row>, xs: seq<int>, names: seq<string>) {
    && IndicesOf(rows, xs) && |names| == |xs|
    && forall k :: 0 <= k < |xs| ==> Has(rows, xs[k]) && names[k] == FirstName(rows, xs[k])
  }

  ghost predicate FirstNames(rows: seq<Row>, keys: seq<int>, merged: map<int, string>) {
    && Lists(keys, merged)
    && (forall x :: x in merged <==> Has(rows, x))
    && forall x :: x in merged ==> merged[x] == FirstName(rows, x)
  }

  lemma CompatibleOneMore(rows: seq<Row>, r: Row)
    requires Compatible(rows)
    ensures Compatible(rows + [r]) <==> (Has(rows, r.index) ==> r.name == FirstName(rows, r.index))
  {
    var all := rows + [r];
    if Has(rows, r.index) {
      FirstIsOne(rows, r.index);
      var k :| 0 <= k < |rows| && rows[k].index == r.index && rows[k].name == FirstName(rows, r.index);
      assert all[k] == rows[k] && all[|rows|] == r;
    }
  }

  /** The first row that differs from what is already in the map stops the build. */
  ghost predicate MismatchIn(rows: seq<Row>, e: BuildError) {
    && e.ClassMismatch?
    && exists n :: 0 <= n < |rows| && rows[n].index == e.index && rows[n].name == e.name != e.existing
         && Compatible(rows[..n]) && Has(rows[..n], e.index) && FirstName(rows[..n], e.index) == e.existing
  }

  lemma MismatchIsFinal(rows: seq<Row>, more: seq<Row>, e: BuildError)
    requires MismatchIn(rows, e)
    ensures MismatchIn(rows + more, e) && !Compatible(rows + more)
  {
    var n :| 0 <= n < |rows| && rows[n].index == e.index && rows[n].name == e.name != e.existing
      && Compatible(rows[..n]) && Has(rows[..n], e.index) && FirstName(rows[..n], e.index) == e.existing;
    var all := rows + more;
    assert all[..n] == rows[..n] && all[n] == rows[n];
    FirstIsOne(rows[..n], e.index);
    var k :| 0 <= k < n && rows[..n][k].index == e.index && rows[..n][k].name == e.existing;
    assert all[k].name != all[n].name && all[k].index == all[n].index;
  }

  lemma {:induction false} AllRowsPrefix(sources: seq<Source>, i: nat) returns (rest: seq<Row>)
    requires i <= |sources|
    ensures AllRows(sources) == AllRows(sources[..i]) + rest
  {
    if i == |sources| {
      assert sources[..i] == sources;
      rest := [];
    } else {
      var n := |sources| - 1;
      rest := AllRowsPrefix(sources[..n], i);
      assert sources[..n][..i] == sources[..i];
      rest := rest + SourceRows(sources[n]);
    }
  }

  method AddRow(ghost done: seq<Row>, c: Row, keys: seq<int>, merged: map<int, string>)
    returns (e: Option<BuildError>, keys': seq<int>, merged': map<int, string>)
    requires FirstNames(done, keys, merged) && Compatible(done)
    ensures e.None? ==> FirstNames(done + [c], keys', merged') && Compatible(done + [c])
    ensures e.Some? ==>
      Has(done, c.index) && c.name != FirstName(done, c.index) && e.value == ClassMismatch(c.index, FirstName(done, c.index), c.name)
  {
    OneMoreRow(done, c);
    CompatibleOneMore(done, c);
    e, keys', merged' := None, keys, merged;
    if c.index in merged && merged[c.index] != c.name {
      e := Some(ClassMismatch(c.index, merged[c.index], c.name));
      return;
    }
    if c.index !in merged {
      keys' := keys + [c.index];
    }
    merged' := merged[c.index := c.name];
  }

  method AddSource(ghost done: seq<Row>, rows: seq<Row>, keys: seq<int>, merged: map<int, string>)
    returns (e: Option<BuildError>, keys': seq<int>, merged': map<int, string>)
    requires FirstNames(done, keys, merged) && Compatible(done)
    ensures e.None? ==> FirstNames(done + rows, keys', merged') && Compatible(done + rows)
    ensures e.Some? ==> MismatchIn(done + rows, e.value)
  {
    e, keys', merged' := None, keys, merged;
    assert done + rows[..0] == done;
    for j := 0 to |rows|
      invariant FirstNames(done + rows[..j], keys', merged') && Compatible(done + rows[..j])
    {
      CutRow(done, rows, j);
      e, keys', merged' := AddRow(done + rows[..j], rows[j], keys', merged');
      if e.Some? {
        StopAt(done + rows[..j], rows[j], rows[j + 1..]);
        return;
      }
    }
    e := None;
    assert rows[..|rows|] == rows;
  }

  lemma CutRow(done: seq<Row>, rows: seq<Row>, j: nat)
    requires j < |rows|
    ensures done + rows[..j + 1] == (done + rows[..j]) + [rows[j]]
    ensures done + rows == (done + rows[..j]) + ([rows[j]] + rows[j + 1..])
  {
  }

  /** What a build makes of the rows of all sources. */
  ghost predicate Configured(rows: seq<Row>, r: Result<seq<string>, BuildError>) {
    && (r.Success? <==> Compatible(rows) && rows != [])
    && (r.Success? ==> exists xs :: ListOf(rows, xs, r.value))
    && (r.Failure? ==> if r.error.NoClasses? then rows == [] else MismatchIn(rows, r.error))
  }

  method ResolveNames(sources: seq<Source>) returns (r: Result<seq<string>, BuildError>)
    ensures Configured(AllRows(sources), r)
  {
    var keys: seq<int>, merged: map<int, string> := [], map[];
    for i := 0 to |sources|
      invariant FirstNames(AllRows(sources[..i]), keys, merged) && Compatible(AllRows(sources[..i]))
    {
      assert sources[..i + 1][..i] == sources[..i];
      var e, keys', merged' := AddSource(AllRows(sources[..i]), SourceRows(sources[i]), keys, merged);
      if e.Some? {
        ghost var rest := AllRowsPrefix(sources, i + 1);
        MismatchIsFinal(AllRows(sources[..i + 1]), rest, e.value);
        return Failure(e.value);
      }
      keys, merged := keys', merged';
    }
    assert sources[..|sources|] == sources;
    var names := NamesOf(AllRows(sources), keys, merged);
    if names == [] {
      return Failure(NoClasses);
    }
    return Success(names);
  }

  /** A name that no annotator chose: `class_` and digits. */
  predicate Inferred(name: string) {
    |name| > 6 && name[..6] == "class_" && forall k :: 6 <= k < |name| ==> '0' <= name[k] <= '9'
  }

  ghost predicate ClassNumber(name: string, digits: string) {
    digits != "" && name == "class_" + digits && forall i :: 0 <= i < |digits| ==> digits[i] in "0123456789"
  }

  lemma DigitsAre(c: char)
    ensures c in "0123456789" <==> '0' <= c <= '9'
  {
  }

  lemma NumberIsInferred(name: string, digits: string)
    requires ClassNumber(name, digits)
    ensures Inferred(name)
  {
    assert name[..6] == "class_";
    forall k | 6 <= k < |name|
      ensures '0' <= name[k] <= '9'
    {
      assert name[k] == digits[k - 6];
      DigitsAre(name[k]);
    }
  }

  lemma InferredExactly(name: string)
    ensures Inferred(name) <==> exists digits: string :: ClassNumber(name, digits)
  {
    if Inferred(name) {
      var digits := name[6..];
      forall i | 0 <= i < |digits|
        ensures digits[i] in "0123456789"
      {
        DigitsAre(digits[i]);
      }
      assert name == name[..6] + digits && ClassNumber(name, digits);
    }
    if digits: string :| ClassNumber(name, digits) {
      NumberIsInferred(name, digits);
    }
  }

  function Trimmed(names: seq<string>): (r: seq<string>)
    ensures |r| == |names| && forall k :: 0 <= k < |r| ==> r[k] == Trim(names[k])
  {
    seq(|names|, k requires 0 <= k < |names| => Trim(names[k]))
  }

  /** Names may replace inferred ones only, one for each, all different and none empty. */
  ghost predicate Replaces(names: seq<string>, resolved: seq<string>) {
    && |names| == |resolved|
    && (forall k :: 0 <= k < |resolved| ==> Inferred(resolved[k]) && names[k] != "")
    && forall i, k :: 0 <= i < k < |names| ==> names[i] != names[k]
  }

  /** The names of a build: the resolved ones, or the wanted ones where those may replace them. */
  ghost predicate Named(resolved: Result<seq<string>, BuildError>, wanted: seq<string>, r: Result<seq<string>, BuildError>) {
    if resolved.Failure? || wanted == [] then r == resolved
    else if Replaces(Trimmed(wanted), resolved.value) then r == Success(Trimmed(wanted))
    else r == Failure(OverrideInvalid)
  }

  method Override(resolved: seq<string>, wanted: seq<string>) returns (r: Result<seq<string>, BuildError>)
    requires wanted != []
    ensures Named(Success(resolved), wanted, r)
  {
    var names := Trimmed(wanted);
    for i := 0 to |resolved|
      invariant forall k :: 0 <= k < i ==> Inferred(resolved[k])
    {
      if !Inferred(resolved[i]) {
        return Failure(OverrideInvalid);
      }
    }
    if |names| != |resolved| {
      return Failure(OverrideInvalid);
    }
    var seen: set<string> := {};
    for i := 0 to |names|
      invariant forall k :: 0 <= k < i ==> names[k] != "" && names[k] in seen
      invariant forall x :: x in seen ==> exists k :: 0 <= k < i && names[k] == x
      invariant forall k, m :: 0 <= k < m < i ==> names[k] != names[m]
    {
      if names[i] == "" || names[i] in seen {
        return Failure(OverrideInvalid);
      }
      seen := seen + {names[i]};
    }
    return Success(names);
  }

  method ConfigureBuild(sources: seq<Source>, wanted: seq<string>) returns (r: Result<seq<string>, BuildError>)
    ensures exists resolved :: Configured(AllRows(sources), resolved) && Named(resolved, wanted, r)
  {
    r := ResolveNames(sources);
    if r.Success? && wanted != [] {
      ghost var resolved := r;
      r := Override(r.value, wanted);
      assert Named(resolved, wanted, r);
    } else {
      assert Named(r, wanted, r);
    }
  }

  lemma StopAt(done: seq<Row>, c: Row, more: seq<Row>)
    requires Compatible(done) && Has(done, c.index) && FirstName(done, c.index) != c.name
    ensures MismatchIn(done + ([c] + more), ClassMismatch(c.index, FirstName(done, c.index), c.name))
  {
    var rows := done + ([c] + more);
    assert rows[..|done|] == done && rows[|done|] == c;
  }

  method NamesOf(ghost rows: seq<Row>, keys: seq<int>, merged: map<int, string>) returns (names: seq<string>)
    requires FirstNames(rows, keys, merged)
    ensures exists xs :: ListOf(rows, xs, names)
    ensures names == [] <==> rows == []
  {
    var sorted := SortIndices(keys);
    SortIndicesKeeps(keys);
    names := [];
    for n := 0 to |sorted|
      invariant |names| == n && forall k :: 0 <= k < n ==> Has(rows, sorted[k]) && names[k] == FirstName(rows, sorted[k])
    {
      assert sorted[n] in sorted;
      names := names + [merged[sorted[n]]];
    }
    assert ListOf(rows, sorted, names);
    assert rows != [] ==> Has(rows, rows[0].index);
    assert sorted != [] ==> Has(rows, sorted[0]);
  }

  // ----- The list of a built dataset ----------------------------------------------------------------

  function Names(classes: seq<Class>): (names: seq<string>)
    ensures |names| == |classes| && forall k :: 0 <= k < |names| ==> names[k] == classes[k].name
  {
    seq(|classes|, k requires 0 <= k < |classes| => classes[k].name)
  }

  ghost predicate Shown(rows: seq<Row>, classes: seq<Class>) {
    exists xs :: ListOf(rows, xs, Names(classes)) && forall k :: 0 <= k < |xs| ==> classes[k].index == xs[k]
  }

  /** `rows` are the class rows of all scans in index order, rows of one index in any order. */
  method GetClasses(rows: seq<Row>) returns (classes: seq<Class>)
    ensures Shown(rows, classes)
  {
    var keys: seq<int>, merged: map<int, string> := [], map[];
    for i := 0 to |rows|
      invariant FirstNames(rows[..i], keys, merged)
    {
      var c := rows[i];
      OneMoreRow(rows[..i], c);
      assert rows[..i + 1] == rows[..i] + [c];
      if c.index !in merged {
        keys := keys + [c.index];
        merged := merged[c.index := c.name];
      }
    }
    assert rows[..|rows|] == rows;
    var sorted := SortIndices(keys);
    SortIndicesKeeps(keys);
    classes := [];
    for n := 0 to |sorted|
      invariant |classes| == n
      invariant forall k :: 0 <= k < n ==> Has(rows, sorted[k]) && classes[k] == Class(sorted[k], FirstName(rows, sorted[k]))
    {
      assert sorted[n] in sorted;
      classes := classes + [Class(sorted[n], merged[sorted[n]])];
    }
    assert ListOf(rows, sorted, Names(classes));
  }

  // ----- The three agree -----------------------------------------------------------------------------

  /** The same rows in any order and multiplicity. */
  ghost predicate SameRows(a: seq<Row>, b: seq<Row>) {
    forall r :: r in a <==> r in b
  }

  lemma SameRowsSameIndices(a: seq<Row>, b: seq<Row>, x: int)
    requires SameRows(a, b)
    ensures Has(a, x) <==> Has(b, x)
  {
    if Has(a, x) {
      var k :| 0 <= k < |a| && a[k].index == x;
      assert a[k] in b;
    }
    if Has(b, x) {
      var k :| 0 <= k < |b| && b[k].index == x;
      assert b[k] in a;
    }
  }

  lemma OrderDoesNotMatter(a: seq<Row>, b: seq<Row>)
    requires SameRows(a, b)
    ensures Compatible(a) <==> Compatible(b)
    ensures a == [] <==> b == []
  {
    if Compatible(a) {
      CompatibleMoves(a, b);
    } else if Compatible(b) {
      CompatibleMoves(b, a);
    }
    assert a != [] ==> a[0] in b;
    assert b != [] ==> b[0] in a;
  }

  lemma CompatibleMoves(a: seq<Row>, b: seq<Row>)
    requires SameRows(a, b) && Compatible(a)
    ensures Compatible(b)
  {
    forall i, k | 0 <= i < |b| && 0 <= k < |b| && b[i].index == b[k].index
      ensures b[i].name == b[k].name
    {
      assert b[i] in a && b[k] in a;
    }
  }

  /** Compatible rows give one class list, whatever their order. */
  lemma OneListForAll(a: seq<Row>, b: seq<Row>, xs: seq<int>, ys: seq<int>, names: seq<string>, others: seq<string>)
    requires SameRows(a, b) && Compatible(a) && ListOf(a, xs, names) && ListOf(b, ys, others)
    ensures xs == ys && names == others
  {
    forall x
      ensures Has(a, x) <==> Has(b, x)
    {
      SameRowsSameIndices(a, b, x);
    }
    AscendingUnique(xs, ys);
    forall k | 0 <= k < |xs|
      ensures names[k] == others[k]
    {
      FirstIsOne(a, xs[k]);
      FirstIsOne(b, xs[k]);
      var i :| 0 <= i < |a| && a[i].index == xs[k] && a[i].name == names[k];
      var j :| 0 <= j < |b| && b[j].index == xs[k] && b[j].name == others[k];
      assert b[j] in a;
    }
  }

  /** What the check reports for compatible sources is that list too. */
  lemma ReportIsTheList(rows: seq<Row>, xs: seq<int>, conflicts: seq<Conflict>, classes: seq<Class>)
    requires Compatible(rows) && IndicesOf(rows, xs) && ReportOf(rows, xs, conflicts, classes)
    ensures ListOf(rows, xs, Names(classes))
  {
    forall k | 0 <= k < |xs|
      ensures classes[k].name == FirstName(rows, xs[k])
    {
      assert AgreeOn(rows, xs[k]);
    }
  }

  lemma CheckedList(rows: seq<Row>, report: seq<Class>, conflicts: seq<Conflict>) returns (xs: seq<int>)
    requires Compatible(rows) && Checked(rows, true, report, conflicts)
    ensures ListOf(rows, xs, Names(report)) && forall k :: 0 <= k < |xs| ==> report[k].index == xs[k]
  {
    xs :| IndicesOf(rows, xs) && ReportOf(rows, xs, conflicts, report);
    ReportIsTheList(rows, xs, conflicts, report);
  }

  lemma SameClasses(a: seq<Row>, xs: seq<int>, report: seq<Class>, c: seq<Row>, zs: seq<int>, shown: seq<Class>)
    requires SameRows(a, c) && Compatible(a) && ListOf(a, xs, Names(report)) && ListOf(c, zs, Names(shown))
    requires forall k :: 0 <= k < |xs| ==> report[k].index == xs[k]
    requires forall k :: 0 <= k < |zs| ==> shown[k].index == zs[k]
    ensures report == shown
  {
    OneListForAll(a, c, xs, zs, Names(report), Names(shown));
    forall k | 0 <= k < |report|
      ensures report[k] == shown[k]
    {
      assert Names(report)[k] == Names(shown)[k];
    }
  }

  /**
   On the same rows, in any order: the check finds the sources compatible exactly when the
   build accepts them or they have no class at all, and for an accepted build all three
   show the same indices with the same names.
   */
  lemma ThreeMergesAgree(
    a: seq<Row>, compatible: bool, report: seq<Class>, conflicts: seq<Conflict>,
    b: seq<Row>, build: Result<seq<string>, BuildError>, c: seq<Row>, shown: seq<Class>)
    requires SameRows(a, b) && SameRows(a, c)
    requires Checked(a, compatible, report, conflicts) && Configured(b, build) && Shown(c, shown)
    ensures compatible <==> build.Success? || a == []
    ensures build.Success? ==> build.value == Names(report) && report == shown
  {
    OrderDoesNotMatter(a, b);
    if build.Success? {
      var xs := CheckedList(a, report, conflicts);
      var ys :| ListOf(b, ys, build.value);
      OneListForAll(a, b, xs, ys, Names(report), build.value);
      var zs :| ListOf(c, zs, Names(shown)) && forall k :: 0 <= k < |zs| ==> shown[k].index == zs[k];
      SameClasses(a, xs, report, c, zs, shown);
    }
  }

  /** Without any class the check is content and the build is not. */
  lemma NoClassIsCompatibleButRefused(compatible: bool, classes: seq<Class>, conflicts: seq<Conflict>, build: Result<seq<string>, BuildError>)
    requires Checked([], compatible, classes, conflicts) && Configured([], build)
    ensures compatible && build == Failure(NoClasses)
  {
  }
}
