/**
 The did-you-mean search: the distance table, which follows the diagonal whenever
 the characters agree, against the least number of single-character edits, and
 the choice of the nearest known key.
 */
module EditDistance {
  import opened Wrappers

  function Min(x: nat, y: nat): nat { if x < y then x else y }

  /** The value the table computes for two texts. */
  function Dist(a: string, b: string): nat
    decreases |a| + |b|
  {
    if a == "" then |b|
    else if b == "" then |a|
    else
      var a', b' := a[..|a| - 1], b[..|b| - 1];
      if a[|a| - 1] == b[|b| - 1] then Dist(a', b')
      else 1 + Min(Min(Dist(a', b), Dist(a, b')), Dist(a', b'))
  }

  /** Rows 0..rows of the table hold the distances of the prefixes. */
  ghost predicate Filled(dp: array2<nat>, a: string, b: string, rows: int)
    requires dp.Length0 == |a| + 1 && dp.Length1 == |b| + 1 && rows <= |a|
    reads dp
  {
    forall r, c :: 0 <= r <= rows && 0 <= c <= |b| ==> dp[r, c] == Dist(a[..r], b[..c])
  }

  lemma CellStep(a: string, b: string, i: nat, j: nat)
    requires 1 <= i <= |a| && 1 <= j <= |b|
    ensures Dist(a[..i], b[..j]) ==
            if a[i - 1] == b[j - 1] then Dist(a[..i - 1], b[..j - 1])
            else 1 + Min(Min(Dist(a[..i - 1], b[..j]), Dist(a[..i], b[..j - 1])), Dist(a[..i - 1], b[..j - 1]))
  {
    assert a[..i][..i - 1] == a[..i - 1] && b[..j][..j - 1] == b[..j - 1];
  }

  /** The inner loop: one row from the row above. */
  method FillRow(dp: array2<nat>, a: string, b: string, i: nat)
    requires dp.Length0 == |a| + 1 && dp.Length1 == |b| + 1 && 1 <= i <= |a|
    requires Filled(dp, a, b, i - 1) && dp[i, 0] == i
    modifies dp
    ensures Filled(dp, a, b, i)
    ensures forall r :: i < r <= |a| ==> dp[r, 0] == old(dp[r, 0])
  {
    for j := 1 to |b| + 1
      invariant Filled(dp, a, b, i - 1)
      invariant forall c :: 0 <= c < j ==> dp[i, c] == Dist(a[..i], b[..c])
      invariant forall r :: i < r <= |a| ==> dp[r, 0] == old(dp[r, 0])
    {
      CellStep(a, b, i, j);
      dp[i, j] :=
        if a[i - 1] == b[j - 1] then dp[i - 1, j - 1]
        else 1 + Min(Min(dp[i - 1, j], dp[i, j - 1]), dp[i - 1, j - 1]);
    }
  }

  /** Fills the table row by row and returns its last cell. */
  method Distance(a: string, b: string) returns (d: nat)
    ensures d == Dist(a, b)
  {
    var dp := new nat[|a| + 1, |b| + 1]((i, j) => if j == 0 then i else 0);
    for j := 0 to |b| + 1
      invariant forall k :: 0 <= k < j ==> dp[0, k] == k
      invariant forall i :: 0 < i <= |a| ==> dp[i, 0] == i
    {
      dp[0, j] := j;
    }
    for i := 1 to |a| + 1
      invariant Filled(dp, a, b, i - 1)
      invariant forall r :: i <= r <= |a| ==> dp[r, 0] == r
    {
      FillRow(dp, a, b, i);
    }
    assert a[..|a|] == a && b[..|b|] == b;
    d := dp[|a|, |b|];
  }

  // ----- Neighbouring cells ------------------------------------------------------

  lemma {:induction false} Symmetric(a: string, b: string)
    ensures Dist(a, b) == Dist(b, a)
    decreases |a| + |b|
  {
    if a != "" && b != "" {
      Symmetric(a[..|a| - 1], b);
      Symmetric(a, b[..|b| - 1]);
      Symmetric(a[..|a| - 1], b[..|b| - 1]);
    }
  }

  /** Cells next to each other in the table differ by at most one. */
  lemma {:induction false} Neighbours(a: string, b: string, x: char)
    ensures Dist(a + [x], b) <= Dist(a, b) + 1
    ensures Dist(a, b) <= Dist(a + [x], b) + 1
    decreases |a| + |b|
  {
    var ax := a + [x];
    assert ax[..|ax| - 1] == a;
    if b != "" {
      var b', y := b[..|b| - 1], b[|b| - 1];
      assert b == b' + [y];
      Neighbours(a, b', x);
      Neighbours(b', a, y);
      Symmetric(a, b');
      Symmetric(a, b);
    }
  }

  /** Any of the three moves bounds the distance, also where the table takes the diagonal. */
  lemma Moves(a: string, b: string)
    requires a != "" && b != ""
    ensures var a', b' := a[..|a| - 1], b[..|b| - 1];
            && Dist(a, b) <= Dist(a', b) + 1
            && Dist(a, b) <= Dist(a, b') + 1
            && Dist(a, b) <= Dist(a', b') + (if a[|a| - 1] == b[|b| - 1] then 0 else 1)
            && (|| Dist(a, b) == Dist(a', b) + 1
                || Dist(a, b) == Dist(a, b') + 1
                || Dist(a, b) == Dist(a', b') + (if a[|a| - 1] == b[|b| - 1] then 0 else 1))
  {
    var a', b' := a[..|a| - 1], b[..|b| - 1];
    assert a == a' + [a[|a| - 1]] && b == b' + [b[|b| - 1]];
    Neighbours(a', b, a[|a| - 1]);
    Neighbours(b', a, b[|b| - 1]);
    Symmetric(a, b);
    Symmetric(a, b');
  }

  // ----- A metric ----------------------------------------------------------------

  lemma {:induction false} ZeroOnlyOnEqual(a: string, b: string)
    ensures Dist(a, b) == 0 <==> a == b
    decreases |a| + |b|
  {
    if a != "" && b != "" {
      ZeroOnlyOnEqual(a[..|a| - 1], b[..|b| - 1]);
      assert a == a[..|a| - 1] + [a[|a| - 1]] && b == b[..|b| - 1] + [b[|b| - 1]];
    }
  }

  lemma {:induction false} LengthBound(a: string, b: string)
    ensures |b| <= |a| + Dist(a, b) && |a| <= |b| + Dist(a, b)
    decreases |a| + |b|
  {
    if a != "" && b != "" {
      LengthBound(a[..|a| - 1], b);
      LengthBound(a, b[..|b| - 1]);
      LengthBound(a[..|a| - 1], b[..|b| - 1]);
    }
  }

  lemma {:induction false} Triangle(a: string, b: string, c: string)
    ensures Dist(a, c) <= Dist(a, b) + Dist(b, c)
    decreases |a| + |b| + |c|
  {
    if a == "" {
      LengthBound(b, c);
    } else if c == "" {
      LengthBound(a, b);
    } else if b == "" {
      LengthBound(a, c);
      DistAtMostSum(a, c);
    } else {
      var a', b', c' := a[..|a| - 1], b[..|b| - 1], c[..|c| - 1];
      Moves(a, b);
      Moves(b, c);
      Moves(a, c);
      Triangle(a', b, c);
      Triangle(a, b, c');
      Triangle(a, b', c);
      Triangle(a, b', c');
      Triangle(a', b', c);
      Triangle(a', b', c');
    }
  }

  lemma {:induction false} DistAtMostSum(a: string, b: string)
    ensures Dist(a, b) <= |a| + |b|
    decreases |a| + |b|
  {
    if a != "" && b != "" {
      Moves(a, b);
      DistAtMostSum(a[..|a| - 1], b);
    }
  }

  // ----- The least number of edits ------------------------------------------------

  datatype Edit = Insert(at: nat, c: char) | Delete(at: nat) | Substitute(at: nat, c: char)

  predicate Applies(e: Edit, s: string) {
    match e
    case Insert(at, _) => at <= |s|
    case Delete(at) => at < |s|
    case Substitute(at, _) => at < |s|
  }

  function ApplyEdit(e: Edit, s: string): string
    requires Applies(e, s)
  {
    match e
    case Insert(at, c) => s[..at] + [c] + s[at..]
    case Delete(at) => s[..at] + s[at + 1..]
    case Substitute(at, c) => s[..at] + [c] + s[at + 1..]
  }

  /** The edits, applied in order, turn a into b. */
  predicate Edits(a: string, script: seq<Edit>, b: string)
    decreases |script|
  {
    if script == [] then a == b
    else Applies(script[0], a) && Edits(ApplyEdit(script[0], a), script[1..], b)
  }

  lemma {:induction false} EditsAppend(a: string, s1: seq<Edit>, m: string, s2: seq<Edit>, b: string)
    requires Edits(a, s1, m) && Edits(m, s2, b)
    ensures Edits(a, s1 + s2, b)
    decreases |s1|
  {
    if s1 == [] {
      assert s1 + s2 == s2;
    } else {
      assert (s1 + s2)[1..] == s1[1..] + s2;
      EditsAppend(ApplyEdit(s1[0], a), s1[1..], m, s2, b);
    }
  }

  lemma EditExtends(e: Edit, a: string, tail: string)
    requires Applies(e, a)
    ensures Applies(e, a + tail) && ApplyEdit(e, a + tail) == ApplyEdit(e, a) + tail
  {
    assert (a + tail)[..e.at] == a[..e.at];
    match e
    case Insert(at, c) => assert (a + tail)[at..] == a[at..] + tail;
    case Delete(at) => assert (a + tail)[at + 1..] == a[at + 1..] + tail;
    case Substitute(at, c) => assert (a + tail)[at + 1..] == a[at + 1..] + tail;
  }

  /** Edits of a prefix leave what follows it alone. */
  lemma {:induction false} EditsExtend(a: string, script: seq<Edit>, b: string, tail: string)
    requires Edits(a, script, b)
    ensures Edits(a + tail, script, b + tail)
    decreases |script|
  {
    if script != [] {
      var next := ApplyEdit(script[0], a);
      EditExtends(script[0], a, tail);
      EditsExtend(next, script[1..], b, tail);
    }
  }

  lemma OneEdit(e: Edit, a: string, b: string)
    requires Applies(e, a) && ApplyEdit(e, a) == b
    ensures Edits(a, [e], b)
  {
    assert [e][1..] == [];
  }

  /** Some script is as short as the distance. */
  lemma {:induction false} ScriptExists(a: string, b: string) returns (script: seq<Edit>)
    ensures Edits(a, script, b) && |script| == Dist(a, b)
    decreases |a| + |b|
  {
    if a == b {
      ZeroOnlyOnEqual(a, b);
      return [];
    }
    if a != "" && (b == "" || Dist(a, b) == Dist(a[..|a| - 1], b) + 1) {
      // Drop the last character of a, then turn the rest into b.
      var a' := a[..|a| - 1];
      var rest := ScriptExists(a', b);
      OneEdit(Delete(|a| - 1), a, a');
      EditsAppend(a, [Delete(|a| - 1)], a', rest, b);
      return [Delete(|a| - 1)] + rest;
    }
    var b', y := b[..|b| - 1], b[|b| - 1];
    assert b == b' + [y];
    if a == "" || Dist(a, b) == Dist(a, b') + 1 {
      var rest := ScriptExists(a, b');
      OneEdit(Insert(|b'|, y), b', b);
      EditsAppend(a, rest, b', [Insert(|b'|, y)], b);
      return rest + [Insert(|b'|, y)];
    }
    var a', x := a[..|a| - 1], a[|a| - 1];
    assert a == a' + [x];
    Moves(a, b);
    var rest := ScriptExists(a', b');
    EditsExtend(a', rest, b', [x]);
    if x == y {
      return rest;
    }
    OneEdit(Substitute(|b'|, y), b' + [x], b);
    EditsAppend(a, rest, b' + [x], [Substitute(|b'|, y)], b);
    return rest + [Substitute(|b'|, y)];
  }

  /** The table follows the diagonal through a common tail, so the tail does not count. */
  lemma {:induction false} CommonTail(a: string, b: string, tail: string)
    ensures Dist(a + tail, b + tail) == Dist(a, b)
    decreases |tail|
  {
    if tail == "" {
      assert a + tail == a && b + tail == b;
    } else {
      var t', z := tail[..|tail| - 1], tail[|tail| - 1];
      assert (a + tail)[..|a + tail| - 1] == a + t' && (b + tail)[..|b + tail| - 1] == b + t';
      CommonTail(a, b, t');
    }
  }

  lemma AppendIsNear(head: string, c: char)
    ensures Dist(head, head + [c]) <= 1 && Dist(head + [c], head) <= 1
  {
    ZeroOnlyOnEqual(head, head);
    Neighbours(head, head, c);
    Symmetric(head, head + [c]);
  }

  lemma ReplaceLastIsNear(head: string, c: char, d: char)
    ensures Dist(head + [c], head + [d]) <= 1
  {
    ZeroOnlyOnEqual(head, head);
    var x, y := head + [c], head + [d];
    assert x[..|x| - 1] == head && y[..|y| - 1] == head;
    Moves(x, y);
  }

  lemma SameTailIsNear(x: string, y: string, tail: string, s: string, t: string)
    requires s == x + tail && t == y + tail && Dist(x, y) <= 1
    ensures Dist(s, t) <= 1
  {
    CommonTail(x, y, tail);
  }

  /** How a text is cut at an edit, and the two heads that differ. */
  lemma CutAt(s: string, at: nat, c: char)
    requires at <= |s|
    ensures s == s[..at] + s[at..]
    ensures at < |s| ==> s == s[..at] + [s[at]] + s[at + 1..]
    ensures ApplyEdit(Insert(at, c), s) == s[..at] + [c] + s[at..]
    ensures at < |s| ==> ApplyEdit(Substitute(at, c), s) == s[..at] + [c] + s[at + 1..]
  {
  }

  lemma InsertIsNear(s: string, at: nat, c: char)
    requires at <= |s|
    ensures Dist(s, ApplyEdit(Insert(at, c), s)) <= 1
    ensures Dist(ApplyEdit(Insert(at, c), s), s) <= 1
  {
    CutAt(s, at, c);
    AppendIsNear(s[..at], c);
    SameTailIsNear(s[..at], s[..at] + [c], s[at..], s, ApplyEdit(Insert(at, c), s));
    SameTailIsNear(s[..at] + [c], s[..at], s[at..], ApplyEdit(Insert(at, c), s), s);
  }

  lemma SubstituteIsNear(s: string, at: nat, c: char)
    requires at < |s|
    ensures Dist(s, ApplyEdit(Substitute(at, c), s)) <= 1
  {
    CutAt(s, at, c);
    ReplaceLastIsNear(s[..at], s[at], c);
    SameTailIsNear(s[..at] + [s[at]], s[..at] + [c], s[at + 1..], s, ApplyEdit(Substitute(at, c), s));
  }

  /** A single edit moves a text by at most one; a deletion is an insertion undone. */
  lemma EditIsNear(e: Edit, s: string)
    requires Applies(e, s)
    ensures Dist(s, ApplyEdit(e, s)) <= 1
  {
    match e
    case Insert(at, c) => InsertIsNear(s, at, c);
    case Delete(at) =>
      var t := s[..at] + s[at + 1..];
      InsertIsNear(t, at, s[at]);
      assert t[..at] == s[..at] && t[at..] == s[at + 1..];
      assert ApplyEdit(Insert(at, s[at]), t) == s;
    case Substitute(at, c) => SubstituteIsNear(s, at, c);
  }

  /** No script is shorter than the distance. */
  lemma {:induction false} NoShorterScript(a: string, script: seq<Edit>, b: string)
    requires Edits(a, script, b)
    ensures Dist(a, b) <= |script|
    decreases |script|
  {
    if script == [] {
      ZeroOnlyOnEqual(a, b);
    } else {
      var next := ApplyEdit(script[0], a);
      EditIsNear(script[0], a);
      NoShorterScript(next, script[1..], b);
      Triangle(a, next, b);
    }
  }

  /** The table's value is the least number of single-character edits between the two texts. */
  lemma DistanceIsLeastEdits(a: string, b: string, n: nat)
    ensures (exists script :: Edits(a, script, b) && |script| <= n) <==> Dist(a, b) <= n
  {
    var script := ScriptExists(a, b);
    forall s | Edits(a, s, b)
      ensures Dist(a, b) <= |s|
    {
      NoShorterScript(a, s, b);
    }
  }

  // ----- Suggestions ----------------------------------------------------------------

  function Threshold(key: string): nat {
    if |key| / 3 > 2 then |key| / 3 else 2
  }

  /** Two edits are always plausible, more up to a third of the key. */
  lemma ThresholdIs(key: string, d: nat)
    ensures d <= Threshold(key) <==> d <= 2 || 3 * d <= |key|
  {
  }

  /** The first of the nearest keys, when it is near enough to be a plausible typo. */
  ghost predicate IsSuggestion(key: string, pool: seq<string>, best: Option<string>) {
    && (best.Some? ==>
          && Dist(key, best.value) <= Threshold(key)
          && (exists i :: 0 <= i < |pool| && pool[i] == best.value
                && (forall k :: 0 <= k < |pool| ==> Dist(key, pool[i]) <= Dist(key, pool[k]))
                && (forall k :: 0 <= k < i ==> Dist(key, pool[i]) < Dist(key, pool[k]))))
    && (best.None? <==> forall k :: 0 <= k < |pool| ==> Dist(key, pool[k]) > Threshold(key))
  }

  method Suggest(key: string, pool: seq<string>) returns (best: Option<string>)
    ensures IsSuggestion(key, pool, best)
  {
    best := None;
    var bestD := 0;
    ghost var at := 0;
    for i := 0 to |pool|
      invariant best.None? <==> i == 0
      invariant best.Some? ==>
                  && at < i && pool[at] == best.value && bestD == Dist(key, pool[at])
                  && (forall k :: 0 <= k < i ==> bestD <= Dist(key, pool[k]))
                  && (forall k :: 0 <= k < at ==> bestD < Dist(key, pool[k]))
    {
      var d := Distance(key, pool[i]);
      if best.None? || d < bestD {
        bestD, best, at := d, Some(pool[i]), i;
      }
    }
    if best.Some? && bestD > Threshold(key) {
      best := None;
    }
  }

  /** A key within one edit of a known key is always answered, with a key at most one edit away. */
  lemma OneTypoIsSuggested(key: string, pool: seq<string>, known: string, e: Edit, best: Option<string>)
    requires known in pool && Applies(e, known) && ApplyEdit(e, known) == key && IsSuggestion(key, pool, best)
    ensures best.Some? && Dist(key, best.value) <= 1
  {
    EditIsNear(e, known);
    Symmetric(known, key);
    var i :| 0 <= i < |pool| && pool[i] == known;
    assert Dist(key, pool[i]) <= 1 <= Threshold(key);
  }
}
