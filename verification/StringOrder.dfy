/** The order JavaScript's default sort puts strings in, and sorting by it. */
module StringOrder {

  /** Where a character sorts by its UTF-16 code units: surrogate pairs come before U+E000..U+FFFF. */
  function Rank(c: char): int {
    var u := c as int;
    if 0xE000 <= u <= 0xFFFF then u + 0x110000 else u
  }

  predicate Less(a: string, b: string) {
    if b == "" then false
    else if a == "" then true
    else Rank(a[0]) < Rank(b[0]) || (a[0] == b[0] && Less(a[1..], b[1..]))
  }

  lemma {:induction false} LessTransitive(a: string, b: string, c: string)
    requires Less(a, b) && Less(b, c)
    ensures Less(a, c)
    decreases |a|
  {
    if a != "" && b != "" && a[0] == b[0] && b[0] == c[0] {
      LessTransitive(a[1..], b[1..], c[1..]);
    }
  }

  lemma {:induction false} LessTotal(a: string, b: string)
    ensures a == b || Less(a, b) || Less(b, a)
    ensures !Less(a, a)
    decreases |a|
  {
    if a != "" && b != "" && a[0] == b[0] {
      LessTotal(a[1..], b[1..]);
      assert a == [a[0]] + a[1..] && b == [b[0]] + b[1..];
    } else if a != "" {
      LessTotal(a[1..], a[1..]);
    }
  }

  datatype Keyed<T> = Keyed(key: string, value: T)

  function Insert<T>(e: Keyed<T>, es: seq<Keyed<T>>): seq<Keyed<T>> {
    if es == [] || Less(e.key, es[0].key) then [e] + es else [es[0]] + Insert(e, es[1..])
  }

  function Sort<T>(es: seq<Keyed<T>>): seq<Keyed<T>> {
    if es == [] then [] else Insert(es[0], Sort(es[1..]))
  }

  ghost predicate Ascending<T>(es: seq<Keyed<T>>) {
    forall i, k :: 0 <= i < k < |es| ==> Less(es[i].key, es[k].key)
  }

  ghost predicate Distinct<T>(es: seq<Keyed<T>>) {
    forall i, k :: 0 <= i < k < |es| ==> es[i].key != es[k].key
  }

  lemma {:induction false} InsertKeeps<T>(e: Keyed<T>, es: seq<Keyed<T>>)
    requires Ascending(es) && forall i :: 0 <= i < |es| ==> es[i].key != e.key
    ensures Ascending(Insert(e, es)) && |Insert(e, es)| == |es| + 1
    ensures var r := Insert(e, es);
            && (forall i :: 0 <= i < |r| ==> r[i] == e || r[i] in es)
            && e in r && forall x :: x in es ==> x in r
  {
    if es != [] {
      LessTotal(e.key, es[0].key);
      if Less(e.key, es[0].key) {
        forall k | 0 < k < |es|
          ensures Less(e.key, es[k].key)
        {
          LessTransitive(e.key, es[0].key, es[k].key);
        }
      } else {
        InsertKeeps(e, es[1..]);
        var r := Insert(e, es[1..]);
        forall k | 0 <= k < |r|
          ensures Less(es[0].key, r[k].key)
        {
          assert r[k] == e || r[k] in es[1..];
        }
      }
    }
  }

  lemma {:induction false} SortKeeps<T>(es: seq<Keyed<T>>)
    requires Distinct(es)
    ensures Ascending(Sort(es)) && |Sort(es)| == |es|
    ensures forall i :: 0 <= i < |es| ==> Sort(es)[i] in es
    ensures forall x :: x in es ==> x in Sort(es)
  {
    if es != [] {
      SortKeeps(es[1..]);
      var r := Sort(es[1..]);
      forall i | 0 <= i < |r|
        ensures r[i].key != es[0].key
      {
        assert r[i] in es[1..];
      }
      InsertKeeps(es[0], Sort(es[1..]));
    }
  }

  lemma AscendingIsDistinct<T>(es: seq<Keyed<T>>)
    requires Ascending(es)
    ensures Distinct(es)
  {
    forall i, k | 0 <= i < k < |es|
      ensures es[i].key != es[k].key
    {
      LessTotal(es[i].key, es[i].key);
    }
  }

  /** There is one ascending arrangement of a set of entries. */
  lemma {:induction false} AscendingUnique<T>(a: seq<Keyed<T>>, b: seq<Keyed<T>>)
    requires Ascending(a) && Ascending(b) && forall x :: x in a <==> x in b
    ensures a == b
    decreases |a|
  {
    assert (a == [] || a[0] in b) && (b == [] || b[0] in a) by {
      assert a == [] || a[0] in a;
      assert b == [] || b[0] in b;
    }
    if a != [] {
      var i :| 0 <= i < |b| && b[i] == a[0];
      var k :| 0 <= k < |a| && a[k] == b[0];
      if i > 0 && k > 0 {
        LessTransitive(a[0].key, b[0].key, a[0].key);
        LessTotal(a[0].key, a[0].key);
      }
      assert a[0] == b[0];
      forall x
        ensures x in a[1..] <==> x in b[1..]
      {
        LessTotal(a[0].key, a[0].key);
        if x in a[1..] { assert x in a && x != a[0]; }
        if x in b[1..] { assert x in b && x != b[0]; }
      }
      AscendingUnique(a[1..], b[1..]);
    }
  }

  lemma SubsetCard<T>(a: set<Keyed<T>>, b: set<Keyed<T>>)
    requires a <= b
    ensures |a| <= |b|
  {
    assert b == a + (b - a);
  }

  lemma {:induction false} CardOfDistinct<T>(a: seq<Keyed<T>>)
    requires Distinct(a)
    ensures |set x | x in a| == |a|
  {
    if a != [] {
      var n := |a| - 1;
      CardOfDistinct(a[..n]);
      assert a == a[..n] + [a[n]];
      assert (set x | x in a) == (set x | x in a[..n]) + {a[n]};
    }
  }

  /** Distinct entries that all occur in an equally long list are all of it. */
  lemma Covered<T>(a: seq<Keyed<T>>, b: seq<Keyed<T>>)
    requires Distinct(a) && Distinct(b) && |a| == |b|
    requires forall x :: x in a ==> x in b
    ensures forall x :: x in b ==> x in a
  {
    var sa, sb := set x | x in a, set x | x in b;
    CardOfDistinct(a);
    CardOfDistinct(b);
    forall x | x in b
      ensures x in a
    {
      if x !in a {
        assert sa <= sb - {x};
        SubsetCard(sa, sb - {x});
        assert false;
      }
    }
  }

  lemma SortIgnoresOrder<T>(a: seq<Keyed<T>>, b: seq<Keyed<T>>)
    requires Distinct(a) && Distinct(b) && |a| == |b|
    requires forall x :: x in a ==> x in b
    ensures Sort(a) == Sort(b)
  {
    Covered(a, b);
    SortKeeps(a);
    SortKeeps(b);
    AscendingUnique(Sort(a), Sort(b));
  }

  // ----- The order of code units -------------------------------------------------------

  /** A character in UTF-16: one code unit, or a surrogate pair. */
  function Units(c: char): (units: seq<int>)
    ensures |units| == 1 || |units| == 2
  {
    var u := c as int;
    if u < 0x10000 then [u] else [0xD800 + (u - 0x10000) / 0x400, 0xDC00 + (u - 0x10000) % 0x400]
  }

  function Utf16(s: string): seq<int> {
    if s == "" then [] else Units(s[0]) + Utf16(s[1..])
  }

  /** The first code unit that differs decides; a proper prefix comes first. */
  predicate UnitsLess(a: seq<int>, b: seq<int>) {
    b != [] && (a == [] || a[0] < b[0] || (a[0] == b[0] && UnitsLess(a[1..], b[1..])))
  }

  lemma {:induction false} UnitsLessTail(common: seq<int>, a: seq<int>, b: seq<int>)
    ensures UnitsLess(common + a, common + b) <==> UnitsLess(a, b)
  {
    if common == [] {
      assert common + a == a && common + b == b;
    } else {
      assert (common + a)[1..] == common[1..] + a && (common + b)[1..] == common[1..] + b;
      UnitsLessTail(common[1..], a, b);
    }
  }

  lemma FirstUnits(c: char, d: char, a: seq<int>, b: seq<int>)
    requires c != d
    ensures UnitsLess(Units(c) + a, Units(d) + b) <==> Rank(c) < Rank(d)
  {
    var x, y, u, v := Units(c) + a, Units(d) + b, c as int, d as int;
    assert x[0] == Units(c)[0] && y[0] == Units(d)[0];
    if u >= 0x10000 && v >= 0x10000 {
      assert x[1] == Units(c)[1] && y[1] == Units(d)[1];
      assert x[1..][0] == x[1] && y[1..][0] == y[1];
    }
  }

  /** Strings are ordered as their UTF-16 code units are. */
  lemma {:induction false} LessIsByCodeUnits(a: string, b: string)
    ensures Less(a, b) <==> UnitsLess(Utf16(a), Utf16(b))
    decreases |a|
  {
    if a != "" && b != "" {
      if a[0] == b[0] {
        LessIsByCodeUnits(a[1..], b[1..]);
        UnitsLessTail(Units(a[0]), Utf16(a[1..]), Utf16(b[1..]));
      } else {
        FirstUnits(a[0], b[0], Utf16(a[1..]), Utf16(b[1..]));
      }
    }
  }
}
