/**
 The overlap rules for file system roots: the deepest root owns a path. Roots are
 compared as strings; the lemmas relate that to comparing path components.
 */
module Roots {
  import opened Joining
  import opened Whitespace
  import opened Wrappers

  datatype Relation = Same | Inside | Contains | Disjoint

  // ----- Normal form --------------------------------------------------------------------

  function StripSlashes(s: string): string {
    if s != "" && s[|s| - 1] == '/' then StripSlashes(s[..|s| - 1]) else s
  }

  function Normalize(p: string): string {
    var stripped := StripSlashes(Trim(p));
    if stripped == "" then "/" else stripped
  }

  /** `x` lies strictly below `y`. */
  predicate Below(x: string, y: string) {
    y + "/" <= x
  }

  function Relate(a: string, b: string): Relation {
    var x, y := Normalize(a), Normalize(b);
    if x == y then Same else if Below(x, y) then Inside else if Below(y, x) then Contains else Disjoint
  }

  predicate IsWithin(path: string, root: string) {
    var p, r := Normalize(path), Normalize(root);
    p == r || Below(p, r)
  }

  function NestedWithin(base: string, others: seq<string>): seq<string> {
    if others == [] then []
    else
      var before := NestedWithin(base, others[..|others| - 1]);
      var last := others[|others| - 1];
      if Relate(last, base) == Inside then before + [last] else before
  }

  // ----- An order ----------------------------------------------------------------------------

  /** Relating two roots the other way round swaps inside and contains. */
  lemma RelateIsMirrored(a: string, b: string)
    ensures Relate(a, b) == Same <==> Relate(b, a) == Same
    ensures Relate(a, b) == Inside <==> Relate(b, a) == Contains
    ensures Relate(a, b) == Disjoint <==> Relate(b, a) == Disjoint
  {
    var x, y := Normalize(a), Normalize(b);
    assert !(Below(x, y) && Below(y, x));
  }

  /** Same-or-inside is a partial order up to writing: reflexive, antisymmetric, transitive. */
  lemma RelateIsAnOrder(a: string, b: string, c: string)
    ensures Relate(a, a) == Same
    ensures Relate(a, b) == Inside ==> Relate(b, a) != Inside
    ensures Relate(a, b) == Same ==> Relate(a, c) == Relate(b, c) && Relate(c, a) == Relate(c, b)
    ensures Relate(a, b) == Inside && Relate(b, c) == Inside ==> Relate(a, c) == Inside
  {
    var x, y, z := Normalize(a), Normalize(b), Normalize(c);
    RelateIsMirrored(a, b);
    if Below(x, y) && Below(y, z) {
      BelowIsTransitive(x, y, z);
    }
  }

  lemma BelowIsTransitive(x: string, y: string, z: string)
    requires Below(x, y) && Below(y, z)
    ensures Below(x, z)
  {
    assert x[..|z| + 1] == (x[..|y| + 1])[..|z| + 1];
  }

  /** Two roots that contain the same path are the same or nested: the longer one is the deeper one. */
  lemma ContainersAreNested(path: string, a: string, b: string)
    requires IsWithin(path, a) && IsWithin(path, b)
    ensures Relate(a, b) != Disjoint
    ensures Relate(a, b) == Inside <==> |Normalize(a)| > |Normalize(b)|
    ensures Relate(a, b) == Same <==> |Normalize(a)| == |Normalize(b)|
  {
    var p, x, y := Normalize(path), Normalize(a), Normalize(b);
    assert x == p[..|x|] && y == p[..|y|];
    if |x| > |y| {
      assert (y + "/")[..|y|] == y;
      assert x[..|y| + 1] == p[..|y| + 1];
    } else if |y| > |x| {
      assert y[..|x| + 1] == p[..|x| + 1];
    }
  }

  lemma {:induction false} NestedWithinIsExact(base: string, others: seq<string>, o: string)
    ensures o in NestedWithin(base, others) <==> o in others && Relate(o, base) == Inside
  {
    if others != [] {
      var n := |others| - 1;
      NestedWithinIsExact(base, others[..n], o);
      assert others == others[..n] + [others[n]];
    }
  }

  // ----- Path components ------------------------------------------------------------------------

  lemma CutText(s: string, i: nat)
    requires i < |s|
    ensures s == s[..i] + ([s[i]] + s[i + 1..])
  {
  }

  lemma AppendPart(head: string, a: seq<string>, b: seq<string>)
    ensures [head] + (a + b) == ([head] + a) + b
  {
  }

  /** The parts of a text and of a longer one that start with the same piece. */
  lemma SplitLonger(s: string, long: string, w: string, c: char, rest: string, more: string, parts: seq<string>)
    requires c !in w && s == w + ([c] + rest) && long == w + ([c] + more)
    requires SplitOn(more, c) == SplitOn(rest, c) + parts
    ensures SplitOn(long, c) == SplitOn(s, c) + parts
  {
    SplitAt(s, w, c, rest);
    SplitAt(long, w, c, more);
    AppendPart(w, SplitOn(rest, c), parts);
  }

  lemma {:induction false} SplitAppend(s: string, t: string, c: char)
    ensures SplitOn(s + ([c] + t), c) == SplitOn(s, c) + SplitOn(t, c)
    decreases |s|
  {
    var i := IndexOf(s, c);
    if i == |s| {
      SplitAt(s + ([c] + t), s, c, t);
    } else {
      var rest := s[i + 1..];
      CutText(s, i);
      CutLonger(s, i, [c] + t);
      SplitAppend(rest, t, c);
      SplitLonger(s, s + ([c] + t), s[..i], c, rest, rest + ([c] + t), SplitOn(t, c));
    }
  }

  lemma CutLonger(s: string, i: nat, u: string)
    requires i < |s|
    ensures s + u == s[..i] + ([s[i]] + (s[i + 1..] + u))
  {
  }

  lemma JoinCons(head: string, parts: seq<string>, separator: string)
    requires parts != []
    ensures Join([head] + parts, separator) == head + (separator + Join(parts, separator))
  {
    assert ([head] + parts)[1..] == parts;
  }

  lemma {:induction false} JoinSplit(s: string, c: char)
    ensures Join(SplitOn(s, c), [c]) == s
    decreases |s|
  {
    var i := IndexOf(s, c);
    if i < |s| {
      var rest := s[i + 1..];
      JoinSplit(rest, c);
      CutText(s, i);
      SplitAt(s, s[..i], c, rest);
      JoinCons(s[..i], SplitOn(rest, c), [c]);
    }
  }

  lemma {:induction false} JoinAppend(a: seq<string>, b: seq<string>, separator: string)
    requires a != [] && b != []
    ensures Join(a + b, separator) == Join(a, separator) + (separator + Join(b, separator))
    decreases |a|
  {
    if |a| == 1 {
      JoinCons(a[0], b, separator);
    } else {
      JoinAppend(a[1..], b, separator);
      assert a + b == [a[0]] + (a[1..] + b);
      JoinCons(a[0], a[1..] + b, separator);
      Regroup(a[0], separator, Join(a[1..], separator), separator + Join(b, separator));
    }
  }

  /** A path is at or below a root exactly when the root's components start the path's components. */
  lemma BelowIsByComponents(p: string, r: string)
    ensures p == r || Below(p, r) <==> SplitOn(r, '/') <= SplitOn(p, '/')
  {
    if Below(p, r) {
      BelowSplits(p, r, p[|r| + 1..]);
    }
    if SplitOn(r, '/') <= SplitOn(p, '/') {
      ComponentsStart(p, r, SplitOn(p, '/')[|SplitOn(r, '/')|..]);
    }
  }

  lemma BelowSplits(p: string, r: string, t: string)
    requires Below(p, r) && t == p[|r| + 1..]
    ensures SplitOn(r, '/') <= SplitOn(p, '/')
  {
    BelowText(p, r, t);
    SplitAppend(r, t, '/');
  }

  lemma BelowText(p: string, r: string, t: string)
    ensures Below(p, r) && t == p[|r| + 1..] ==> p == r + (['/'] + t)
    ensures p == r + ("/" + t) ==> Below(p, r)
  {
    assert (r + ("/" + t))[..|r| + 1] == r + "/";
  }

  lemma ComponentsStart(p: string, r: string, rest: seq<string>)
    requires SplitOn(p, '/') == SplitOn(r, '/') + rest
    ensures p == r || Below(p, r)
  {
    JoinSplit(p, '/');
    JoinSplit(r, '/');
    if rest != [] {
      JoinAppend(SplitOn(r, '/'), rest, "/");
      BelowText(p, r, Join(rest, "/"));
    } else {
      assert SplitOn(p, '/') == SplitOn(r, '/');
    }
  }

  /** Being within a root is having its components first. */
  lemma WithinIsByComponents(path: string, root: string)
    ensures IsWithin(path, root) <==> SplitOn(Normalize(root), '/') <= SplitOn(Normalize(path), '/')
  {
    BelowIsByComponents(Normalize(path), Normalize(root));
  }

  // ----- Who owns a path ----------------------------------------------------------------------------

  /** Another dataset type with its root. */
  datatype Other = Other(id: nat, path: string)

  function Target(root: string, relative: string): string {
    Normalize(Normalize(root) + ("/" + relative))
  }

  /** A root strictly below this one contains the target. */
  predicate Claims(o: Other, root: string, target: string) {
    Relate(o.path, root) == Inside && IsWithin(target, o.path)
  }

  predicate NoneClaims(root: string, target: string, others: seq<Other>) {
    forall o :: o in others ==> !Claims(o, root, target)
  }

  predicate Accepted(root: string, relative: string, others: seq<Other>) {
    NoneClaims(root, Target(root, relative), others)
  }

  lemma OneMoreOther(root: string, target: string, others: seq<Other>, i: nat)
    requires i < |others|
    ensures NoneClaims(root, target, others[..i + 1]) <==> NoneClaims(root, target, others[..i]) && !Claims(others[i], root, target)
  {
    TakeOneMore(others, i);
  }

  lemma TakeOneMore(others: seq<Other>, i: nat)
    requires i < |others|
    ensures forall o :: o in others[..i + 1] <==> o in others[..i] || o == others[i]
  {
    assert others[..i + 1] == others[..i] + [others[i]];
  }

  method AssertNotInsideAnotherTypesRoot(root: string, relative: string, others: seq<Other>) returns (r: Result<(), Other>)
    ensures r.Success? <==> Accepted(root, relative, others)
    ensures r.Failure? ==> exists k ::
      && 0 <= k < |others| && r.error == others[k] && Claims(others[k], root, Target(root, relative))
      && Accepted(root, relative, others[..k])
  {
    var target := Normalize(Normalize(root) + ("/" + relative));
    for i := 0 to |others|
      invariant NoneClaims(root, target, others[..i])
    {
      OneMoreOther(root, target, others, i);
      var theirs := others[i].path;
      if Relate(theirs, root) != Inside {
        continue;
      }
      if IsWithin(target, theirs) {
        assert !NoneClaims(root, target, others);
        return Failure(others[i]);
      }
    }
    assert others[..|others|] == others;
    return Success(());
  }

  /** A target below its own root is accepted exactly when no root that contains it is deeper than its own. */
  lemma DeepestContainerOwns(root: string, relative: string, others: seq<Other>)
    requires IsWithin(Target(root, relative), root)
    ensures Accepted(root, relative, others)
       <==> forall o :: o in others && IsWithin(Target(root, relative), o.path) ==> |Normalize(o.path)| <= |Normalize(root)|
  {
    var target := Target(root, relative);
    forall o | o in others
      ensures Claims(o, root, target) <==> IsWithin(target, o.path) && |Normalize(o.path)| > |Normalize(root)|
    {
      if IsWithin(target, o.path) {
        ContainersAreNested(target, o.path, root);
      }
    }
  }

  // ----- Normal forms -----------------------------------------------------------------------------

  lemma {:induction false} TrimStartCuts(s: string)
    ensures var t := TrimStart(s);
            && |t| <= |s| && (t == "" || NotSpace(t[0])) && (s != "" && NotSpace(s[0]) ==> t == s)
  {
    if s != "" && IsSpace(s[0]) {
      TrimStartCuts(s[1..]);
    }
  }

  lemma {:induction false} TrimEndCuts(s: string)
    ensures var t := TrimEnd(s);
            && t <= s && (t == "" || NotSpace(t[|t| - 1]))
            && forall i :: |t| <= i < |s| ==> IsSpace(s[i])
  {
    if s != "" && IsSpace(s[|s| - 1]) {
      TrimEndCuts(s[..|s| - 1]);
    }
  }

  lemma {:induction false} StripSlashesCuts(s: string)
    ensures var t := StripSlashes(s);
            && t <= s && (t == "" || t[|t| - 1] != '/')
            && forall i :: |t| <= i < |s| ==> s[i] == '/'
  {
    if s != "" && s[|s| - 1] == '/' {
      StripSlashesCuts(s[..|s| - 1]);
    }
  }

  /** What normalizing takes away: white space around, and slashes at the end, of which one stays if nothing else would. */
  lemma NormalizeIsExact(p: string) returns (before: string, slashes: string, after: string)
    ensures Blank(before) && Blank(after) && forall i :: 0 <= i < |slashes| ==> slashes[i] == '/'
    ensures p == before + ((if Normalize(p) == "/" then "" else Normalize(p)) + slashes + after)
  {
    before, after := TrimIsExact(p);
    var trimmed := Trim(p);
    StripSlashesCuts(trimmed);
    slashes := trimmed[|StripSlashes(trimmed)|..];
    assert trimmed == StripSlashes(trimmed) + slashes;
  }

  /** A normal form is `/` or starts with no blank and ends with no slash. */
  lemma NormalForm(p: string)
    ensures var n := Normalize(p); n != "" && NotSpace(n[0]) && (n == "/" || n[|n| - 1] != '/')
  {
    var s := TrimStart(p);
    TrimStartCuts(p);
    TrimEndCuts(s);
    StripSlashesCuts(Trim(p));
  }

  /** Text that starts with no blank is only shortened at its end, down to `/` or to what ends with no slash. */
  lemma NormalizeCuts(s: string)
    requires s != "" && NotSpace(s[0])
    ensures var n := Normalize(s);
            && (n == "/" || n <= s)
            && (n == "/" || n[|n| - 1] != '/')
            && (n != "/" ==> n != "" && forall i :: |n| <= i < |s| ==> s[i] == '/' || IsSpace(s[i]))
            && (n == "/" ==> forall i :: 0 <= i < |s| ==> s[i] == '/' || IsSpace(s[i]))
  {
    TrimStartCuts(s);
    TrimEndCuts(s);
    StripSlashesCuts(TrimEnd(s));
  }

  lemma EndSpaceIsCut(s: string)
    requires |s| > 1 && NotSpace(s[0]) && IsSpace(s[|s| - 1])
    ensures |Normalize(s)| < |s|
  {
    TrimStartCuts(s);
    TrimEndCuts(s);
    StripSlashesCuts(TrimEnd(s));
  }

  // ----- Targets under their own root ---------------------------------------------------------------

  /** At or below a normal form, as text. */
  predicate AtOrBelow(p: string, r: string) {
    p == r || Below(p, r)
  }

  /** Normalizing a path below a root that does not end in a blank leaves it at or below the root. */
  lemma StaysBelow(s: string, r: string)
    requires r != "" && NotSpace(r[0]) && NotSpace(r[|r| - 1]) && (r == "/" || r[|r| - 1] != '/')
    requires s == r || Below(s, r)
    ensures AtOrBelow(Normalize(s), r)
  {
    assert r <= s && s[0] == r[0] && s[|r| - 1] == r[|r| - 1];
    NormalizeCuts(s);
    var n := Normalize(s);
    if r == "/" {
      if n != "/" {
        assert s != "/" && s[1] == '/';
        assert |n| > 2;
      }
    } else if n != r {
      assert |n| > |r| && n[..|r| + 1] == s[..|r| + 1];
    }
  }

  /** What a registration may give as its relative path. */
  predicate ValidRelative(p: string) {
    p != "" && '\0' !in p && p[0] != '/' && ".." !in SplitOn(p, '/')
  }

  lemma TargetIsBelowItsRoot(root: string, relative: string)
    requires NotSpace(Normalize(root)[|Normalize(root)| - 1])
    ensures IsWithin(Target(root, relative), root)
  {
    var r := Normalize(root);
    NormalForm(root);
    var s := r + ("/" + relative);
    assert Below(s, r) by {
      assert s[..|r| + 1] == r + "/";
    }
    StaysBelow(s, r);
    StaysBelow(Normalize(s), r);
  }

  /** At a root that ends in a blank, even a relative path that is only a blank leads out of it. */
  lemma BlankTargetIsOutside(root: string)
    requires IsSpace(Normalize(root)[|Normalize(root)| - 1])
    ensures ValidRelative(" ") && !IsWithin(Target(root, " "), root)
  {
    var r := Normalize(root);
    NormalForm(root);
    assert |r| > 1;
    var s := r + ("/" + " ");
    var cut := s[..|s| - 1];
    assert cut == r + "/" && cut[..|r|] == r && s[|s| - 1] == ' ';
    TrimStartCuts(s);
    assert TrimEnd(s) == TrimEnd(cut) == cut;
    assert StripSlashes(cut) == StripSlashes(r) == r;
    EndSpaceIsCut(r);
  }

  /**
   What is registered under a root lies below it, whatever valid relative path is given,
   exactly when the root's normal form does not end in a blank, as that of `/data /` does.
   */
  lemma TargetsAreBelowTheirRoot(root: string)
    ensures (forall relative: string :: ValidRelative(relative) ==> IsWithin(Target(root, relative), root))
       <==> NotSpace(Normalize(root)[|Normalize(root)| - 1])
  {
    if NotSpace(Normalize(root)[|Normalize(root)| - 1]) {
      forall relative: string
        ensures IsWithin(Target(root, relative), root)
      {
        TargetIsBelowItsRoot(root, relative);
      }
    } else {
      BlankTargetIsOutside(root);
    }
  }

  /** Under a root that does not end in a blank, a target is accepted exactly when no root that contains it is deeper. */
  lemma DeepestRootOwns(root: string, relative: string, others: seq<Other>)
    requires NotSpace(Normalize(root)[|Normalize(root)| - 1])
    ensures Accepted(root, relative, others)
       <==> forall o :: o in others && IsWithin(Target(root, relative), o.path) ==> |Normalize(o.path)| <= |Normalize(root)|
  {
    TargetIsBelowItsRoot(root, relative);
    DeepestContainerOwns(root, relative, others);
  }

  // ----- When the test by strings is right ------------------------------------------------------------

  function NonEmpty(parts: seq<string>): seq<string> {
    if parts == [] then [] else (if parts[0] == "" then [] else [parts[0]]) + NonEmpty(parts[1..])
  }

  /** The components of a path; `/` has none. */
  function Components(p: string): seq<string> {
    NonEmpty(SplitOn(Normalize(p), '/'))
  }

  predicate Absolute(p: string) {
    "/" <= Normalize(p)
  }

  /** Absolute, and without an empty component. */
  predicate Regular(p: string) {
    var n := Normalize(p);
    n == "/" || (n != "" && n[0] == '/' && "" !in SplitOn(n, '/')[1..])
  }

  lemma {:induction false} NonEmptyKeeps(parts: seq<string>)
    requires "" !in parts
    ensures NonEmpty(parts) == parts
  {
    if parts != [] {
      assert parts[0] in parts;
      NonEmptyKeeps(parts[1..]);
      assert parts == [parts[0]] + parts[1..];
    }
  }

  lemma FirstPart(s: string)
    ensures SplitOn(s, '/')[0] == "" <==> s == "" || s[0] == '/'
  {
    assert s[..0] == "";
  }

  lemma PrefixCons(x: string, a: seq<string>, b: seq<string>)
    ensures [x] + a <= [x] + b <==> a <= b
  {
    var u, v := [x] + a, [x] + b;
    if a <= b {
      assert v == u + b[|a|..];
    }
    if u <= v {
      forall i | 0 <= i < |a|
        ensures a[i] == b[i]
      {
        assert u[i + 1] == v[i + 1];
      }
    }
  }

  lemma SplitFirst(n: string)
    requires n != "" && n[0] == '/'
    ensures SplitOn(n, '/') == [""] + SplitOn(n[1..], '/')
  {
    assert n[..0] == "";
  }

  lemma SlashHasNoParts(n: string)
    requires n == "/"
    ensures NonEmpty(SplitOn(n, '/')) == []
  {
    SplitFirst(n);
    var rest := n[1..];
    assert rest == "" && SplitOn(rest, '/') == [rest];
    assert ([""] + [rest])[1..] == [rest];
    assert NonEmpty([rest]) == [];
  }

  lemma NonEmptyOfRest(all: seq<string>, parts: seq<string>)
    requires all == [""] + parts && "" !in all[1..]
    ensures NonEmpty(all) == parts && "" !in parts
  {
    assert all[1..] == parts;
    NonEmptyKeeps(parts);
  }

  lemma PartsOfNormal(n: string)
    requires n != "/" && n != "" && n[0] == '/' && "" !in SplitOn(n, '/')[1..]
    ensures var parts := NonEmpty(SplitOn(n, '/'));
            SplitOn(n, '/') == [""] + parts && parts != [] && |n| > 1 && n[1] != '/'
  {
    SplitFirst(n);
    var rest := n[1..];
    var parts := SplitOn(rest, '/');
    NonEmptyOfRest(SplitOn(n, '/'), parts);
    FirstPart(rest);
    assert parts[0] in parts;
  }

  lemma RegularParts(p: string)
    requires Regular(p)
    ensures Normalize(p) == "/" ==> Components(p) == []
    ensures Normalize(p) != "/" ==>
              && SplitOn(Normalize(p), '/') == [""] + Components(p) && Components(p) != []
              && !("//" <= Normalize(p))
  {
    if Normalize(p) == "/" {
      SlashHasNoParts(Normalize(p));
    } else {
      PartsOfNormal(Normalize(p));
    }
  }

  /** Of all paths the root `/` contains only itself and those that start with `//`. */
  lemma SlashContainsNothing(p: string, root: string)
    requires Normalize(root) == "/"
    ensures IsWithin(p, root) <==> Normalize(p) == "/" || "//" <= Normalize(p)
    ensures Relate(p, root) == Inside <==> "//" <= Normalize(p)
  {
    assert "/" + "/" == "//";
  }

  predicate EmptyLast(parts: seq<string>) {
    parts != [] && parts[|parts| - 1] == ""
  }

  predicate Open(s: string) {
    s == "" || s[|s| - 1] == '/'
  }

  lemma LastOfMore(all: seq<string>, head: string, parts: seq<string>, s: string, i: nat)
    requires parts != [] && all == [head] + parts && i < |s| && s[i] == '/'
    requires EmptyLast(parts) <==> Open(s[i + 1..])
    ensures EmptyLast(all) <==> Open(s)
  {
  }

  lemma {:induction false} LastPart(s: string)
    ensures EmptyLast(SplitOn(s, '/')) <==> Open(s)
    decreases |s|
  {
    var i := IndexOf(s, '/');
    if i < |s| {
      var rest := s[i + 1..];
      LastPart(rest);
      LastOfMore(SplitOn(s, '/'), s[..i], SplitOn(rest, '/'), s, i);
    } else {
      assert SplitOn(s, '/') == [s];
      assert s != "" ==> s[|s| - 1] in s;
    }
  }

  lemma {:induction false} PartsHaveNoSlash(s: string)
    ensures forall part :: part in SplitOn(s, '/') ==> '/' !in part
    decreases |s|
  {
    var i := IndexOf(s, '/');
    if i < |s| {
      PartsHaveNoSlash(s[i + 1..]);
    }
  }

  lemma {:induction false} NonEmptyIsExact(parts: seq<string>)
    ensures forall part :: part in NonEmpty(parts) <==> part in parts && part != ""
  {
    if parts != [] {
      NonEmptyIsExact(parts[1..]);
      assert parts == [parts[0]] + parts[1..];
    }
  }

  /** The parts of an absolute path other than `/`: an empty one first, none empty last. */
  lemma AbsoluteParts(p: string)
    requires Absolute(p) && Normalize(p) != "/"
    ensures var all := SplitOn(Normalize(p), '/'); all == [""] + all[1..] && |all| > 1 && all[|all| - 1] != ""
    ensures Components(p) != []
    ensures forall part :: part in Components(p) ==> part != "" && '/' !in part
  {
    var n := Normalize(p);
    NormalForm(p);
    SplitFirst(n);
    LastPart(n);
    PartsHaveNoSlash(n);
    NonEmptyIsExact(SplitOn(n, '/'));
    var all := SplitOn(n, '/');
    assert all[|all| - 1] in all;
  }

  /** A root with an empty component contains no path without one. */
  lemma RepeatedSlashContainsNothing(p: string, root: string)
    requires Regular(p) && Absolute(root) && !Regular(root)
    ensures !IsWithin(p, root)
  {
    var r, q := SplitOn(Normalize(root), '/'), SplitOn(Normalize(p), '/');
    AbsoluteParts(root);
    WithinIsByComponents(p, root);
    SlashParts(Normalize(p));
    var k :| 1 <= k < |r| && r[k] == "";
    assert forall i :: 1 <= i < |q| ==> q[i] == q[1..][i - 1];
  }

  lemma SlashParts(n: string)
    ensures n == "/" ==> SplitOn(n, '/') == ["", ""]
  {
    if n == "/" {
      SplitFirst(n);
      assert n[1..] == "";
    }
  }

  /**
   A path without empty components lies within a root exactly if it starts with the root's
   components, except that nothing lies within a root with an empty component, and in `/` only itself.
   */
  lemma WithinByComponents(p: string, root: string)
    requires Regular(p) && Absolute(root)
    ensures IsWithin(p, root)
       <==> Components(root) <= Components(p) && Regular(root) && (Normalize(root) == "/" ==> Normalize(p) == "/")
  {
    if Regular(root) {
      RegularWithin(p, root);
    } else {
      RepeatedSlashContainsNothing(p, root);
    }
  }

  lemma RegularWithin(p: string, root: string)
    requires Regular(p) && Regular(root)
    ensures IsWithin(p, root) <==> Components(root) <= Components(p) && (Normalize(root) == "/" ==> Normalize(p) == "/")
  {
    var a, b := Components(root), Components(p);
    RegularParts(p);
    RegularParts(root);
    WithinIsByComponents(p, root);
    if Normalize(root) == "/" {
      SlashContainsNothing(p, root);
    } else if Normalize(p) == "/" {
      assert SplitOn("/", '/') == [""] + SplitOn("", '/');
    } else {
      PrefixCons("", a, b);
    }
  }

  // The same path without its empty components; the slash at the end keeps a blank before it.
  function Clean(p: string): string {
    "/" + (Join(Components(p), "/") + "/")
  }

  lemma CleanIsNormal(joined: string)
    requires joined != "" && joined[|joined| - 1] != '/'
    ensures Normalize("/" + (joined + "/")) == "/" + joined
  {
    var s, n := "/" + (joined + "/"), "/" + joined;
    assert s == n + "/" && s[..|n|] == n && s[|s| - 1] == '/';
    assert StripSlashes(s) == StripSlashes(n) == n;
  }

  lemma CleanIsRegular(p: string)
    requires Absolute(p) && Normalize(p) != "/"
    ensures Regular(Clean(p)) && Components(Clean(p)) == Components(p) && Normalize(Clean(p)) != "/"
  {
    var parts := Components(p);
    var joined := Join(parts, "/");
    AbsoluteParts(p);
    SplitJoin(parts, '/');
    LastPart(joined);
    assert parts[|parts| - 1] in parts;
    CleanIsNormal(joined);
    var n := Normalize(Clean(p));
    assert n == "/" + joined && n[1..] == joined;
    SplitFirst(n);
    NonEmptyOfRest(SplitOn(n, '/'), parts);
  }

  /** The string test sees every path as comparing components does. */
  predicate ReadsPath(root: string, p: string) {
    IsWithin(p, root) <==> Components(root) <= Components(p)
  }

  lemma SlashMisses(root: string)
    requires Normalize(root) == "/"
    ensures Regular("/x") && !ReadsPath(root, "/x")
  {
    assert Normalize("/x") == "/x";
    SplitFirst("/x");
    assert "/x"[1..] == "x" && SplitOn("x", '/') == ["x"];
    SlashContainsNothing("/x", root);
    SlashHasNoParts(Normalize(root));
  }

  /**
   For an absolute root, the test agrees with comparing components on all paths without empty
   ones, exactly when the root has none either and is not `/`.
   */
  lemma StringTestIsRightExactly(root: string)
    requires Absolute(root)
    ensures (forall p: string :: Regular(p) ==> ReadsPath(root, p)) <==> Regular(root) && Normalize(root) != "/"
  {
    if Normalize(root) == "/" {
      SlashMisses(root);
    } else if Regular(root) {
      forall p: string | Regular(p)
        ensures ReadsPath(root, p)
      {
        RegularWithin(p, root);
      }
    } else {
      CleanIsRegular(root);
      RepeatedSlashContainsNothing(Clean(root), root);
    }
  }

  /** Parts that start with their non-empty ones and do not end in an empty one are all non-empty. */
  lemma {:induction false} NoneDropped(parts: seq<string>)
    requires parts != [] && parts[|parts| - 1] != "" && NonEmpty(parts) <= parts
    ensures "" !in parts
  {
    assert parts == [parts[0]] + parts[1..];
    var rest := parts[1..];
    NonEmptyIsExact(parts);
    assert NonEmpty(parts) != [] by {
      assert parts[|parts| - 1] in NonEmpty(parts);
    }
    assert NonEmpty(parts)[0] in NonEmpty(parts);
    if rest != [] {
      assert NonEmpty(parts) == [parts[0]] + NonEmpty(rest);
      PrefixCons(parts[0], NonEmpty(rest), rest);
      NoneDropped(rest);
    }
  }

  lemma RepeatedSlashIsLost(p: string)
    requires Absolute(p) && !Regular(p)
    ensures Regular(Clean(p)) && Normalize(Clean(p)) != "/" && !ReadsPath(Clean(p), p)
  {
    var root, all := Clean(p), SplitOn(Normalize(p), '/');
    CleanIsRegular(p);
    AbsoluteParts(p);
    RegularParts(root);
    WithinIsByComponents(p, root);
    if IsWithin(p, root) {
      PrefixCons("", Components(p), all[1..]);
      assert NonEmpty(all) == NonEmpty(all[1..]);
      NoneDropped(all[1..]);
      assert false;
    }
  }

  /** For an absolute path, all such roots judge it rightly exactly when it has no empty component itself. */
  lemma PathIsReadRightExactly(p: string)
    requires Absolute(p)
    ensures (forall root: string :: Regular(root) && Normalize(root) != "/" ==> ReadsPath(root, p)) <==> Regular(p)
  {
    if Regular(p) {
      forall root: string | Regular(root) && Normalize(root) != "/"
        ensures ReadsPath(root, p)
      {
        RegularWithin(p, root);
      }
    } else {
      RepeatedSlashIsLost(p);
    }
  }

  // ----- Targets under the root `/` ----------------------------------------------------------------

  /** A target under `/` is refused exactly for another root that starts with `//` and contains it. */
  lemma SlashRefusesExactly(root: string, relative: string, others: seq<Other>)
    requires Normalize(root) == "/"
    ensures Accepted(root, relative, others)
       <==> forall o :: o in others ==> !("//" <= Normalize(o.path) && IsWithin(Target(root, relative), o.path))
  {
    forall o | o in others
      ensures Relate(o.path, root) == Inside <==> "//" <= Normalize(o.path)
    {
      SlashContainsNothing(o.path, root);
    }
  }

  lemma OneRefuses(o: Other, relative: string, target: string)
    requires target == Target("/", relative) && "//" <= Normalize(o.path) && IsWithin(target, o.path)
    ensures !Accepted("/", relative, [o])
  {
    assert Normalize("/") == "/";
    assert o in [o];
    SlashRefusesExactly("/", relative, [o]);
  }

  lemma TwoPartsAreValid(p: string, a: string, b: string)
    requires p == a + ("/" + b) && '/' !in a && '/' !in b && a != "" && a != ".." && b != ".."
    requires '\0' !in a && '\0' !in b
    ensures ValidRelative(p)
  {
    SplitAt(p, a, '/', b);
    assert SplitOn(b, '/') == [b];
  }

  lemma WithinDoubleSlash(target: string, root: string)
    requires target == "//x/y" && root == "//x"
    ensures Normalize(root) == root && IsWithin(target, root)
  {
    assert TrimEnd(target) == target == StripSlashes(target);
    assert target[..4] == root + "/";
  }

  /** Such a case: the target is `//x/y`, because its root brings a slash of its own. */
  lemma SlashCanRefuse()
    ensures ValidRelative("x/y") && !Accepted("/", "x/y", [Other(1, "//x")])
  {
    var relative, root := "x/y", "//x";
    TwoPartsAreValid(relative, "x", "y");
    SlashTarget(relative);
    WithinDoubleSlash(Target("/", relative), root);
    OneRefuses(Other(1, root), relative, Target("/", relative));
  }

  lemma SlashTarget(relative: string)
    requires relative != "" && NotSpace(relative[|relative| - 1]) && relative[|relative| - 1] != '/'
    ensures Target("/", relative) == Normalize(Target("/", relative)) == "/" + ("/" + relative)
  {
    var s := "/" + ("/" + relative);
    assert Normalize("/") == "/";
    assert s[|s| - 1] == relative[|relative| - 1] && NotSpace(s[0]);
    assert TrimStart(s) == s == TrimEnd(s) == StripSlashes(s);
  }
}
