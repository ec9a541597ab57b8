/** White space as JavaScript's `\s` and `trim` have it. */
module Whitespace {

  /** What `\s` matches. */
  predicate IsSpace(c: char) {
    var u := c as int;
    || 9 <= u <= 13 || u == 0x20 || u == 0xA0 || u == 0x1680 || 0x2000 <= u <= 0x200A
    || u == 0x2028 || u == 0x2029 || u == 0x202F || u == 0x205F || u == 0x3000 || u == 0xFEFF
  }

  predicate NotSpace(c: char) {
    !IsSpace(c)
  }

  function TrimStart(s: string): string {
    if s != "" && IsSpace(s[0]) then TrimStart(s[1..]) else s
  }

  function TrimEnd(s: string): string {
    if s != "" && IsSpace(s[|s| - 1]) then TrimEnd(s[..|s| - 1]) else s
  }

  function Trim(s: string): string {
    TrimEnd(TrimStart(s))
  }

  /** The characters `\s` matches, by code point. */
  lemma SpacesAre(c: char)
    ensures IsSpace(c) <==>
              || c as int in {0x9, 0xA, 0xB, 0xC, 0xD, 0x20, 0xA0, 0x1680, 0x2028, 0x2029, 0x202F, 0x205F, 0x3000, 0xFEFF}
              || 0x2000 <= c as int <= 0x200A
  {
  }

  predicate Blank(s: string) {
    forall i :: 0 <= i < |s| ==> IsSpace(s[i])
  }

  lemma {:induction false} TrimStartIs(s: string) returns (cut: string)
    ensures s == cut + TrimStart(s) && Blank(cut) && (TrimStart(s) == "" || NotSpace(TrimStart(s)[0]))
  {
    if s != "" && IsSpace(s[0]) {
      var rest := TrimStartIs(s[1..]);
      cut := [s[0]] + rest;
    } else {
      cut := "";
    }
  }

  lemma {:induction false} TrimEndIs(s: string) returns (cut: string)
    ensures s == TrimEnd(s) + cut && Blank(cut) && (TrimEnd(s) == "" || NotSpace(TrimEnd(s)[|TrimEnd(s)| - 1]))
  {
    if s != "" && IsSpace(s[|s| - 1]) {
      var rest := TrimEndIs(s[..|s| - 1]);
      cut := rest + [s[|s| - 1]];
      assert s == s[..|s| - 1] + [s[|s| - 1]];
    } else {
      cut := "";
    }
  }

  /** Trimming cuts off exactly the white space at both ends. */
  lemma TrimIsExact(s: string) returns (before: string, after: string)
    ensures s == before + (Trim(s) + after) && Blank(before) && Blank(after)
    ensures Trim(s) == "" || (NotSpace(Trim(s)[0]) && NotSpace(Trim(s)[|Trim(s)| - 1]))
  {
    before := TrimStartIs(s);
    after := TrimEndIs(TrimStart(s));
  }
}
