/** Joining pieces of text with a separator and cutting them apart again. */
module Joining {

  function Join(texts: seq<string>, separator: string): string {
    if texts == [] then "" else if |texts| == 1 then texts[0] else texts[0] + (separator + Join(texts[1..], separator))
  }

  lemma Regroup(a: string, b: string, c: string, d: string)
    ensures a + (b + (c + d)) == (a + (b + c)) + d
  {
  }

  /** Where a character first occurs, the length if it does not. */
  function IndexOf(s: string, c: char): (i: nat)
    ensures i <= |s| && c !in s[..i]
    ensures i < |s| <==> c in s
    ensures i < |s| ==> s[i] == c
  {
    if s == "" || s[0] == c then 0 else 1 + IndexOf(s[1..], c)
  }

  function SplitOn(s: string, c: char): (parts: seq<string>)
    ensures parts != []
    decreases |s|
  {
    var i := IndexOf(s, c);
    if i == |s| then [s] else [s[..i]] + SplitOn(s[i + 1..], c)
  }

  lemma {:induction false} IndexOfOver(w: string, c: char, r: string)
    requires c !in w
    ensures IndexOf(w + ([c] + r), c) == |w|
  {
    if w != "" {
      assert (w + ([c] + r))[1..] == w[1..] + ([c] + r);
      IndexOfOver(w[1..], c, r);
    }
  }

  lemma CutAt(w: string, c: char, r: string)
    requires c !in w
    ensures var s := w + ([c] + r); IndexOf(s, c) == |w| && s[..|w|] == w && s[|w| + 1..] == r && c in s
  {
    IndexOfOver(w, c, r);
    assert (w + ([c] + r))[|w|] == c;
  }

  lemma SplitAt(s: string, w: string, c: char, r: string)
    requires c !in w && s == w + ([c] + r)
    ensures SplitOn(s, c) == [w] + SplitOn(r, c)
  {
    CutAt(w, c, r);
  }

  /** Pieces without the separator come back unchanged. */
  lemma {:induction false} SplitJoin(texts: seq<string>, c: char)
    requires texts != [] && forall i :: 0 <= i < |texts| ==> c !in texts[i]
    ensures SplitOn(Join(texts, [c]), c) == texts
  {
    var s := Join(texts, [c]);
    if |texts| == 1 {
      assert IndexOf(s, c) == |s|;
    } else {
      SplitJoin(texts[1..], c);
      SplitAt(s, texts[0], c, Join(texts[1..], [c]));
    }
  }
}
