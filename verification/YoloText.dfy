/**
 From the text of a `yolo` command to its tokens: line continuations and comments
 become blanks, the rest is cut at white space.
 */
module YoloText {
  import opened Whitespace

  predicate NotNewline(c: char) {
    c != '\n'
  }

  /** How many leading characters are of a kind. */
  function Run(s: string, kind: char -> bool): (n: nat)
    ensures n <= |s|
  {
    if s == "" || !kind(s[0]) then 0 else 1 + Run(s[1..], kind)
  }

  /** Just past the last newline, 0 if there is none. */
  function PastLastNewline(s: string): (n: nat)
    ensures n <= |s|
  {
    if s == "" then 0 else if s[|s| - 1] == '\n' then |s| else PastLastNewline(s[..|s| - 1])
  }

  /** A backslash, white space and a newline become one blank. */
  function JoinContinuations(s: string): string
    decreases |s|
  {
    if s == "" then ""
    else
      var n := if s[0] == '\\' then PastLastNewline(s[1..][..Run(s[1..], IsSpace)]) else 0;
      if n > 0 then " " + JoinContinuations(s[1 + n..]) else [s[0]] + JoinContinuations(s[1..])
  }

  /** From `#` to the end of the line becomes one blank. */
  function DropComments(s: string): string
    decreases |s|
  {
    if s == "" then ""
    else if s[0] == '#' then " " + DropComments(s[Run(s, NotNewline)..])
    else [s[0]] + DropComments(s[1..])
  }

  function Words(s: string): seq<string>
    decreases |s|
  {
    if s == "" then []
    else if IsSpace(s[0]) then Words(s[1..])
    else [s[..Run(s, NotSpace)]] + Words(s[Run(s, NotSpace)..])
  }

  function Tokens(cli: string): seq<string> {
    Words(DropComments(JoinContinuations(cli)))
  }

  // ----- One argument per line ---------------------------------------------------

  predicate Unbroken(s: string) {
    forall i :: 0 <= i < |s| ==> NotSpace(s[i]) && s[i] != '#'
  }

  /** A token that survives cleaning. */
  predicate Word(s: string) {
    s != "" && Unbroken(s)
  }

  /** Each line starts with a continuation of the one before it. */
  function Lines(words: seq<string>): string {
    if words == [] then "" else " \\\n  " + (words[0] + Lines(words[1..]))
  }

  /** The same lines once the continuations are gone. */
  function Spaced(words: seq<string>): string {
    if words == [] then "" else "    " + (words[0] + Spaced(words[1..]))
  }

  lemma {:induction false} RunOver(w: string, r: string, kind: char -> bool)
    requires forall i :: 0 <= i < |w| ==> kind(w[i])
    requires r == "" || !kind(r[0])
    ensures Run(w + r, kind) == |w|
  {
    if w == "" {
      assert w + r == r;
    } else {
      assert (w + r)[1..] == w[1..] + r;
      RunOver(w[1..], r, kind);
    }
  }

  /** No white space with a newline in it comes next. */
  lemma NoContinuation(s: string)
    requires s == "" || NotSpace(s[0]) || (|s| > 1 && s[0] == ' ' && s[1] == '\\')
    ensures PastLastNewline(s[..Run(s, IsSpace)]) == 0
  {
    if s != "" && s[0] == ' ' {
      assert Run(s[1..], IsSpace) == 0;
    }
  }

  lemma KeepChar(c: char, x: string)
    requires c != '\\' || PastLastNewline(x[..Run(x, IsSpace)]) == 0
    ensures JoinContinuations([c] + x) == [c] + JoinContinuations(x)
  {
    assert ([c] + x)[1..] == x;
  }

  lemma TailText(w: string, r: string)
    requires w != ""
    ensures w + r == [w[0]] + (w[1..] + r)
    ensures w[1..] == "" ==> w[1..] + r == r
    ensures w[1..] != "" ==> w[1..] + r != "" && (w[1..] + r)[0] == w[1]
  {
  }

  /** A backslash inside or at the end of a token is not a continuation. */
  lemma {:induction false} JoinOverWord(w: string, r: string)
    requires forall i :: 0 <= i < |w| ==> NotSpace(w[i])
    requires r == "" || (|r| > 1 && r[0] == ' ' && r[1] == '\\')
    ensures JoinContinuations(w + r) == w + JoinContinuations(r)
  {
    if w == "" {
      assert w + r == r;
    } else {
      JoinOverWord(w[1..], r);
      TailText(w, r);
      NoContinuation(w[1..] + r);
      KeepChar(w[0], w[1..] + r);
      var j := JoinContinuations(r);
      assert [w[0]] + (w[1..] + j) == w + j;
    }
  }

  lemma Continuation(x: string)
    requires x == "" || NotSpace(x[0])
    ensures JoinContinuations("\\" + ("\n  " + x)) == " " + JoinContinuations("  " + x)
  {
    var b := "\n  " + x;
    RunOver("\n  ", x, IsSpace);
    assert b[..3] == "\n  " && "\n  "[..2] == "\n " && "\n "[..1] == "\n";
    assert PastLastNewline(b[..3]) == 1;
    assert ("\\" + b)[1..] == b && ("\\" + b)[2..] == "  " + x;
  }

  lemma TwoBlanks(x: string, y: string)
    requires JoinContinuations(x) == y
    ensures JoinContinuations("  " + x) == "  " + y
  {
    KeepChar(' ', x);
    KeepChar(' ', " " + x);
    assert " " + (" " + x) == "  " + x && " " + (" " + y) == "  " + y;
  }

  lemma BreakText(x: string)
    ensures " \\\n  " + x == " " + ("\\" + ("\n  " + x))
    ensures "    " + x == " " + (" " + ("  " + x))
  {
  }

  lemma JoinOverBreak(x: string, y: string)
    requires x != "" && NotSpace(x[0]) && JoinContinuations(x) == y
    ensures JoinContinuations(" \\\n  " + x) == "    " + y
  {
    TwoBlanks(x, y);
    Continuation(x);
    KeepChar(' ', "\\" + ("\n  " + x));
    BreakText(x);
    BreakText(y);
  }

  lemma {:induction false} JoinLines(words: seq<string>)
    requires forall i :: 0 <= i < |words| ==> Word(words[i])
    ensures JoinContinuations(Lines(words)) == Spaced(words)
  {
    if words != [] {
      var rest := Lines(words[1..]);
      JoinLines(words[1..]);
      JoinOverWord(words[0], rest);
      JoinOverBreak(words[0] + rest, words[0] + Spaced(words[1..]));
    }
  }

  lemma {:induction false} NoComments(s: string)
    requires '#' !in s
    ensures DropComments(s) == s
  {
    if s != "" {
      NoComments(s[1..]);
      assert s == [s[0]] + s[1..];
    }
  }

  lemma {:induction false} SpacedHasNoComment(words: seq<string>)
    requires forall i :: 0 <= i < |words| ==> Word(words[i])
    ensures '#' !in Spaced(words)
  {
    if words != [] {
      SpacedHasNoComment(words[1..]);
      assert '#' !in words[0];
    }
  }

  lemma WordsOver(w: string, r: string)
    requires w != "" && forall i :: 0 <= i < |w| ==> NotSpace(w[i])
    requires r == "" || IsSpace(r[0])
    ensures Words(w + r) == [w] + Words(r)
  {
    RunOver(w, r, NotSpace);
    assert (w + r)[..|w|] == w && (w + r)[|w|..] == r;
  }

  lemma SkipBlank(x: string)
    ensures Words(" " + x) == Words(x)
  {
    assert (" " + x)[1..] == x;
  }

  lemma SkipBlanks(x: string)
    ensures Words("    " + x) == Words(x)
  {
    SkipBlank(x);
    SkipBlank(" " + x);
    SkipBlank(" " + (" " + x));
    SkipBlank(" " + (" " + (" " + x)));
    assert " " + (" " + (" " + (" " + x))) == "    " + x;
  }

  lemma {:induction false} WordsOfSpaced(words: seq<string>)
    requires forall i :: 0 <= i < |words| ==> Word(words[i])
    ensures Words(Spaced(words)) == words
  {
    if words != [] {
      var rest := Spaced(words[1..]);
      SkipBlanks(words[0] + rest);
      WordsOver(words[0], rest);
      WordsOfSpaced(words[1..]);
    }
  }

  lemma HeadWords()
    ensures Word("yolo") && Word("train") && '\\' !in "yolo"
  {
  }

  lemma HeadText(x: string)
    ensures "yolo train" + x == "yolo" + (" " + ("train" + x))
  {
  }

  lemma {:induction false} JoinOverLetters(w: string, r: string)
    requires '\\' !in w
    ensures JoinContinuations(w + r) == w + JoinContinuations(r)
  {
    if w == "" {
      assert w + r == r;
    } else {
      JoinOverLetters(w[1..], r);
      TailText(w, r);
      KeepChar(w[0], w[1..] + r);
    }
  }

  lemma JoinHead(w: string, x: string)
    requires '\\' !in w
    ensures JoinContinuations(w + (" " + x)) == w + (" " + JoinContinuations(x))
  {
    KeepChar(' ', x);
    JoinOverLetters(w, " " + x);
  }

  lemma WordsHead(w: string, x: string)
    requires Word(w)
    ensures Words(w + (" " + x)) == [w] + Words(x)
  {
    SkipBlank(x);
    WordsOver(w, " " + x);
  }

  lemma JoinWordLines(w: string, words: seq<string>)
    requires Word(w) && forall i :: 0 <= i < |words| ==> Word(words[i])
    ensures JoinContinuations(w + Lines(words)) == w + Spaced(words)
  {
    JoinLines(words);
    JoinOverWord(w, Lines(words));
  }

  lemma WordsOfLines(w: string, words: seq<string>)
    requires Word(w) && forall i :: 0 <= i < |words| ==> Word(words[i])
    ensures Words(w + Spaced(words)) == [w] + words
    ensures '#' !in w + Spaced(words)
  {
    WordsOfSpaced(words);
    WordsOver(w, Spaced(words));
    SpacedHasNoComment(words);
  }

  lemma TokensOfLines(cli: string, v: string, w: string, words: seq<string>, x: string)
    requires Word(v) && '\\' !in v && Word(w) && forall i :: 0 <= i < |words| ==> Word(words[i])
    requires x == w + Lines(words) && cli == v + (" " + x)
    ensures Tokens(cli) == [v] + ([w] + words)
  {
    var y := w + Spaced(words);
    JoinWordLines(w, words);
    JoinHead(v, x);
    WordsOfLines(w, words);
    NoComments(v + (" " + y));
    WordsHead(v, y);
  }

  /** A command printed one argument a line has exactly its own words as tokens. */
  lemma TokensOfCommand(cli: string, words: seq<string>)
    requires forall i :: 0 <= i < |words| ==> Word(words[i])
    requires cli == "yolo train" + Lines(words)
    ensures Tokens(cli) == ["yolo"] + (["train"] + words)
  {
    HeadText(Lines(words));
    HeadWords();
    TokensOfLines(cli, "yolo", "train", words, "train" + Lines(words));
  }

  // ----- Any text --------------------------------------------------------------------

  /** A comment up to the end of its line is one blank. */
  lemma {:induction false} CommentIsBlank(x: string, comment: string, y: string)
    requires '#' !in x && '\n' !in comment && (y == "" || y[0] == '\n')
    ensures DropComments(x + ("#" + (comment + y))) == x + (" " + DropComments(y))
    decreases |x|
  {
    var rest := "#" + (comment + y);
    if x == "" {
      assert rest == ("#" + comment) + y;
      RunOver("#" + comment, y, NotNewline);
      assert x + rest == rest && rest[|"#" + comment|..] == y;
    } else {
      CommentIsBlank(x[1..], comment, y);
      assert (x + rest)[1..] == x[1..] + rest;
      assert [x[0]] + (x[1..] + (" " + DropComments(y))) == x + (" " + DropComments(y));
    }
  }

  lemma {:induction false} LastNewline(w: string, v: string)
    requires '\n' !in v
    ensures PastLastNewline(w + ("\n" + v)) == |w| + 1
    decreases |v|
  {
    var s := w + ("\n" + v);
    if v != "" {
      assert s[..|s| - 1] == w + ("\n" + v[..|v| - 1]);
      LastNewline(w, v[..|v| - 1]);
    }
  }

  lemma {:induction false} NoNewline(v: string)
    requires '\n' !in v
    ensures PastLastNewline(v) == 0
    decreases |v|
  {
    if v != "" {
      NoNewline(v[..|v| - 1]);
    }
  }

  lemma BackslashBreak(b: string, n: nat)
    requires n == PastLastNewline(b[..Run(b, IsSpace)]) && n > 0
    ensures JoinContinuations("\\" + b) == " " + JoinContinuations(b[n..])
  {
    var s := "\\" + b;
    assert s[1..] == b && s[1 + n..] == b[n..];
  }

  /** A backslash and the white space after it up to its last newline are one blank. */
  lemma ContinuationIsBlank(x: string, w: string, v: string, y: string)
    requires '\\' !in x && Blank(w) && Blank(v) && '\n' !in v && (y == "" || NotSpace(y[0]))
    ensures JoinContinuations(x + ("\\" + (w + ("\n" + (v + y))))) == x + (" " + JoinContinuations(v + y))
  {
    var blanks, b := w + ("\n" + v), w + ("\n" + (v + y));
    assert b == blanks + y;
    RunOver(blanks, y, IsSpace);
    assert b[..|blanks|] == blanks && b[|w| + 1..] == v + y;
    LastNewline(w, v);
    BackslashBreak(b, |w| + 1);
    JoinOverLetters(x, "\\" + b);
  }

  /** A backslash with no newline in the white space after it stays. */
  lemma OtherBackslashStays(x: string, v: string, y: string)
    requires '\\' !in x && Blank(v) && '\n' !in v && (y == "" || NotSpace(y[0]))
    ensures JoinContinuations(x + ("\\" + (v + y))) == x + ("\\" + JoinContinuations(v + y))
  {
    RunOver(v, y, IsSpace);
    assert (v + y)[..|v|] == v;
    NoNewline(v);
    KeepChar('\\', v + y);
    JoinOverLetters(x, "\\" + (v + y));
  }

  lemma SkipSpace(c: char, y: string)
    requires IsSpace(c)
    ensures Words([c] + y) == Words(y)
  {
    assert ([c] + y)[1..] == y;
  }

  lemma WordThenSpace(w: string, c: char, y: string)
    requires w != "" && IsSpace(c) && forall i :: 0 <= i < |w| ==> NotSpace(w[i])
    ensures Words(w + ([c] + y)) == [w] + Words(y)
  {
    WordsOver(w, [c] + y);
    SkipSpace(c, y);
  }

  lemma {:induction false} RunIsOfKind(s: string, kind: char -> bool)
    ensures forall i :: 0 <= i < Run(s, kind) ==> kind(s[i])
    ensures Run(s, kind) < |s| ==> !kind(s[Run(s, kind)])
  {
    if s != "" && kind(s[0]) {
      RunIsOfKind(s[1..], kind);
    }
  }

  lemma WordsOfOne(w: string)
    requires w != "" && forall i :: 0 <= i < |w| ==> NotSpace(w[i])
    ensures Words(w) == [w]
  {
    WordsOver(w, "");
    assert w + "" == w;
  }

  lemma WordsAfter(w: string, r: string, tail: string, after: seq<string>)
    requires w != "" && forall i :: 0 <= i < |w| ==> NotSpace(w[i])
    requires r != "" && IsSpace(r[0]) && Words(r + tail) == Words(r) + after
    ensures Words((w + r) + tail) == Words(w + r) + after
  {
    WordsOver(w, r);
    WordsOver(w, r + tail);
    assert (w + r) + tail == w + (r + tail);
    assert [w] + (Words(r) + after) == ([w] + Words(r)) + after;
  }

  /** White space separates words, whatever comes before and after. */
  lemma {:induction false} WordsAreRuns(x: string, c: char, y: string)
    requires IsSpace(c)
    ensures Words(x + ([c] + y)) == Words(x) + Words(y)
    decreases |x|
  {
    if x == "" {
      assert x + ([c] + y) == [c] + y;
      SkipSpace(c, y);
    } else if IsSpace(x[0]) {
      assert (x + ([c] + y))[1..] == x[1..] + ([c] + y);
      WordsAreRuns(x[1..], c, y);
    } else {
      var n := Run(x, NotSpace);
      RunIsOfKind(x, NotSpace);
      if n == |x| {
        WordThenSpace(x, c, y);
        WordsOfOne(x);
      } else {
        assert x == x[..n] + x[n..];
        WordsAreRuns(x[n..], c, y);
        WordsAfter(x[..n], x[n..], [c] + y, Words(y));
      }
    }
  }
}
