/**
 The serialiser under the configuration hash: JSON text with object keys sorted at
 every depth. Two values get the same text exactly when they are equal with the
 order of object keys ignored.
 */
module Canonical {
  import opened Decimal
  import opened Joining
  import opened StringOrder

  /** A finite number in plain notation: sign, whole part, fraction digits without trailing zeros. */
  datatype Number = Number(negative: bool, whole: nat, fraction: string)

  datatype Json =
    | Null
    | Bool(b: bool)
    | Num(n: Number)
    | Str(s: string)
    | Arr(items: seq<Json>)
    | Obj(fields: seq<Field>)

  /** An own property; the fields of an object are in insertion order. */
  datatype Field = Field(key: string, value: Json)

  predicate ValidNumber(n: Number) {
    && AllDigits(n.fraction)
    && (n.fraction != "" ==> n.fraction[|n.fraction| - 1] != '0')
    && (n.negative ==> n.whole != 0 || n.fraction != "")
  }

  ghost predicate DistinctKeys(fields: seq<Field>) {
    forall i, k :: 0 <= i < k < |fields| ==> fields[i].key != fields[k].key
  }

  /** Numbers are in normal form and no object has the same key twice. */
  ghost predicate WellFormed(v: Json) {
    match v
    case Num(n) => ValidNumber(n)
    case Arr(items) => forall i :: 0 <= i < |items| ==> WellFormed(items[i])
    case Obj(fields) => DistinctKeys(fields) && forall i :: 0 <= i < |fields| ==> WellFormed(fields[i].value)
    case _ => true
  }

  /** Equality with the order of object keys ignored, at every depth. */
  ghost predicate Same(v: Json, w: Json) {
    match v
    case Arr(items) =>
      w.Arr? && |items| == |w.items| && forall i :: 0 <= i < |items| ==> Same(items[i], w.items[i])
    case Obj(fields) =>
      w.Obj? && |fields| == |w.fields| &&
      forall i :: 0 <= i < |fields| ==>
        exists k :: 0 <= k < |w.fields| && fields[i].key == w.fields[k].key && Same(fields[i].value, w.fields[k].value)
    case _ => v == w
  }

  // ----- Printing -------------------------------------------------------------

  /** A property with its value already printed. */
  type Entry = Keyed<string>

  function HexDigit(d: nat): char
    requires d < 16
  {
    if d < 10 then '0' + d as char else 'a' + (d - 10) as char
  }

  /** One character of a JSON string literal, as in section 7 of RFC 8259. */
  function EscapeChar(c: char): string {
    var u := c as int;
    if c == '\"' then "\\\""
    else if c == '\\' then "\\\\"
    else if u == 8 then "\\b"
    else if u == 9 then "\\t"
    else if u == 10 then "\\n"
    else if u == 12 then "\\f"
    else if u == 13 then "\\r"
    else if u < 32 then "\\u00" + [HexDigit(u / 16), HexDigit(u % 16)]
    else [c]
  }

  function Escape(s: string): string {
    if s == "" then "" else EscapeChar(s[0]) + Escape(s[1..])
  }

  function Quote(s: string): string {
    "\"" + Escape(s) + "\""
  }

  function PrintNumber(n: Number): string {
    (if n.negative then "-" else "") + PrintNat(n.whole) + (if n.fraction == "" then "" else "." + n.fraction)
  }

  function EntryText(e: Entry): string {
    Quote(e.key) + ":" + e.value
  }

  function JoinEntries(es: seq<Entry>): string {
    if es == [] then "" else if |es| == 1 then EntryText(es[0]) else EntryText(es[0]) + "," + JoinEntries(es[1..])
  }

  function Texts(items: seq<Json>): (r: seq<string>)
    ensures |r| == |items|
    ensures forall i :: 0 <= i < |items| ==> r[i] == Canon(items[i])
  {
    if items == [] then [] else [Canon(items[0])] + Texts(items[1..])
  }

  function Entries(fields: seq<Field>): (r: seq<Entry>)
    ensures |r| == |fields|
    ensures forall i :: 0 <= i < |fields| ==> r[i] == Keyed(fields[i].key, Canon(fields[i].value))
  {
    if fields == [] then [] else [Keyed(fields[0].key, Canon(fields[0].value))] + Entries(fields[1..])
  }

  function Canon(v: Json): string {
    match v
    case Null => "null"
    case Bool(b) => if b then "true" else "false"
    case Num(n) => PrintNumber(n)
    case Str(s) => Quote(s)
    case Arr(items) => "[" + Join(Texts(items), ",") + "]"
    case Obj(fields) => "{" + JoinEntries(Sort(Entries(fields))) + "}"
  }

  // ----- Texts can be read back ---------------------------------------------------

  lemma Assoc(a: string, b: string, c: string, d: string)
    ensures a + b + c + d == a + (b + (c + d))
  {
  }

  lemma RunHead(x: string, s: string, kind: char -> bool)
    requires forall i :: 0 <= i < |x| ==> kind(x[i])
    requires s == "" || !kind(s[0])
    ensures x != "" <==> x + s != "" && kind((x + s)[0])
  {
  }

  /** Two texts made of one kind of character, each followed by another kind, end at the same place. */
  lemma {:induction false} SplitRun(x: string, y: string, s: string, t: string, kind: char -> bool)
    requires x + s == y + t
    requires forall i :: 0 <= i < |x| ==> kind(x[i])
    requires forall i :: 0 <= i < |y| ==> kind(y[i])
    requires s == "" || !kind(s[0])
    requires t == "" || !kind(t[0])
    ensures x == y && s == t
    decreases |x|
  {
    RunHead(x, s, kind);
    RunHead(y, t, kind);
    if x == "" {
      assert x + s == s && y + t == t;
    } else {
      assert (x + s)[1..] == x[1..] + s && (y + t)[1..] == y[1..] + t;
      assert x[0] == (x + s)[0] == (y + t)[0] == y[0];
      SplitRun(x[1..], y[1..], s, t, kind);
      assert x == [x[0]] + x[1..] && y == [y[0]] + y[1..];
    }
  }

  /** The part of a number's text after the sign. */
  function Unsigned(n: Number): string {
    PrintNat(n.whole) + (if n.fraction == "" then "" else "." + n.fraction)
  }

  lemma UnsignedInjective(n: Number, m: Number)
    requires Unsigned(n) == Unsigned(m)
    ensures n.whole == m.whole && n.fraction == m.fraction
  {
    var fn := if n.fraction == "" then "" else "." + n.fraction;
    var fm := if m.fraction == "" then "" else "." + m.fraction;
    SplitRun(PrintNat(n.whole), PrintNat(m.whole), fn, fm, c => IsDigit(c));
    ParsePrint(n.whole);
    ParsePrint(m.whole);
    assert n.fraction == (if fn == "" then "" else fn[1..]);
    assert m.fraction == (if fm == "" then "" else fm[1..]);
  }

  lemma SignFirst(n: Number)
    ensures PrintNumber(n) == (if n.negative then "-" else "") + Unsigned(n)
    ensures PrintNumber(n)[0] == '-' <==> n.negative
    ensures n.negative ==> PrintNumber(n)[1..] == Unsigned(n)
    ensures !n.negative ==> PrintNumber(n) == Unsigned(n)
  {
  }

  lemma PrintNumberInjective(n: Number, m: Number)
    requires PrintNumber(n) == PrintNumber(m)
    ensures n == m
  {
    SignFirst(n);
    SignFirst(m);
    UnsignedInjective(n, m);
  }

  predicate NumberChar(c: char) {
    IsDigit(c) || c == '-' || c == '.'
  }

  lemma NumberChars(n: Number)
    requires ValidNumber(n)
    ensures PrintNumber(n) != "" && forall i :: 0 <= i < |PrintNumber(n)| ==> NumberChar(PrintNumber(n)[i])
  {
  }

  /** The escape of one character tells which character it was. */
  lemma EscapeCharDecodes(c: char, d: char, u: string, v: string)
    requires EscapeChar(c) + u == EscapeChar(d) + v
    ensures c == d && u == v
  {
    var ec, ed := EscapeChar(c), EscapeChar(d);
    var whole := ec + u;
    assert whole[0] == ec[0] == ed[0];
    if ec[0] == '\\' {
      assert whole[1] == ec[1] == ed[1];
      if ec[1] == 'u' {
        assert whole[4] == ec[4] == ed[4];
        assert whole[5] == ec[5] == ed[5];
        assert c == d;
      } else {
        assert c == d;
      }
    } else {
      assert c == d;
    }
    assert whole[|ec|..] == u && (ed + v)[|ed|..] == v;
  }

  lemma EscapeStep(x: string, s: string)
    ensures (Escape(x) + "\"" + s)[0] == '\"' <==> x == ""
    ensures x == "" ==> (Escape(x) + "\"" + s)[1..] == s
    ensures x != "" ==> Escape(x) + "\"" + s == EscapeChar(x[0]) + (Escape(x[1..]) + "\"" + s)
  {
    if x != "" {
      Assoc(EscapeChar(x[0]), Escape(x[1..]), "\"", s);
      assert Escape(x[1..]) + ("\"" + s) == Escape(x[1..]) + "\"" + s;
      assert EscapeChar(x[0])[0] != '\"';
    }
  }

  lemma {:induction false} EscapeDecodes(x: string, y: string, s: string, t: string)
    requires Escape(x) + "\"" + s == Escape(y) + "\"" + t
    ensures x == y && s == t
    decreases |x|
  {
    EscapeStep(x, s);
    EscapeStep(y, t);
    if x != "" {
      EscapeCharDecodes(x[0], y[0], Escape(x[1..]) + "\"" + s, Escape(y[1..]) + "\"" + t);
      EscapeDecodes(x[1..], y[1..], s, t);
      assert x == [x[0]] + x[1..] && y == [y[0]] + y[1..];
    }
  }

  lemma QuoteDecodes(x: string, y: string, s: string, t: string)
    requires Quote(x) + s == Quote(y) + t
    ensures x == y && s == t
  {
    assert (Quote(x) + s)[1..] == Escape(x) + "\"" + s;
    assert (Quote(y) + t)[1..] == Escape(y) + "\"" + t;
    EscapeDecodes(x, y, s, t);
  }

  /** What may follow a value inside a text. */
  predicate Ends(s: string) {
    s == "" || s[0] == ',' || s[0] == ']' || s[0] == '}'
  }

  /** The first character of a text names the kind of value. */
  function Kind(c: char): nat {
    if c == 'n' then 0 else if c == 't' then 1 else if c == 'f' then 2 else if c == '\"' then 3
    else if c == '[' then 4 else if c == '{' then 5 else if NumberChar(c) then 6 else 7
  }

  function KindOf(v: Json): nat {
    match v
    case Null => 0
    case Bool(b) => if b then 1 else 2
    case Str(_) => 3
    case Arr(_) => 4
    case Obj(_) => 5
    case Num(_) => 6
  }

  lemma FirstChar(v: Json)
    requires WellFormed(v)
    ensures Canon(v) != "" && Kind(Canon(v)[0]) == KindOf(v)
  {
    if v.Num? {
      NumberChars(v.n);
    }
  }

  lemma SameKind(v: Json, w: Json, s: string, t: string)
    requires WellFormed(v) && WellFormed(w) && Canon(v) + s == Canon(w) + t
    ensures KindOf(v) == KindOf(w)
  {
    FirstChar(v);
    FirstChar(w);
    assert (Canon(v) + s)[0] == Canon(v)[0] && (Canon(w) + t)[0] == Canon(w)[0];
  }

  /** A value's text, followed by what may follow it, determines the value and what followed. */
  lemma {:induction false} Decodes(v: Json, w: Json, s: string, t: string)
    requires WellFormed(v) && WellFormed(w) && Ends(s) && Ends(t)
    requires Canon(v) + s == Canon(w) + t
    ensures Same(v, w) && s == t
    decreases v, 1, 0
  {
    SameKind(v, w, s, t);
    match v
    case Null => assert (Canon(v) + s)[4..] == s && (Canon(w) + t)[4..] == t;
    case Bool(b) => assert (Canon(v) + s)[|Canon(v)|..] == s && (Canon(w) + t)[|Canon(v)|..] == t;
    case Num(n) =>
      NumberChars(n);
      NumberChars(w.n);
      SplitRun(PrintNumber(n), PrintNumber(w.n), s, t, c => NumberChar(c));
      PrintNumberInjective(n, w.n);
    case Str(x) => QuoteDecodes(x, w.s, s, t);
    case Arr(items) =>
      ArrayTail(items, s);
      ArrayTail(w.items, t);
      ItemsDecode(v, w, 0, Texts(items)[0..], Texts(w.items)[0..], s, t);
    case Obj(fields) =>
      ObjectDecodes(v, w, s, t);
  }

  lemma OpenTail(open: string, a: string, close: string, s: string)
    requires |open| == 1
    ensures (open + a + close + s)[1..] == a + close + s
  {
  }

  lemma ArrayTail(items: seq<Json>, s: string)
    ensures (Canon(Arr(items)) + s)[1..] == ItemsThen(Texts(items)[0..], s)
  {
    assert Texts(items)[0..] == Texts(items);
    OpenTail("[", Join(Texts(items), ","), "]", s);
  }

  /** What is left to read of an array. */
  function ItemsThen(ts: seq<string>, s: string): string {
    Join(ts, ",") + "]" + s
  }

  /** After the first item comes either the closing bracket or a comma and the next item. */
  function AfterItem(ts: seq<string>, s: string): string
    requires ts != []
  {
    if |ts| == 1 then "]" + s else "," + ItemsThen(ts[1..], s)
  }

  lemma ItemsUnfold(ts: seq<string>, s: string)
    requires ts != []
    ensures ItemsThen(ts, s) == ts[0] + AfterItem(ts, s)
  {
    if |ts| > 1 {
      Assoc(ts[0] + ",", Join(ts[1..], ","), "]", s);
      Assoc(ts[0], ",", Join(ts[1..], ","), "]" + s);
    }
  }

  lemma ItemsHead(ts: seq<string>, s: string)
    requires ts != [] ==> ts[0] != "" && ts[0][0] != ']'
    ensures ItemsThen(ts, s) != ""
    ensures ItemsThen(ts, s)[0] == ']' <==> ts == []
    ensures ts == [] ==> ItemsThen(ts, s)[1..] == s
  {
    if ts != [] {
      ItemsUnfold(ts, s);
    }
  }

  lemma AfterItemRest(ts: seq<string>, us: seq<string>, s: string, t: string)
    requires ts != [] && us != [] && AfterItem(ts, s) == AfterItem(us, t)
    ensures |ts| == 1 <==> |us| == 1
    ensures |ts| == 1 ==> s == t
    ensures |ts| > 1 ==> ItemsThen(ts[1..], s) == ItemsThen(us[1..], t)
  {
    var x, y := AfterItem(ts, s), AfterItem(us, t);
    assert x[0] == y[0];
    assert x[1..] == y[1..];
    assert x[1..] == if |ts| == 1 then s else ItemsThen(ts[1..], s);
    assert y[1..] == if |us| == 1 then t else ItemsThen(us[1..], t);
  }

  lemma ItemsEnd(ts: seq<string>, us: seq<string>, s: string, t: string)
    requires ts != [] ==> ts[0] != "" && ts[0][0] != ']'
    requires us != [] ==> us[0] != "" && us[0][0] != ']'
    requires ItemsThen(ts, s) == ItemsThen(us, t)
    ensures ts == [] <==> us == []
    ensures ts == [] ==> s == t
  {
    ItemsHead(ts, s);
    ItemsHead(us, t);
  }

  lemma DropOne<T>(s: seq<T>, i: nat)
    requires i < |s|
    ensures s[i..][0] == s[i] && s[i..][1..] == s[i + 1..]
  {
  }

  lemma {:induction false} FirstItem(v: Json, w: Json, i: nat, ts: seq<string>, us: seq<string>, s: string, t: string)
    requires v.Arr? && w.Arr? && WellFormed(v) && WellFormed(w) && i < |v.items| && i < |w.items|
    requires ts != [] && us != [] && ts[0] == Canon(v.items[i]) && us[0] == Canon(w.items[i])
    requires ItemsThen(ts, s) == ItemsThen(us, t)
    ensures Same(v.items[i], w.items[i]) && AfterItem(ts, s) == AfterItem(us, t)
    decreases v, 0, 0
  {
    ItemsUnfold(ts, s);
    ItemsUnfold(us, t);
    Decodes(v.items[i], w.items[i], AfterItem(ts, s), AfterItem(us, t));
  }

  lemma ItemStarts(items: seq<Json>, i: nat)
    requires WellFormed(Arr(items)) && i < |items|
    ensures Canon(items[i]) != "" && Canon(items[i])[0] != ']'
  {
    FirstChar(items[i]);
  }

  lemma ItemsEndTogether(v: Json, w: Json, i: nat, ts: seq<string>, us: seq<string>, s: string, t: string)
    requires v.Arr? && w.Arr? && WellFormed(v) && WellFormed(w) && i <= |v.items| && i <= |w.items|
    requires ts == Texts(v.items)[i..] && us == Texts(w.items)[i..]
    requires ItemsThen(ts, s) == ItemsThen(us, t)
    ensures i == |v.items| <==> i == |w.items|
    ensures i == |v.items| ==> s == t
  {
    if i < |v.items| {
      ItemStarts(v.items, i);
    }
    if i < |w.items| {
      ItemStarts(w.items, i);
    }
    ItemsEnd(ts, us, s, t);
  }

  lemma {:induction false} ItemsDecode(v: Json, w: Json, i: nat, ts: seq<string>, us: seq<string>, s: string, t: string)
    requires v.Arr? && w.Arr? && WellFormed(v) && WellFormed(w) && i <= |v.items| && i <= |w.items|
    requires ts == Texts(v.items)[i..] && us == Texts(w.items)[i..]
    requires ItemsThen(ts, s) == ItemsThen(us, t)
    ensures |v.items| == |w.items| && s == t
    ensures forall k :: i <= k < |v.items| ==> Same(v.items[k], w.items[k])
    decreases v, 0, |v.items| - i + 1
  {
    ItemsEndTogether(v, w, i, ts, us, s, t);
    if i < |v.items| {
      FirstItem(v, w, i, ts, us, s, t);
      AfterItemRest(ts, us, s, t);
      if i + 1 < |v.items| {
        DropOne(Texts(v.items), i);
        DropOne(Texts(w.items), i);
        ItemsDecode(v, w, i + 1, ts[1..], us[1..], s, t);
      }
    }
  }

  // ----- Objects -----------------------------------------------------------------

  /** Every entry is the printed form of a field. */
  ghost predicate PrintedFrom(es: seq<Entry>, fields: seq<Field>) {
    forall e :: e in es ==> exists i :: 0 <= i < |fields| && e == Keyed(fields[i].key, Canon(fields[i].value))
  }

  ghost predicate Matching(e: Entry, f: seq<Field>, g: seq<Field>) {
    exists i, k :: 0 <= i < |f| && 0 <= k < |g| && f[i].key == e.key == g[k].key && Same(f[i].value, g[k].value)
  }

  /** What is left to read of an object. */
  function EntriesThen(es: seq<Entry>, s: string): string {
    JoinEntries(es) + "}" + s
  }

  /** After the first entry comes either the closing brace or a comma and the next entry. */
  function AfterEntry(es: seq<Entry>, s: string): string
    requires es != []
  {
    if |es| == 1 then "}" + s else "," + EntriesThen(es[1..], s)
  }

  lemma EntryTextThen(e: Entry, rest: string)
    ensures EntryText(e) + rest == Quote(e.key) + (":" + (e.value + rest))
  {
    Assoc(Quote(e.key), ":", e.value, rest);
  }

  lemma EntryUnfold(es: seq<Entry>, s: string)
    requires es != []
    ensures EntriesThen(es, s) == Quote(es[0].key) + (":" + (es[0].value + AfterEntry(es, s)))
  {
    EntryTextThen(es[0], AfterEntry(es, s));
    if |es| == 1 {
      assert EntriesThen(es, s) == EntryText(es[0]) + AfterEntry(es, s);
    } else {
      Assoc(EntryText(es[0]) + ",", JoinEntries(es[1..]), "}", s);
      assert EntriesThen(es, s) == EntryText(es[0]) + AfterEntry(es, s);
    }
  }

  lemma EntryHead(es: seq<Entry>, s: string)
    ensures EntriesThen(es, s) != ""
    ensures EntriesThen(es, s)[0] == '}' <==> es == []
    ensures es == [] ==> EntriesThen(es, s)[1..] == s
  {
    if es != [] {
      EntryUnfold(es, s);
    }
  }

  /** The first entries of two equal texts agree in key and value, and the rests are equal. */
  lemma EntryKeys(es: seq<Entry>, fs: seq<Entry>, s: string, t: string)
    requires EntriesThen(es, s) == EntriesThen(fs, t)
    ensures es == [] <==> fs == []
    ensures es == [] ==> s == t
    ensures es != [] ==> es[0].key == fs[0].key && es[0].value + AfterEntry(es, s) == fs[0].value + AfterEntry(fs, t)
  {
    EntryHead(es, s);
    EntryHead(fs, t);
    if es != [] {
      EntryUnfold(es, s);
      EntryUnfold(fs, t);
      var x, y := ":" + (es[0].value + AfterEntry(es, s)), ":" + (fs[0].value + AfterEntry(fs, t));
      QuoteDecodes(es[0].key, fs[0].key, x, y);
      assert x[1..] == es[0].value + AfterEntry(es, s) && y[1..] == fs[0].value + AfterEntry(fs, t);
    }
  }

  lemma AfterEntryRest(es: seq<Entry>, fs: seq<Entry>, s: string, t: string)
    requires es != [] && fs != [] && AfterEntry(es, s) == AfterEntry(fs, t)
    ensures |es| == 1 <==> |fs| == 1
    ensures |es| == 1 ==> s == t
    ensures |es| > 1 ==> EntriesThen(es[1..], s) == EntriesThen(fs[1..], t)
  {
    var x, y := AfterEntry(es, s), AfterEntry(fs, t);
    assert x[0] == y[0];
    assert x[1..] == y[1..];
    assert x[1..] == if |es| == 1 then s else EntriesThen(es[1..], s);
    assert y[1..] == if |fs| == 1 then t else EntriesThen(fs[1..], t);
  }

  lemma {:induction false} EntriesDecode(v: Json, w: Json, es: seq<Entry>, fs: seq<Entry>, s: string, t: string)
    requires v.Obj? && w.Obj? && WellFormed(v) && WellFormed(w)
    requires PrintedFrom(es, v.fields) && PrintedFrom(fs, w.fields)
    requires EntriesThen(es, s) == EntriesThen(fs, t)
    ensures |es| == |fs| && s == t
    ensures forall k :: 0 <= k < |es| ==> es[k].key == fs[k].key && Matching(es[k], v.fields, w.fields)
    decreases v, 0, |es|
  {
    EntryKeys(es, fs, s, t);
    if es != [] {
      FirstEntry(v, w, es, fs, s, t);
      AfterEntryRest(es, fs, s, t);
      if |es| > 1 {
        PrintedTail(es, v.fields);
        PrintedTail(fs, w.fields);
        EntriesDecode(v, w, es[1..], fs[1..], s, t);
        forall k | 0 <= k < |es|
          ensures es[k].key == fs[k].key && Matching(es[k], v.fields, w.fields)
        {
          assert k > 0 ==> es[k] == es[1..][k - 1] && fs[k] == fs[1..][k - 1];
        }
      }
    }
  }

  lemma PrintedTail(es: seq<Entry>, fields: seq<Field>)
    requires es != [] && PrintedFrom(es, fields)
    ensures PrintedFrom(es[1..], fields)
  {
    forall e | e in es[1..]
      ensures exists i :: 0 <= i < |fields| && e == Keyed(fields[i].key, Canon(fields[i].value))
    {
      assert e in es;
    }
  }

  lemma {:induction false} FirstEntry(v: Json, w: Json, es: seq<Entry>, fs: seq<Entry>, s: string, t: string)
    requires v.Obj? && w.Obj? && WellFormed(v) && WellFormed(w) && es != [] && fs != []
    requires PrintedFrom(es, v.fields) && PrintedFrom(fs, w.fields)
    requires es[0].key == fs[0].key && es[0].value + AfterEntry(es, s) == fs[0].value + AfterEntry(fs, t)
    ensures Matching(es[0], v.fields, w.fields) && AfterEntry(es, s) == AfterEntry(fs, t)
    decreases v, 0, 0
  {
    assert es[0] in es && fs[0] in fs;
    var i :| 0 <= i < |v.fields| && es[0] == Keyed(v.fields[i].key, Canon(v.fields[i].value));
    var k :| 0 <= k < |w.fields| && fs[0] == Keyed(w.fields[k].key, Canon(w.fields[k].value));
    Decodes(v.fields[i].value, w.fields[k].value, AfterEntry(es, s), AfterEntry(fs, t));
  }

  lemma SortedEntries(fields: seq<Field>)
    requires DistinctKeys(fields)
    ensures var es := Sort(Entries(fields));
            && PrintedFrom(es, fields) && |es| == |fields| && Ascending(es)
            && forall i :: 0 <= i < |fields| ==> Keyed(fields[i].key, Canon(fields[i].value)) in es
  {
    var raw := Entries(fields);
    SortKeeps(raw);
    var es := Sort(raw);
    forall e | e in es
      ensures exists i :: 0 <= i < |fields| && e == Keyed(fields[i].key, Canon(fields[i].value))
    {
      var i :| 0 <= i < |raw| && raw[i] == e;
    }
    forall i | 0 <= i < |fields|
      ensures Keyed(fields[i].key, Canon(fields[i].value)) in es
    {
      assert raw[i] in raw;
    }
  }

  lemma ObjectTail(fields: seq<Field>, s: string)
    ensures (Canon(Obj(fields)) + s)[1..] == EntriesThen(Sort(Entries(fields)), s)
  {
    OpenTail("{", JoinEntries(Sort(Entries(fields))), "}", s);
  }

  /** The sorted entries of an object: every field is among them. */
  lemma FieldsMatched(f: seq<Field>, g: seq<Field>, es: seq<Entry>, i: nat)
    requires i < |f| && Keyed(f[i].key, Canon(f[i].value)) in es && DistinctKeys(f)
    requires forall k :: 0 <= k < |es| ==> Matching(es[k], f, g)
    ensures exists k :: 0 <= k < |g| && f[i].key == g[k].key && Same(f[i].value, g[k].value)
  {
    var n :| 0 <= n < |es| && es[n] == Keyed(f[i].key, Canon(f[i].value));
    assert Matching(es[n], f, g);
  }

  lemma ObjectEntries(v: Json, w: Json, s: string, t: string)
    requires v.Obj? && w.Obj? && Canon(v) + s == Canon(w) + t
    ensures EntriesThen(Sort(Entries(v.fields)), s) == EntriesThen(Sort(Entries(w.fields)), t)
  {
    ObjectTail(v.fields, s);
    ObjectTail(w.fields, t);
  }

  lemma ObjectDecodes(v: Json, w: Json, s: string, t: string)
    requires v.Obj? && w.Obj? && WellFormed(v) && WellFormed(w)
    requires Canon(v) + s == Canon(w) + t
    ensures Same(v, w) && s == t
    decreases v, 0, |v.fields| + 1
  {
    var es, fs := Sort(Entries(v.fields)), Sort(Entries(w.fields));
    ObjectEntries(v, w, s, t);
    SortedEntries(v.fields);
    SortedEntries(w.fields);
    EntriesDecode(v, w, es, fs, s, t);
    forall i | 0 <= i < |v.fields|
      ensures exists k :: 0 <= k < |w.fields| && v.fields[i].key == w.fields[k].key && Same(v.fields[i].value, w.fields[k].value)
    {
      FieldsMatched(v.fields, w.fields, es, i);
    }
  }

  // ----- Equal values have equal texts -----------------------------------------------

  lemma {:induction false} SameTexts(v: Json, w: Json)
    requires WellFormed(v) && WellFormed(w) && Same(v, w)
    ensures Canon(v) == Canon(w)
    decreases v
  {
    match v
    case Arr(items) =>
      forall i | 0 <= i < |items|
        ensures Canon(items[i]) == Canon(w.items[i])
      {
        SameTexts(items[i], w.items[i]);
      }
      assert Texts(items) == Texts(w.items);
    case Obj(fields) =>
      forall i | 0 <= i < |fields|
        ensures Keyed(fields[i].key, Canon(fields[i].value)) in Entries(w.fields)
      {
        var k :| 0 <= k < |w.fields| && fields[i].key == w.fields[k].key && Same(fields[i].value, w.fields[k].value);
        SameTexts(fields[i].value, w.fields[k].value);
        assert Entries(w.fields)[k] == Keyed(fields[i].key, Canon(fields[i].value));
      }
      SortIgnoresOrder(Entries(fields), Entries(w.fields));
    case _ =>
  }

  /** The text is the same exactly when the values are equal with key order ignored, at every depth. */
  lemma CanonicalIsInjective(v: Json, w: Json)
    requires WellFormed(v) && WellFormed(w)
    ensures Canon(v) == Canon(w) <==> Same(v, w)
  {
    if Canon(v) == Canon(w) {
      assert Canon(v) + "" == Canon(w) + "";
      Decodes(v, w, "", "");
    }
    if Same(v, w) {
      SameTexts(v, w);
    }
  }

  // ----- What the text looks like -------------------------------------------------------

  /** How a character stands in a string: five short escapes, four hexadecimal digits for other controls, itself else. */
  lemma EscapesAre(c: char)
    ensures c as int >= 32 && c !in {'\"', '\\'} ==> EscapeChar(c) == [c]
    ensures c in {'\"', '\\'} ==> EscapeChar(c) == ['\\', c]
    ensures c as int in {8, 9, 10, 12, 13} ==>
              EscapeChar(c) == ['\\', if c as int == 8 then 'b' else if c as int == 9 then 't' else if c as int == 10 then 'n'
                                       else if c as int == 12 then 'f' else 'r']
    ensures c as int < 32 && c as int !in {8, 9, 10, 12, 13} ==>
              && |EscapeChar(c)| == 6 && EscapeChar(c)[..5] == "\\u00" + (if c as int < 16 then "0" else "1")
              && EscapeChar(c)[5] == "0123456789abcdef"[c as int % 16]
  {
    if c as int < 32 && c as int !in {8, 9, 10, 12, 13} {
      var u := c as int;
      var digits := [HexDigit(u / 16), HexDigit(u % 16)];
      assert EscapeChar(c) == "\\u00" + digits;
      assert u / 16 == if u < 16 then 0 else 1;
      HexDigitIs(u % 16);
    }
  }

  lemma HexDigitIs(d: nat)
    requires d < 16
    ensures HexDigit(d) == "0123456789abcdef"[d]
  {
  }

  /** The members of an object in the order of their keys. */
  ghost predicate IsMembers(fields: seq<Field>, es: seq<Entry>) {
    && Ascending(es) && |es| == |fields|
    && forall i :: 0 <= i < |fields| ==> Keyed(fields[i].key, Canon(fields[i].value)) in es
  }

  function MemberTexts(es: seq<Entry>): (r: seq<string>)
    ensures |r| == |es| && forall i :: 0 <= i < |es| ==> r[i] == "\"" + Escape(es[i].key) + "\":" + es[i].value
  {
    if es == [] then [] else ["\"" + Escape(es[0].key) + "\":" + es[0].value] + MemberTexts(es[1..])
  }

  lemma EntryTextIs(e: Entry)
    ensures EntryText(e) == "\"" + Escape(e.key) + "\":" + e.value
  {
    var key := "\"" + Escape(e.key);
    assert key + "\"" + ":" == key + "\":";
  }

  lemma MemberTextsStep(es: seq<Entry>)
    requires es != []
    ensures MemberTexts(es) == [EntryText(es[0])] + MemberTexts(es[1..]) && MemberTexts(es)[1..] == MemberTexts(es[1..])
  {
    EntryTextIs(es[0]);
  }

  lemma {:induction false} MembersAreJoined(es: seq<Entry>)
    ensures JoinEntries(es) == Join(MemberTexts(es), ",")
  {
    if |es| > 0 {
      MemberTextsStep(es);
    }
    if |es| > 1 {
      var head, rest := EntryText(es[0]), Join(MemberTexts(es[1..]), ",");
      MembersAreJoined(es[1..]);
      assert head + "," + rest == head + ("," + rest);
    }
  }

  /** Literals, strings in quotes, items in brackets, and members by key in braces; no white space. */
  lemma CanonicalTextIs(v: Json)
    requires WellFormed(v)
    ensures match v
            case Null => Canon(v) == "null"
            case Bool(b) => Canon(v) == if b then "true" else "false"
            case Str(s) => Canon(v) == "\"" + Escape(s) + "\""
            case Num(n) =>
              Canon(v) == (if n.negative then "-" else "") + PrintNat(n.whole) + (if n.fraction == "" then "" else "." + n.fraction)
            case Arr(items) =>
              exists texts :: && |texts| == |items| && (forall i :: 0 <= i < |items| ==> texts[i] == Canon(items[i]))
                && Canon(v) == "[" + Join(texts, ",") + "]"
            case Obj(fields) => exists es :: IsMembers(fields, es) && Canon(v) == "{" + Join(MemberTexts(es), ",") + "}"
  {
    match v
    case Arr(items) => assert |Texts(items)| == |items|;
    case Obj(fields) =>
      var es := Sort(Entries(fields));
      SortKeeps(Entries(fields));
      MembersAreJoined(es);
      forall i | 0 <= i < |fields|
        ensures Keyed(fields[i].key, Canon(fields[i].value)) in es
      {
        assert Entries(fields)[i] in es;
      }
      assert IsMembers(fields, es);
    case _ =>
  }
}
