/** Argument values of a `yolo` command: how they are written and how a text is read as a value. */
module YoloValues {
  import opened Decimal
  import opened Joining
  import opened Wrappers
  import opened YoloText

  const MAX_SAFE_INTEGER := 9007199254740991

  /** An integer that is exact as a double, or any other number by the text it is written as. */
  datatype Num = Int(n: int) | Other(literal: string)

  datatype Value = Null | Bool(b: bool) | Number(num: Num) | List(nums: seq<Num>) | Str(s: string)

  // ----- Number literals ------------------------------------------------------------

  predicate Safe(n: int) {
    -MAX_SAFE_INTEGER <= n <= MAX_SAFE_INTEGER
  }

  function Unsigned(s: string): string {
    if s != "" && (s[0] == '+' || s[0] == '-') then s[1..] else s
  }

  predicate IsDigits(s: string) {
    s != "" && AllDigits(s)
  }

  /** Digits with at most one point among them. */
  predicate IsMantissa(s: string) {
    || IsDigits(s)
    || (|s| > 1 && exists d :: 0 <= d < |s| && s[d] == '.' && AllDigits(s[..d]) && AllDigits(s[d + 1..]))
  }

  predicate IsDecimal(s: string) {
    || IsMantissa(s)
    || exists e :: 0 <= e < |s| && (s[e] == 'e' || s[e] == 'E') && IsMantissa(s[..e]) && IsDigits(Unsigned(s[e + 1..]))
  }

  predicate IsHexDigit(c: char) {
    IsDigit(c) || 'a' <= c <= 'f' || 'A' <= c <= 'F'
  }

  predicate IsRadixLiteral(s: string) {
    && |s| > 2 && s[0] == '0'
    && (|| ((s[1] == 'x' || s[1] == 'X') && forall i :: 2 <= i < |s| ==> IsHexDigit(s[i]))
        || ((s[1] == 'o' || s[1] == 'O') && forall i :: 2 <= i < |s| ==> '0' <= s[i] <= '7')
        || ((s[1] == 'b' || s[1] == 'B') && forall i :: 2 <= i < |s| ==> '0' <= s[i] <= '1'))
  }

  predicate IsNumber(s: string) {
    IsDecimal(Unsigned(s)) || Unsigned(s) == "Infinity" || IsRadixLiteral(s)
  }

  function IntegerValue(s: string): int
    requires IsDigits(Unsigned(s))
  {
    if s[0] == '-' then 0 - ParseNat(Unsigned(s)) else ParseNat(Unsigned(s))
  }

  /** What converting a text to a number gives; the empty text is zero. */
  function ReadNumber(s: string): Option<Num> {
    if s == "" then Some(Int(0))
    else if IsDigits(Unsigned(s)) && Safe(IntegerValue(s)) then Some(Int(IntegerValue(s)))
    else if IsNumber(s) then Some(Other(s))
    else None
  }

  predicate Finite(n: Num) {
    n.Int? || Unsigned(n.literal) != "Infinity"
  }

  function PrintNum(n: Num): string {
    match n
    case Int(k) => if k < 0 then "-" + PrintNat(-k) else PrintNat(k)
    case Other(literal) => literal
  }

  predicate ValidNum(n: Num) {
    match n
    case Int(k) => Safe(k)
    case Other(literal) => ReadNumber(literal) == Some(n)
  }

  lemma DigitsReadBack(n: nat, s: string)
    requires Safe(n) && (s == PrintNat(n) || s == "-" + PrintNat(n))
    ensures ReadNumber(s) == Some(Int(if s[0] == '-' then 0 - n else n))
  {
    var t := PrintNat(n);
    ParsePrint(n);
    assert IsDigit(t[0]);
    assert Unsigned(s) == t;
  }

  lemma NumReadsBack(n: Num)
    requires ValidNum(n)
    ensures PrintNum(n) != "" && ReadNumber(PrintNum(n)) == Some(n)
  {
    if n.Int? {
      DigitsReadBack(if n.n < 0 then -n.n else n.n, PrintNum(n));
      assert n.n >= 0 ==> IsDigit(PrintNat(n.n)[0]);
    }
  }

  /** Characters a number literal can have. */
  predicate NumberChar(c: char) {
    IsHexDigit(c) || c in ".+-InfityxXoObB"
  }

  predicate NumberChars(s: string) {
    forall i :: 0 <= i < |s| ==> NumberChar(s[i])
  }

  lemma MantissaChars(s: string)
    requires IsMantissa(s)
    ensures NumberChars(s)
  {
    forall i | 0 <= i < |s|
      ensures NumberChar(s[i])
    {
      if !IsDigits(s) {
        var d :| 0 <= d < |s| && s[d] == '.' && AllDigits(s[..d]) && AllDigits(s[d + 1..]);
        if i < d {
          assert IsDigit(s[..d][i]);
        } else if i > d {
          assert IsDigit(s[d + 1..][i - d - 1]);
        }
      }
    }
  }

  lemma UnsignedChars(s: string)
    requires NumberChars(Unsigned(s))
    ensures NumberChars(s)
  {
    forall i | 0 <= i < |s|
      ensures NumberChar(s[i])
    {
      if Unsigned(s) != s && i > 0 {
        assert s[i] == Unsigned(s)[i - 1];
      }
    }
  }

  lemma DecimalChars(s: string)
    requires IsDecimal(s)
    ensures NumberChars(s)
  {
    if IsMantissa(s) {
      MantissaChars(s);
    } else {
      var e :| 0 <= e < |s| && (s[e] == 'e' || s[e] == 'E') && IsMantissa(s[..e]) && IsDigits(Unsigned(s[e + 1..]));
      MantissaChars(s[..e]);
      UnsignedChars(s[e + 1..]);
      forall i | 0 <= i < |s|
        ensures NumberChar(s[i])
      {
        if i < e {
          assert s[i] == s[..e][i];
        } else if i > e {
          assert s[i] == s[e + 1..][i - e - 1];
        }
      }
    }
  }

  lemma ReadNumberChars(s: string)
    requires ReadNumber(s).Some?
    ensures NumberChars(s)
  {
    if IsDecimal(Unsigned(s)) {
      DecimalChars(Unsigned(s));
      UnsignedChars(s);
    } else if Unsigned(s) == "Infinity" {
      UnsignedChars(s);
    }
  }

  // ----- Values ---------------------------------------------------------------------

  function PrintNums(ns: seq<Num>): (texts: seq<string>)
    ensures |texts| == |ns| && forall i :: 0 <= i < |ns| ==> texts[i] == PrintNum(ns[i])
  {
    seq(|ns|, i requires 0 <= i < |ns| => PrintNum(ns[i]))
  }

  /** How a value is written: Python casing for booleans and None. */
  function Format(v: Value): string {
    match v
    case Null => "None"
    case Bool(b) => if b then "True" else "False"
    case Number(n) => PrintNum(n)
    case List(ns) => Join(PrintNums(ns), ",")
    case Str(s) => s
  }

  /** All parts as finite numbers, if they all are. */
  function ReadNums(parts: seq<string>): Option<seq<Num>> {
    if parts == [] then Some([])
    else
      match (ReadNumber(parts[0]), ReadNums(parts[1..]))
      case (Some(n), Some(ns)) => if Finite(n) then Some([n] + ns) else None
      case _ => None
  }

  /** The value the text after `key=` stands for. */
  function ReadValue(key: string, s: string): Value {
    if s == "" then Str("")
    else if key == "imgsz" && ',' in s then
      match ReadNums(SplitOn(s, ','))
      case Some(ns) => List(ns)
      case None => Str(s)
    else if s == "True" || s == "true" then Bool(true)
    else if s == "False" || s == "false" then Bool(false)
    else if s == "None" || s == "null" then Null
    else
      match ReadNumber(s)
      case Some(n) => Number(n)
      case None => Str(s)
  }

  predicate ValidValue(v: Value) {
    match v
    case Number(n) => ValidNum(n)
    case List(ns) => forall i :: 0 <= i < |ns| ==> ValidNum(ns[i])
    case _ => true
  }

  predicate IsKeyword(s: string) {
    s == "True" || s == "true" || s == "False" || s == "false" || s == "None" || s == "null"
  }

  /** Which values keep their meaning under a key: only `imgsz` has lists, and a string must not look like another value. */
  predicate ReadsBack(key: string, v: Value) {
    match v
    case List(ns) => key == "imgsz" && |ns| > 1 && forall i :: 0 <= i < |ns| ==> Finite(ns[i])
    case Str(s) =>
      || s == ""
      || (if key == "imgsz" && ',' in s then ReadNums(SplitOn(s, ',')).None?
          else !IsKeyword(s) && ReadNumber(s).None?)
    case _ => true
  }

  lemma KeywordChars(s: string)
    requires IsKeyword(s)
    ensures !NumberChars(s)
  {
    assert !NumberChar(s[0]) || !NumberChar(s[1]) || !NumberChar(s[2]);
  }

  lemma NumberCharsAreClean(s: string)
    requires NumberChars(s)
    ensures Unbroken(s) && ',' !in s && !IsKeyword(s)
  {
    if IsKeyword(s) {
      KeywordChars(s);
    }
  }

  lemma PrintNumIsClean(n: Num)
    requires ValidNum(n)
    ensures var s := PrintNum(n); Unbroken(s) && ',' !in s && !IsKeyword(s)
  {
    NumReadsBack(n);
    ReadNumberChars(PrintNum(n));
    NumberCharsAreClean(PrintNum(n));
  }

  lemma NumberTextReadsBack(key: string, n: Num)
    requires ValidNum(n)
    ensures ReadValue(key, PrintNum(n)) == Number(n)
  {
    NumReadsBack(n);
    PrintNumIsClean(n);
  }

  ghost predicate AllFinite(ns: seq<Num>) {
    forall i :: 0 <= i < |ns| ==> Finite(ns[i])
  }

  lemma AllFiniteStep(ns: seq<Num>)
    requires ns != []
    ensures AllFinite(ns) <==> Finite(ns[0]) && AllFinite(ns[1..])
    ensures [ns[0]] + ns[1..] == ns
  {
    assert ns == [ns[0]] + ns[1..];
    assert forall i :: 0 < i < |ns| ==> ns[i] == ns[1..][i - 1];
  }

  lemma PrintNumsStep(ns: seq<Num>)
    requires ns != []
    ensures PrintNums(ns) == [PrintNum(ns[0])] + PrintNums(ns[1..])
  {
  }

  lemma ReadNumsStep(n: Num, text: string, texts: seq<string>)
    requires ReadNumber(text) == Some(n)
    ensures ReadNums([text] + texts)
            == if ReadNums(texts).Some? && Finite(n) then Some([n] + ReadNums(texts).value) else None
  {
    assert ([text] + texts)[1..] == texts;
  }

  lemma {:induction false} NumsReadBack(ns: seq<Num>)
    requires forall i :: 0 <= i < |ns| ==> ValidNum(ns[i])
    ensures ReadNums(PrintNums(ns)) == if AllFinite(ns) then Some(ns) else None
  {
    if ns != [] {
      NumReadsBack(ns[0]);
      NumsReadBack(ns[1..]);
      PrintNumsStep(ns);
      ReadNumsStep(ns[0], PrintNum(ns[0]), PrintNums(ns[1..]));
      AllFiniteStep(ns);
    }
  }

  lemma JoinedNums(ns: seq<Num>, s: string)
    requires |ns| > 1 && forall i :: 0 <= i < |ns| ==> ValidNum(ns[i])
    requires s == Join(PrintNums(ns), ",")
    ensures s != "" && ',' in s && SplitOn(s, ',') == PrintNums(ns)
  {
    var texts := PrintNums(ns);
    forall i | 0 <= i < |ns|
      ensures ',' !in texts[i]
    {
      PrintNumIsClean(ns[i]);
    }
    SplitJoin(texts, ',');
    CutAt(texts[0], ',', Join(texts[1..], ","));
  }

  lemma OnlyCommasMakeLists(key: string, s: string)
    requires key != "imgsz" || ',' !in s
    ensures !ReadValue(key, s).List?
  {
  }

  lemma ListReadsBack(key: string, ns: seq<Num>, s: string)
    requires forall i :: 0 <= i < |ns| ==> ValidNum(ns[i])
    requires s == Join(PrintNums(ns), ",")
    ensures ReadValue(key, s) == List(ns) <==> ReadsBack(key, List(ns))
  {
    if key != "imgsz" || |ns| <= 1 {
      if |ns| == 1 {
        PrintNumIsClean(ns[0]);
      }
      OnlyCommasMakeLists(key, s);
    } else {
      JoinedNums(ns, s);
      NumsReadBack(ns);
    }
  }

  /** Writing a value and reading it back under its key gives it again exactly when `ReadsBack` says so. */
  lemma ValueReadsBackExactly(key: string, v: Value)
    requires ValidValue(v)
    ensures ReadValue(key, Format(v)) == v <==> ReadsBack(key, v)
  {
    match v
    case Number(n) => NumberTextReadsBack(key, n);
    case List(ns) => ListReadsBack(key, ns, Format(v));
    case _ =>
  }

  lemma {:induction false} UnbrokenJoin(texts: seq<string>)
    requires forall i :: 0 <= i < |texts| ==> Unbroken(texts[i])
    ensures Unbroken(Join(texts, ","))
  {
    if |texts| > 1 {
      UnbrokenJoin(texts[1..]);
    }
  }

  /** Only strings can hold white space or `#`. */
  lemma FormatUnbroken(v: Value)
    requires ValidValue(v) && (v.Str? ==> Unbroken(v.s))
    ensures Unbroken(Format(v))
  {
    match v
    case Number(n) => PrintNumIsClean(n);
    case List(ns) =>
      forall i | 0 <= i < |ns|
        ensures Unbroken(PrintNums(ns)[i])
      {
        PrintNumIsClean(ns[i]);
      }
      UnbrokenJoin(PrintNums(ns));
    case _ =>
  }
}
