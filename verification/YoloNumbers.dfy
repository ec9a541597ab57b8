/**
 Which argument texts are numbers, said by how a literal is put together: sign, digits,
 point, digits, exponent; or a radix prefix with its digits; or infinity.
 */
module YoloNumbers {
  import opened Decimal
  import opened Joining
  import opened Wrappers
  import opened YoloValues

  datatype Exponent = NoExponent | Exponent(mark: char, sign: string, digits: string)

  datatype Literal = Literal(sign: string, whole: string, point: bool, fraction: string, exponent: Exponent)

  predicate Sign(s: string) {
    s == "" || s == "+" || s == "-"
  }

  predicate ExponentFits(x: Exponent) {
    match x
    case NoExponent => true
    case Exponent(mark, sign, digits) => (mark == 'e' || mark == 'E') && Sign(sign) && digits != "" && AllDigits(digits)
  }

  /** Digits before or after the point; no fraction without it; digits in the exponent. */
  predicate WellFormed(l: Literal) {
    && Sign(l.sign) && AllDigits(l.whole) && AllDigits(l.fraction)
    && (l.whole != "" || l.fraction != "") && (!l.point ==> l.fraction == "")
    && ExponentFits(l.exponent)
  }

  function MantissaText(whole: string, point: bool, fraction: string): string {
    whole + if point then "." + fraction else ""
  }

  function ExponentText(x: Exponent): string {
    match x
    case NoExponent => ""
    case Exponent(mark, sign, digits) => [mark] + (sign + digits)
  }

  function LiteralText(l: Literal): string {
    l.sign + (MantissaText(l.whole, l.point, l.fraction) + ExponentText(l.exponent))
  }

  /** A prefix and digits of its base. */
  predicate RadixForm(s: string) {
    && |s| > 2 && s[0] == '0'
    && match s[1]
       case 'x' => forall i :: 2 <= i < |s| ==> s[i] in "0123456789abcdefABCDEF"
       case 'X' => forall i :: 2 <= i < |s| ==> s[i] in "0123456789abcdefABCDEF"
       case 'o' => forall i :: 2 <= i < |s| ==> s[i] in "01234567"
       case 'O' => forall i :: 2 <= i < |s| ==> s[i] in "01234567"
       case 'b' => forall i :: 2 <= i < |s| ==> s[i] in "01"
       case 'B' => forall i :: 2 <= i < |s| ==> s[i] in "01"
       case _ => false
  }

  predicate InfinityForm(s: string) {
    s == "Infinity" || s == "+Infinity" || s == "-Infinity"
  }

  ghost predicate DecimalForm(s: string) {
    exists l: Literal :: WellFormed(l) && s == LiteralText(l)
  }

  // ----- Written, then read ----------------------------------------------------------------

  lemma UnsignedText(sign: string, t: string)
    requires Sign(sign) && t != "" && t[0] != '+' && t[0] != '-'
    ensures Unsigned(sign + t) == t
  {
    assert sign == "" ==> sign + t == t;
    assert sign != "" ==> (sign + t)[1..] == t;
  }

  lemma MantissaIsRead(whole: string, point: bool, fraction: string)
    requires AllDigits(whole) && AllDigits(fraction) && (whole != "" || fraction != "") && (!point ==> fraction == "")
    ensures var m := MantissaText(whole, point, fraction); IsMantissa(m) && (IsDigit(m[0]) || m[0] == '.')
  {
    var m := MantissaText(whole, point, fraction);
    if point {
      assert m == whole + ("." + fraction);
      var d := |whole|;
      assert m[d] == '.' && m[..d] == whole && m[d + 1..] == fraction;
    } else {
      assert m == whole;
    }
  }

  lemma ExponentIsRead(m: string, x: Exponent)
    requires IsMantissa(m) && x.Exponent? && (x.mark == 'e' || x.mark == 'E')
    requires Sign(x.sign) && x.digits != "" && AllDigits(x.digits)
    ensures IsDecimal(m + ExponentText(x))
  {
    var s, e, tail := m + ExponentText(x), |m|, x.sign + x.digits;
    assert ExponentText(x) == [x.mark] + tail;
    assert s[e] == x.mark && s[..e] == m && s[e + 1..] == tail;
    assert IsDigit(x.digits[0]);
    UnsignedText(x.sign, x.digits);
  }

  lemma DecimalIsRead(l: Literal)
    requires WellFormed(l)
    ensures LiteralText(l) != "" && IsNumber(LiteralText(l))
  {
    var m := MantissaText(l.whole, l.point, l.fraction);
    MantissaIsRead(l.whole, l.point, l.fraction);
    var t := m + ExponentText(l.exponent);
    assert t[0] == m[0];
    if l.exponent.Exponent? {
      ExponentIsRead(m, l.exponent);
    } else {
      assert t == m;
    }
    UnsignedText(l.sign, t);
  }

  // ----- Read, then taken apart ----------------------------------------------------------------

  function SignOf(s: string): string {
    if s != "" && (s[0] == '+' || s[0] == '-') then [s[0]] else ""
  }

  lemma SignAndRest(s: string)
    ensures s == SignOf(s) + Unsigned(s) && Sign(SignOf(s))
  {
  }

  lemma MantissaParts(m: string) returns (whole: string, point: bool, fraction: string)
    requires IsMantissa(m)
    ensures AllDigits(whole) && AllDigits(fraction) && (whole != "" || fraction != "") && (!point ==> fraction == "")
    ensures m == MantissaText(whole, point, fraction)
  {
    if IsDigits(m) {
      whole, point, fraction := m, false, "";
      assert m + "" == m;
    } else {
      var d :| 0 <= d < |m| && m[d] == '.' && AllDigits(m[..d]) && AllDigits(m[d + 1..]);
      whole, point, fraction := m[..d], true, m[d + 1..];
      assert |m| == |whole| + 1 + |fraction|;
      CutText(m, d);
    }
  }

  lemma CutText(m: string, d: nat)
    requires d < |m| && m[d] == '.'
    ensures m == m[..d] + ("." + m[d + 1..])
  {
  }

  lemma CutExponent(t: string, e: nat)
    requires e < |t|
    ensures t == t[..e] + ([t[e]] + t[e + 1..])
  {
  }

  lemma ExponentOf(mark: char, tail: string) returns (x: Exponent)
    requires (mark == 'e' || mark == 'E') && IsDigits(Unsigned(tail))
    ensures ExponentFits(x) && ExponentText(x) == [mark] + tail
  {
    SignAndRest(tail);
    x := Exponent(mark, SignOf(tail), Unsigned(tail));
  }

  lemma ExponentParts(t: string) returns (m: string, x: Exponent)
    requires IsDecimal(t)
    ensures IsMantissa(m) && ExponentFits(x)
    ensures t == m + ExponentText(x)
  {
    if IsMantissa(t) {
      m, x := t, NoExponent;
      assert t + "" == t;
    } else {
      var e :| 0 <= e < |t| && (t[e] == 'e' || t[e] == 'E') && IsMantissa(t[..e]) && IsDigits(Unsigned(t[e + 1..]));
      m := t[..e];
      x := ExponentOf(t[e], t[e + 1..]);
      CutExponent(t, e);
    }
  }

  lemma DecimalParts(s: string) returns (l: Literal)
    requires IsDecimal(Unsigned(s))
    ensures WellFormed(l) && LiteralText(l) == s
  {
    SignAndRest(s);
    var m, x := ExponentParts(Unsigned(s));
    var whole, point, fraction := MantissaParts(m);
    l := Literal(SignOf(s), whole, point, fraction, x);
  }

  lemma RadixIsRead(s: string)
    ensures RadixForm(s) <==> IsRadixLiteral(s)
  {
    assert forall c: char :: c in "0123456789abcdefABCDEF" <==> IsHexDigit(c);
    assert forall c: char :: c in "01234567" <==> '0' <= c <= '7';
    assert forall c: char :: c in "01" <==> '0' <= c <= '1';
  }

  lemma InfinityIsRead(s: string)
    ensures InfinityForm(s) <==> Unsigned(s) == "Infinity"
  {
    SignAndRest(s);
    assert "+" + "Infinity" == "+Infinity" && "-" + "Infinity" == "-Infinity";
    UnsignedText("+", "Infinity");
    UnsignedText("-", "Infinity");
  }

  /** Exactly the literals put together like this are numbers, and the empty text. */
  lemma NumbersAreReadExactly(s: string)
    ensures ReadNumber(s).Some? <==> s == "" || DecimalForm(s) || RadixForm(s) || InfinityForm(s)
    ensures ReadNumber(s).Some? && ReadNumber(s).value.Other? ==> ReadNumber(s).value.literal == s
  {
    RadixIsRead(s);
    InfinityIsRead(s);
    if IsDigits(Unsigned(s)) || IsDecimal(Unsigned(s)) {
      var l := DecimalParts(s);
      assert WellFormed(l) && s == LiteralText(l);
    }
    if DecimalForm(s) {
      var l: Literal :| WellFormed(l) && s == LiteralText(l);
      DecimalIsRead(l);
    }
  }

  /** Digits with a sign are the integer they stand for, while that is exact as a double. */
  lemma IntegersAreRead(sign: string, digits: string)
    requires Sign(sign) && digits != "" && AllDigits(digits) && ParseNat(digits) <= 9007199254740991
    ensures ReadNumber(sign + digits) == Some(Int(if sign == "-" then 0 - ParseNat(digits) else ParseNat(digits)))
  {
    assert IsDigit(digits[0]);
    UnsignedText(sign, digits);
  }

  /** What the text after `key=` is: six words, the empty text, numbers, and lists of finite ones for `imgsz`; else itself. */
  lemma ValuesAreReadExactly(key: string, s: string)
    requires key != "imgsz" || ',' !in s
    ensures ReadValue(key, s) == Bool(true) <==> s == "True" || s == "true"
    ensures ReadValue(key, s) == Bool(false) <==> s == "False" || s == "false"
    ensures ReadValue(key, s) == Null <==> s == "None" || s == "null"
    ensures ReadValue(key, s).Number? <==> DecimalForm(s) || RadixForm(s) || InfinityForm(s)
    ensures ReadValue(key, s).Number? ==> ReadNumber(s) == Some(ReadValue(key, s).num)
    ensures !ReadValue(key, s).List? && (ReadValue(key, s).Str? ==> ReadValue(key, s).s == s)
  {
    NumbersAreReadExactly(s);
    if ReadNumber(s).Some? {
      ReadNumberChars(s);
      NumberCharsAreClean(s);
    }
    if s == "" && DecimalForm(s) {
      var l: Literal :| WellFormed(l) && s == LiteralText(l);
      DecimalIsRead(l);
    }
  }

  ghost predicate FinitePiece(s: string) {
    (s == "" || DecimalForm(s) || RadixForm(s)) && !InfinityForm(s)
  }

  ghost predicate FinitePieces(parts: seq<string>) {
    forall i :: 0 <= i < |parts| ==> FinitePiece(parts[i])
  }

  lemma FinitePiecesStep(parts: seq<string>)
    requires parts != []
    ensures FinitePieces(parts) <==> FinitePiece(parts[0]) && FinitePieces(parts[1..])
  {
    assert forall i :: 0 < i < |parts| ==> parts[i] == parts[1..][i - 1];
  }

  lemma PieceIsRead(s: string)
    ensures FinitePiece(s) <==> ReadNumber(s).Some? && Finite(ReadNumber(s).value)
  {
    NumbersAreReadExactly(s);
    InfinityIsRead(s);
    if InfinityForm(s) {
      SignAndRest(s);
      assert Unsigned(s)[0] == 'I';
    }
  }

  lemma {:induction false} PiecesAreRead(parts: seq<string>)
    ensures ReadNums(parts).Some? <==> FinitePieces(parts)
    ensures ReadNums(parts).Some? ==>
              && |ReadNums(parts).value| == |parts|
              && forall i :: 0 <= i < |parts| ==> ReadNumber(parts[i]) == Some(ReadNums(parts).value[i])
  {
    if parts != [] {
      PieceIsRead(parts[0]);
      PiecesAreRead(parts[1..]);
      FinitePiecesStep(parts);
    }
  }

  /** For `imgsz` a text with commas is a list exactly if every piece is a finite number. */
  lemma ListsAreReadExactly(s: string)
    requires ',' in s
    ensures ReadValue("imgsz", s).List? <==> FinitePieces(SplitOn(s, ','))
    ensures ReadValue("imgsz", s).List? ==>
              && |ReadValue("imgsz", s).nums| == |SplitOn(s, ',')|
              && forall i :: 0 <= i < |SplitOn(s, ',')| ==> ReadNumber(SplitOn(s, ',')[i]) == Some(ReadValue("imgsz", s).nums[i])
    ensures ReadValue("imgsz", s).List? || ReadValue("imgsz", s) == Str(s)
  {
    PiecesAreRead(SplitOn(s, ','));
  }

  ghost predicate IsList(ns: seq<Num>, text: string) {
    exists texts: seq<string> ::
      && |texts| == |ns| && (forall i :: 0 <= i < |ns| ==> texts[i] == Format(Number(ns[i])))
      && text == Join(texts, ",")
  }

  /** Booleans and null as Python writes them, numbers as they are, lists with commas, strings bare. */
  lemma FormatsAre(v: Value)
    ensures match v
            case Null => Format(v) == "None"
            case Bool(b) => Format(v) == if b then "True" else "False"
            case Number(Int(n)) => Format(v) == (if n < 0 then "-" + PrintNat(0 - n) else PrintNat(n))
            case Number(Other(literal)) => Format(v) == literal
            case List(ns) => IsList(ns, Format(v))
            case Str(s) => Format(v) == s
  {
    if v.List? {
      assert |PrintNums(v.nums)| == |v.nums|;
    }
  }
}
