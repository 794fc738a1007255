/**
 * The result of evaluating a code chunk and its conversion to the text a
 * generator renders: strings as they are, integers read with JavaScript's
 * `parseInt` and printed back, any other type as a message naming it.
 */
module CodeEvaluation {
  import opened Wrappers
  import opened Text

  /** What the code evaluator answers: the Python type name and the value as text. */
  datatype EvalResult = EvalResult(kind: string, value: string)

  predicate IsHexDigit(c: char)
  {
    IsDigit(c) || 'a' <= c <= 'f' || 'A' <= c <= 'F'
  }

  function HexDigitValue(c: char): nat
    requires IsHexDigit(c)
  {
    if IsDigit(c) then DigitValue(c)
    else if 'a' <= c <= 'f' then c as int - 'a' as int + 10
    else c as int - 'A' as int + 10
  }

  /** The longest prefix of `s` made of decimal digits. */
  function DecimalRun(s: string): (r: string)
    ensures |r| <= |s| && r == s[..|r|]
    ensures forall i :: 0 <= i < |r| ==> IsDigit(r[i])
  {
    if |s| == 0 || !IsDigit(s[0]) then "" else [s[0]] + DecimalRun(s[1..])
  }

  /** The longest prefix of `s` made of hexadecimal digits. */
  function HexRun(s: string): (r: string)
    ensures |r| <= |s| && r == s[..|r|]
    ensures forall i :: 0 <= i < |r| ==> IsHexDigit(r[i])
  {
    if |s| == 0 || !IsHexDigit(s[0]) then "" else [s[0]] + HexRun(s[1..])
  }

  function HexValue(s: string): nat
    requires forall i :: 0 <= i < |s| ==> IsHexDigit(s[i])
  {
    if |s| == 0 then 0 else HexValue(s[..|s| - 1]) * 16 + HexDigitValue(s[|s| - 1])
  }

  /**
   * `parseInt(s).toString()`: leading white space is skipped, then an
   * optional sign, then a "0x" or "0X" prefix selects base 16; the longest
   * run of digits that follows is read. No digits give "NaN", and a zero
   * prints as "0" whatever its sign.
   */
  function ParseIntText(s: string): string
  {
    var t := TrimStart(s);
    var negative := |t| > 0 && t[0] == '-';
    var body := if |t| > 0 && (t[0] == '-' || t[0] == '+') then t[1..] else t;
    ParseUnsigned(negative, body)
  }

  /** What `parseInt` prints for the text after the sign. */
  function ParseUnsigned(negative: bool, body: string): string
  {
    var hex := |body| >= 2 && body[0] == '0' && (body[1] == 'x' || body[1] == 'X');
    var run := if hex then HexRun(body[2..]) else DecimalRun(body);
    if |run| == 0 then "NaN"
    else
      var v := if hex then HexValue(run) else DigitsValue(run);
      if v == 0 then "0" else IntToString(if negative then -v else v)
  }

  /** The text a generator renders for an evaluation result. */
  function ConvertResult(e: EvalResult): (r: string)
    ensures e.kind == "str" ==> r == e.value
    ensures e.kind != "str" && e.kind != "int" ==> r == "Unknown type: '" + e.kind + "'"
  {
    match e.kind
    case "str" => e.value
    case "int" => ParseIntText(e.value)
    case _ => "Unknown type: '" + e.kind + "'"
  }

  /** A run of digits followed by a non-digit reads as exactly that run. */
  lemma {:induction false} DecimalRunOf(a: string, rest: string)
    requires forall i :: 0 <= i < |a| ==> IsDigit(a[i])
    requires rest == "" || !IsDigit(rest[0])
    ensures DecimalRun(a + rest) == a
  {
    if |a| == 0 {
      assert a + rest == rest;
    } else {
      assert (a + rest)[0] == a[0];
      assert (a + rest)[1..] == a[1..] + rest;
      DecimalRunOf(a[1..], rest);
      assert [a[0]] + a[1..] == a;
    }
  }

  /** The digits of a number, followed by what cannot continue them, never start a "0x" prefix. */
  lemma PrintedIsNotHex(n: nat, rest: string)
    requires rest == "" || (!IsDigit(rest[0]) && rest[0] != 'x' && rest[0] != 'X')
    ensures var body := NatToString(n) + rest;
      !(|body| >= 2 && body[0] == '0' && (body[1] == 'x' || body[1] == 'X'))
  {
    var digits := NatToString(n);
    var body := digits + rest;
    assert body[0] == digits[0];
    if |body| >= 2 && body[0] == '0' {
      assert |digits| == 1;
      assert body[1] == rest[0];
    }
  }

  /** The digits of a number, followed by what cannot continue them, read as that number. */
  lemma ParseUnsignedOfPrinted(negative: bool, n: nat, rest: string)
    requires rest == "" || (!IsDigit(rest[0]) && rest[0] != 'x' && rest[0] != 'X')
    requires negative ==> n > 0
    ensures ParseUnsigned(negative, NatToString(n) + rest) == IntToString(if negative then -(n as int) else n)
  {
    var digits := NatToString(n);
    PrintedIsNotHex(n, rest);
    DecimalRunOf(digits, rest);
    assert DecimalRun(digits + rest) == digits;
    NatToStringValue(n);
    assert DigitsValue(digits) == n;
    if n == 0 {
      assert digits == [DigitChar(0)] == "0";
    }
  }

  /** A printed negative number reads back through its sign. */
  lemma ParseNegativeOfPrinted(n: nat, rest: string)
    requires rest == "" || (!IsDigit(rest[0]) && rest[0] != 'x' && rest[0] != 'X')
    requires n > 0
    ensures ParseIntText("-" + (NatToString(n) + rest)) == IntToString(-(n as int))
  {
    var body := NatToString(n) + rest;
    var s := "-" + body;
    assert s[0] == '-' && !IsWhiteSpace(s[0]);
    assert TrimStart(s) == s;
    assert s[1..] == body;
    assert ParseIntText(s) == ParseUnsigned(true, body);
    ParseUnsignedOfPrinted(true, n, rest);
  }

  /** A printed number that is not negative reads back as it is. */
  lemma ParseNonNegativeOfPrinted(n: nat, rest: string)
    requires rest == "" || (!IsDigit(rest[0]) && rest[0] != 'x' && rest[0] != 'X')
    ensures ParseIntText(NatToString(n) + rest) == IntToString(n)
  {
    var s := NatToString(n) + rest;
    assert s[0] == NatToString(n)[0];
    assert IsDigit(s[0]) && !IsWhiteSpace(s[0]);
    assert TrimStart(s) == s;
    assert ParseIntText(s) == ParseUnsigned(false, s);
    ParseUnsignedOfPrinted(false, n, rest);
  }

  /**
   * Reading back a printed integer, followed by anything that does not
   * continue its digits, gives the integer's own text.
   */
  lemma ParseIntOfPrinted(i: int, rest: string)
    requires rest == "" || (!IsDigit(rest[0]) && rest[0] != 'x' && rest[0] != 'X')
    ensures ParseIntText(IntToString(i) + rest) == IntToString(i)
  {
    if i < 0 {
      ParseNegativeOfPrinted(-i, rest);
      assert IntToString(i) + rest == "-" + (NatToString(-i) + rest);
    } else {
      ParseNonNegativeOfPrinted(i, rest);
    }
  }

  /** An "int" result prints the integer its text starts with. */
  lemma ConvertPrintedInt(i: int)
    ensures ConvertResult(EvalResult("int", IntToString(i))) == IntToString(i)
  {
    ParseIntOfPrinted(i, "");
    assert IntToString(i) + "" == IntToString(i);
  }

  /** Text with no digits at its start reads as "NaN". */
  lemma ParseIntWithoutDigits(s: string)
    requires |s| > 0 && !IsWhiteSpace(s[0]) && !IsDigit(s[0]) && s[0] != '-' && s[0] != '+'
    ensures ParseIntText(s) == "NaN"
  {
  }
}
