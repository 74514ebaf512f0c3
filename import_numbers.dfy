/**
  `parseNumber` of the import script: a number cell is kept as it is; text is
  stripped down to digits, `,`, `.` and `-`, its first comma becomes a decimal
  point, and `parseFloat` reads the longest numeric prefix (null when there is none).
 */
module ImportNumbers {
  import opened Wrappers
  import opened JsStrings
  import opened ImportCells
  import opened SeqUtils

  /** The characters `[\d,.-]` that the cleaning step keeps. */
  predicate IsNumericChar(c: char) {
    IsDigit(c) || c == ',' || c == '.' || c == '-'
  }

  /** `value.replace(/[^\d,.-]/g, '')`. */
  function KeepNumericChars(s: string): (r: string)
    ensures |r| <= |s|
    ensures forall i :: 0 <= i < |r| ==> IsNumericChar(r[i]) && r[i] in s
    ensures r == Filter(s, IsNumericChar)
  {
    if s == [] then []
    else
      assert s == [s[0]] + s[1..];
      FilterCons(s[0], s[1..], IsNumericChar);
      (if IsNumericChar(s[0]) then [s[0]] else []) + KeepNumericChars(s[1..])
  }

  /** Text that is already made only of kept characters goes through unchanged. */
  lemma {:induction false} KeepNumericCharsFixesClean(s: string)
    requires forall i :: 0 <= i < |s| ==> IsNumericChar(s[i])
    ensures KeepNumericChars(s) == s
  {
    if s != [] {
      KeepNumericCharsFixesClean(s[1..]);
    }
  }

  /** The position of the first comma of `t`, or `|t|` when there is none. */
  function IndexOfComma(t: string): (k: nat)
    ensures k <= |t| && ',' !in t[..k] && (k < |t| ==> t[k] == ',')
  {
    if t == [] then 0
    else if t[0] == ',' then 0
    else
      var k := 1 + IndexOfComma(t[1..]);
      assert t[..k] == [t[0]] + t[1..][..k - 1];
      k
  }

  /** `cleaned.replace(',', '.')`: a string pattern, so only the first comma is replaced. */
  function ReplaceFirstComma(t: string): (r: string)
    ensures |r| == |t|
    ensures var k := IndexOfComma(t);
            && r[..k] == t[..k] && ',' !in r[..k]
            && (k < |t| ==> r[k] == '.' && r[k + 1..] == t[k + 1..])
            && (k == |t| ==> r == t)
  {
    var k := IndexOfComma(t);
    if k == |t| then t else t[..k] + "." + t[k + 1..]
  }

  /** The number text `parseFloat` reads: a sign, integer digits and fraction digits. */
  datatype Decimal = Decimal(negative: bool, intDigits: string, fracDigits: string)

  predicate ValidDecimal(d: Decimal) {
    AllDigits(d.intDigits) && AllDigits(d.fracDigits) && (d.intDigits != [] || d.fracDigits != [])
  }

  /** The text of a decimal, with a point only when it has fraction digits. */
  function DecimalText(d: Decimal): string {
    (if d.negative then "-" else "") + d.intDigits + (if d.fracDigits != [] then "." + d.fracDigits else "")
  }

  function Pow10(n: nat): (p: nat)
    ensures p >= 1
  {
    if n == 0 then 1 else 10 * Pow10(n - 1)
  }

  /** The exact value of the decimal (the rounding to a double is not modelled). */
  function DecimalToReal(d: Decimal): real
    requires ValidDecimal(d)
  {
    var magnitude := DecimalValue(d.intDigits) as real
                     + DecimalValue(d.fracDigits) as real / Pow10(|d.fracDigits|) as real;
    if d.negative then -magnitude else magnitude
  }

  /**
    The digits `parseFloat` reads from unsigned text: digits optionally followed
    by `.` and more digits, or `.` followed by digits; None when there are none.
   */
  function LeadingUnsigned(body: string): (r: Option<(string, string)>)
    ensures r.Some? ==> AllDigits(r.value.0) && AllDigits(r.value.1) && (r.value.0 != [] || r.value.1 != [])
  {
    var ip := DigitRun(body);
    if ip < |body| && body[ip] == '.' then
      var fp := DigitRun(body[ip + 1..]);
      if ip == 0 && fp == 0 then None else Some((body[..ip], body[ip + 1..][..fp]))
    else if ip == 0 then None
    else Some((body[..ip], []))
  }

  /**
    The longest prefix of `t` that `parseFloat` accepts, for text made of digits,
    `,`, `.` and `-`: an optional `-` sign and then what `LeadingUnsigned` reads.
    None when there is no such prefix, which is when `parseFloat` answers NaN.
   */
  function LeadingDecimal(t: string): (r: Option<Decimal>)
    ensures r.Some? ==> ValidDecimal(r.value)
  {
    var negative := t != [] && t[0] == '-';
    match LeadingUnsigned(if negative then t[1..] else t)
    case None => None
    case Some(digits) => Some(Decimal(negative, digits.0, digits.1))
  }

  /** The text of what `LeadingUnsigned` reads. */
  function UnsignedText(digits: (string, string)): string {
    digits.0 + (if digits.1 != [] then "." + digits.1 else "")
  }

  lemma LeadingUnsignedIsPrefix(body: string)
    requires LeadingUnsigned(body).Some?
    ensures UnsignedText(LeadingUnsigned(body).value) <= body
  {
    var ip := DigitRun(body);
    if ip < |body| && body[ip] == '.' {
      var rest := body[ip + 1..];
      var fp := DigitRun(rest);
      if fp > 0 {
        var u := body[..ip] + "." + rest[..fp];
        assert u == body[..ip + 1 + fp] by {
          forall k | 0 <= k < |u| ensures u[k] == body[k] {
            if k > ip {
              assert u[k] == rest[k - ip - 1];
            }
          }
        }
      }
    }
  }

  /** Putting the same sign in front of both keeps one a prefix of the other. */
  lemma SignedPrefix(u: string, body: string)
    requires u <= body
    ensures "-" + u <= "-" + body
  {
    assert ("-" + body)[..|"-" + u|] == "-" + body[..|u|];
  }

  /** What `parseFloat` reads is a prefix of the text. */
  lemma LeadingDecimalIsPrefix(t: string)
    requires LeadingDecimal(t).Some?
    ensures DecimalText(LeadingDecimal(t).value) <= t
  {
    if t != [] && t[0] == '-' {
      var body := t[1..];
      var d := LeadingUnsigned(body).value;
      assert DecimalText(LeadingDecimal(t).value) == "-" + UnsignedText(d) by {
        assert LeadingDecimal(t) == Some(Decimal(true, d.0, d.1));
      }
      assert "-" + UnsignedText(d) <= t by {
        LeadingUnsignedIsPrefix(body);
        SignedPrefix(UnsignedText(d), body);
        assert t == "-" + body;
      }
    } else {
      var d := LeadingUnsigned(t).value;
      assert DecimalText(LeadingDecimal(t).value) == UnsignedText(d) by {
        assert LeadingDecimal(t) == Some(Decimal(false, d.0, d.1));
      }
      LeadingUnsignedIsPrefix(t);
    }
  }

  /** Digits followed by a point and digits are read in full. */
  lemma LeadingDecimalPoint(a: string, b: string)
    requires AllDigits(a) && AllDigits(b) && (a != [] || b != [])
    ensures LeadingDecimal(a + "." + b) == Some(Decimal(false, a, b))
  {
    var t := a + "." + b;
    assert t[..|a|] == a;
    DigitRunExact(t, |a|);
    assert t[|a| + 1..] == b;
    DigitRunExact(b, |b|);
    assert b[..|b|] == b;
  }

  /** A run of digits is read in full. */
  lemma LeadingDecimalDigits(a: string)
    requires a != [] && AllDigits(a)
    ensures LeadingDecimal(a) == Some(Decimal(false, a, []))
  {
    DigitRunExact(a, |a|);
    assert a[..|a|] == a;
  }

  /** `parseNumber(value)`. */
  function ParseNumber(c: Cell): (r: Option<real>)
    ensures c.Number? ==> r == Some(c.n)
    ensures c.Bool? ==> r == None
  {
    match c
    case Number(n) => Some(n)
    case Bool(_) => None
    case Text(s) =>
      if s == "" then None
      else match LeadingDecimal(ReplaceFirstComma(KeepNumericChars(s)))
        case None => None
        case Some(d) => Some(DecimalToReal(d))
  }

  /** Text without a single digit never yields a number. */
  lemma ParseNumberNeedsADigit(s: string)
    requires forall i :: 0 <= i < |s| ==> !IsDigit(s[i])
    ensures ParseNumber(Text(s)) == None
  {
    var t := ReplaceFirstComma(KeepNumericChars(s));
    assert forall i :: 0 <= i < |t| ==> !IsDigit(t[i]);
    var body := if t != [] && t[0] == '-' then t[1..] else t;
    assert DigitRun(body) == 0;
    if 0 < |body| && body[0] == '.' {
      assert body[1..] == [] || !IsDigit(body[1..][0]);
    }
  }

  /** In digits, a comma and digits, the comma is the one replaced. */
  lemma ReplaceFirstCommaAfterDigits(a: string, b: string)
    requires AllDigits(a)
    ensures ReplaceFirstComma(a + "," + b) == a + "." + b
  {
    var s := a + "," + b;
    var k := IndexOfComma(s);
    assert s[..|a|] == a && s[|a|] == ',' && s[|a| + 1..] == b;
  }

  lemma CommaTextIsNumeric(a: string, b: string)
    requires AllDigits(a) && AllDigits(b)
    ensures forall i :: 0 <= i < |a + "," + b| ==> IsNumericChar((a + "," + b)[i])
  {
    var s := a + "," + b;
    forall i | 0 <= i < |s| ensures IsNumericChar(s[i]) {
      if i < |a| {
        assert s[i] == a[i];
      } else if i > |a| {
        assert s[i] == b[i - |a| - 1];
      }
    }
  }

  /**
    The Brazilian decimal comma is read as a decimal point: `a,b` with digit runs
    `a` (not empty) and `b` yields the number a.b.
   */
  lemma ParseNumberDecimalComma(a: string, b: string)
    requires a != [] && AllDigits(a) && AllDigits(b)
    ensures ParseNumber(Text(a + "," + b))
            == Some(DecimalToReal(Decimal(false, a, b)))
  {
    var s := a + "," + b;
    CommaTextIsNumeric(a, b);
    KeepNumericCharsFixesClean(s);
    ReplaceFirstCommaAfterDigits(a, b);
    LeadingDecimalPoint(a, b);
  }

  /** A plain run of digits yields the number it spells. */
  lemma ParseNumberDigits(a: string)
    requires a != [] && AllDigits(a)
    ensures ParseNumber(Text(a)) == Some(DecimalValue(a) as real)
  {
    assert ReplaceFirstComma(KeepNumericChars(a)) == a by {
      KeepNumericCharsFixesClean(a);
      assert IndexOfComma(a) == |a|;
    }
    LeadingDecimalDigits(a);
    var d := Decimal(false, a, []);
    assert DecimalToReal(d) == DecimalValue(a) as real by {
      assert DecimalValue(d.fracDigits) == 0 && Pow10(|d.fracDigits|) == 1;
    }
  }
}
