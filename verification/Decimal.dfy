/** Decimal text of integers: `std::to_string`, `std::stoi` and `istream >> int` on 32-bit ints. */
module Decimal {
  import opened Wrappers

  const INT_MIN := -0x8000_0000
  const INT_MAX := 0x7fff_ffff

  predicate Int32(i: int) { INT_MIN <= i <= INT_MAX }

  predicate IsDigit(c: char) { '0' <= c <= '9' }

  /** `isspace` in the "C" locale: space, tab, newline, vertical tab, form feed, carriage return. */
  predicate IsSpace(c: char) { c == ' ' || 9 <= c as int <= 13 }

  function DigitValue(c: char): nat
    requires IsDigit(c)
  { c as int - '0' as int }

  function DigitChar(d: nat): (c: char)
    requires d < 10
    ensures IsDigit(c) && DigitValue(c) == d
  { ('0' as int + d) as char }

  function Digits(n: nat): (s: string)
    ensures |s| >= 1 && forall i :: 0 <= i < |s| ==> IsDigit(s[i])
  {
    if n < 10 then [DigitChar(n)] else Digits(n / 10) + [DigitChar(n % 10)]
  }

  function ToString(i: int): string {
    if i < 0 then "-" + Digits(-i) else Digits(i)
  }

  /** What `std::stoi` does: a value, `std::invalid_argument` or `std::out_of_range`. */
  datatype Parsed = Number(value: int) | NoConversion | OutOfRange

  function SkipSpace(s: string): string {
    if s != "" && IsSpace(s[0]) then SkipSpace(s[1..]) else s
  }

  /** The value of the longest run of digits at the front of `s`, read after `acc`. */
  function Accumulate(s: string, acc: nat): nat {
    if s != "" && IsDigit(s[0]) then Accumulate(s[1..], 10 * acc + DigitValue(s[0])) else acc
  }

  predicate StartsWithDigit(s: string) { s != "" && IsDigit(s[0]) }

  /** `strtol` in base 10 without a bound: blanks, an optional sign, then at least one digit. */
  function Convert(s: string): Option<int> {
    var t := SkipSpace(s);
    if StartsWithDigit(t) then Some(Accumulate(t, 0))
    else if t != "" && (t[0] == '-' || t[0] == '+') && StartsWithDigit(t[1..]) then
      var v: int := Accumulate(t[1..], 0);
      Some(if t[0] == '-' then -v else v)
    else None
  }

  function Stoi(s: string): Parsed {
    match Convert(s)
    case None => NoConversion
    case Some(v) => if Int32(v) then Number(v) else OutOfRange
  }

  /** `fin >> data` for an `int`: no digits stores 0, an overflow stores the nearest limit. */
  function ExtractInt(s: string): int {
    match Convert(s)
    case None => 0
    case Some(v) => if v < INT_MIN then INT_MIN else if v > INT_MAX then INT_MAX else v
  }

  // ----- properties -----

  lemma {:induction false} AccumulateSplit(a: string, b: string, acc: nat)
    requires forall i :: 0 <= i < |a| ==> IsDigit(a[i])
    ensures Accumulate(a + b, acc) == Accumulate(b, Accumulate(a, acc))
  {
    if a == "" {
      assert a + b == b;
    } else {
      assert (a + b)[1..] == a[1..] + b;
      AccumulateSplit(a[1..], b, 10 * acc + DigitValue(a[0]));
    }
  }

  lemma {:induction false} AccumulateDigits(n: nat)
    ensures Accumulate(Digits(n), 0) == n
  {
    if n >= 10 {
      AccumulateDigits(n / 10);
      AccumulateSplit(Digits(n / 10), [DigitChar(n % 10)], 0);
      assert [DigitChar(n % 10)][1..] == "";
    }
  }

  lemma {:induction false} AccumulateStops(tail: string, acc: nat)
    requires !StartsWithDigit(tail)
    ensures Accumulate(tail, acc) == acc
  {
  }

  /** Reading a number stops at the first character that is no digit, whatever follows it. */
  lemma {:induction false} ConvertToString(i: int, tail: string)
    requires !StartsWithDigit(tail)
    ensures Convert(ToString(i) + tail) == Some(i)
  {
    hide Digits, Accumulate;
    var n: nat := if i < 0 then -i else i;
    var d := Digits(n);
    AccumulateDigits(n);
    AccumulateSplit(d, tail, 0);
    AccumulateStops(tail, n);
    assert StartsWithDigit(d + tail);
    if i < 0 {
      var t := ToString(i) + tail;
      assert t[1..] == d + tail;
      assert SkipSpace(t) == t;
    } else {
      assert SkipSpace(d + tail) == d + tail;
    }
  }

  /** `stoi` undoes `to_string` exactly on the 32-bit ints, and throws `out_of_range` elsewhere. */
  lemma {:induction false} StoiOfToString(i: int, tail: string)
    requires !StartsWithDigit(tail)
    ensures Stoi(ToString(i) + tail) == if -2147483648 <= i <= 2147483647 then Number(i) else OutOfRange
  {
    ConvertToString(i, tail);
  }

  lemma {:induction false} DecimalRoundTrip(i: int)
    ensures Int32(i) <==> Stoi(ToString(i)) == Number(i)
    ensures Int32(i) <==> ExtractInt(ToString(i)) == i
    ensures i < -2147483648 ==> ExtractInt(ToString(i)) == -2147483648
    ensures i > 2147483647 ==> ExtractInt(ToString(i)) == 2147483647
  {
    ConvertToString(i, "");
    assert ToString(i) + "" == ToString(i);
  }

  lemma {:induction false} Injective(i: int, j: int)
    ensures ToString(i) == ToString(j) <==> i == j
  {
    ConvertToString(i, "");
    ConvertToString(j, "");
    assert ToString(i) + "" == ToString(i) && ToString(j) + "" == ToString(j);
  }

  // ----- what the conversions mean, by the form of the text -----

  /** The blanks of the "C" locale: space, tab, newline, vertical tab, form feed and carriage return. */
  predicate IsBlank(c: char) { c in " \t\n\r" || c == 11 as char || c == 12 as char }

  predicate AllDigits(s: string) { forall i :: 0 <= i < |s| ==> s[i] in "0123456789" }

  /** The value of a numeral in base ten, by places. */
  function Value(digits: string): nat
    requires AllDigits(digits)
  {
    if digits == "" then 0
    else 10 * Value(digits[..|digits| - 1]) + (digits[|digits| - 1] as int - '0' as int)
  }

  /** Blanks, an optional sign, a longest run of digits that is not empty, and anything after it. */
  predicate HasForm(s: string, blanks: string, sign: string, digits: string, rest: string) {
    && s == blanks + (sign + (digits + rest))
    && (forall i :: 0 <= i < |blanks| ==> IsBlank(blanks[i])) && (sign == "" || sign == "+" || sign == "-")
    && digits != "" && AllDigits(digits) && (rest == "" || rest[0] !in "0123456789")
  }

  function Signed(sign: string, digits: string): int
    requires AllDigits(digits)
  {
    var v: int := Value(digits);
    if sign == "-" then -v else v
  }

  lemma {:induction false} AccumulateIsValue(digits: string)
    requires AllDigits(digits)
    ensures Accumulate(digits, 0) == Value(digits)
    decreases |digits|
  {
    hide Accumulate;
    if digits == "" {
      AccumulateStops(digits, 0);
    } else {
      var front, last := digits[..|digits| - 1], digits[|digits| - 1];
      assert digits == front + [last];
      AccumulateIsValue(front);
      AccumulateSplit(front, [last], 0);
      AccumulateOne(last, Value(front));
    }
  }

  lemma {:induction false} AccumulateOne(c: char, acc: nat)
    requires c in "0123456789"
    ensures Accumulate([c], acc) == 10 * acc + (c as int - '0' as int)
  {
    assert [c][1..] == "";
  }

  lemma {:induction false} SkipsBlanks(blanks: string, t: string)
    requires (forall i :: 0 <= i < |blanks| ==> IsBlank(blanks[i])) && (t == "" || !IsBlank(t[0]))
    ensures SkipSpace(blanks + t) == t
  {
    if blanks == "" {
      assert blanks + t == t;
    } else {
      assert (blanks + t)[1..] == blanks[1..] + t;
      SkipsBlanks(blanks[1..], t);
    }
  }

  lemma {:induction false} SkippedAre(s: string) returns (blanks: string)
    ensures s == blanks + SkipSpace(s) && forall i :: 0 <= i < |blanks| ==> IsBlank(blanks[i])
  {
    if s != "" && IsSpace(s[0]) {
      var more := SkippedAre(s[1..]);
      blanks := [s[0]] + more;
      assert s == [s[0]] + s[1..];
    } else {
      blanks := "";
    }
  }

  lemma {:induction false} DigitRun(t: string) returns (digits: string, rest: string)
    ensures t == digits + rest && AllDigits(digits) && (rest == "" || rest[0] !in "0123456789")
    ensures StartsWithDigit(t) ==> digits != ""
  {
    if StartsWithDigit(t) {
      digits, rest := DigitRun(t[1..]);
      digits := [t[0]] + digits;
      assert t == [t[0]] + t[1..];
    } else {
      digits, rest := "", t;
    }
  }

  lemma {:induction false} FormIsConverted(s: string, blanks: string, sign: string, digits: string, rest: string)
    requires HasForm(s, blanks, sign, digits, rest)
    ensures Convert(s) == Some(Signed(sign, digits))
  {
    hide Accumulate, SkipSpace;
    var t := sign + (digits + rest);
    SkipsBlanks(blanks, t);
    AccumulateIsValue(digits);
    AccumulateSplit(digits, rest, 0);
    AccumulateStops(rest, Value(digits));
    if sign == "" { assert t == digits + rest; } else { assert t[1..] == digits + rest; }
  }

  lemma {:induction false} ConvertedHasForm(s: string) returns (blanks: string, sign: string, digits: string,
      rest: string)
    requires Convert(s).Some?
    ensures HasForm(s, blanks, sign, digits, rest)
  {
    hide Accumulate, SkipSpace;
    var t := SkipSpace(s);
    blanks := SkippedAre(s);
    if StartsWithDigit(t) {
      sign := "";
      digits, rest := DigitRun(t);
      assert sign + t == t;
    } else {
      sign := [t[0]];
      digits, rest := DigitRun(t[1..]);
      assert t == sign + t[1..];
    }
  }

  /**
   A text converts to a number exactly if it has that form, with that value; what follows the digits does not matter,
   and any other text, in particular one without a digit, does not convert.
   */
  lemma {:induction false} ConvertsExactly(s: string, v: int)
    ensures Convert(s) == Some(v) <==>
            exists blanks, sign, digits, rest :: HasForm(s, blanks, sign, digits, rest) && v == Signed(sign, digits)
  {
    hide Convert, Value;
    if Convert(s).Some? {
      var blanks, sign, digits, rest := ConvertedHasForm(s);
      FormIsConverted(s, blanks, sign, digits, rest);
    }
    forall blanks, sign, digits, rest | HasForm(s, blanks, sign, digits, rest)
      ensures Convert(s) == Some(Signed(sign, digits))
    {
      FormIsConverted(s, blanks, sign, digits, rest);
    }
  }

  /** A text without a digit is no number, whatever else is in it. */
  lemma {:induction false} NoDigitNoNumber(s: string)
    requires forall i :: 0 <= i < |s| ==> s[i] !in "0123456789"
    ensures Stoi(s) == NoConversion && ExtractInt(s) == 0
  {
    hide Convert;
    if Convert(s).Some? {
      var blanks, sign, digits, rest := ConvertedHasForm(s);
      FormHasDigit(s, blanks, sign, digits, rest);
    }
  }

  lemma {:induction false} FormHasDigit(s: string, blanks: string, sign: string, digits: string, rest: string)
    requires HasForm(s, blanks, sign, digits, rest)
    ensures exists i :: 0 <= i < |s| && s[i] in "0123456789"
  {
    assert s[|blanks| + |sign|] == digits[0];
  }

  /** `to_string` writes a sign for a negative number, then its digits in base ten without leading zeros. */
  lemma {:induction false} ToStringIsNumeral(i: int) returns (digits: string)
    ensures ToString(i) == (if i < 0 then "-" else "") + digits && digits != "" && AllDigits(digits)
    ensures Signed(if i < 0 then "-" else "", digits) == i && (digits[0] == '0' ==> digits == "0")
  {
    var n: nat := if i < 0 then -i else i;
    digits := Digits(n);
    AccumulateDigits(n);
    AccumulateIsValue(digits);
    NoLeadingZero(n);
  }

  lemma {:induction false} NoLeadingZero(n: nat)
    ensures Digits(n)[0] == '0' ==> n == 0 && Digits(n) == "0"
  {
    if n >= 10 { NoLeadingZero(n / 10); }
  }

  /** The text of a number can be any line of a frame, and the tail of a full id. */
  lemma {:induction false} TextIsPlain(i: int)
    ensures ToString(i) != "" && '\n' !in ToString(i) && '\r' !in ToString(i) && '/' !in ToString(i)
  {
  }
}
