/** Decimal notation: the value of rows of digits, the signed integers of the input and output lines. */
module Decimals {
  import opened Machine

  function Pow10(k: nat): (p: nat)
    ensures p > 0
  {
    if k == 0 then 1 else 10 * Pow10(k - 1)
  }

  /** The number a row of cells stands for, most significant cell first; cells may exceed 9. */
  function Value(s: seq<int32>): int {
    if s == [] then 0 else 10 * Value(s[..|s| - 1]) + s[|s| - 1] as int
  }

  predicate IsDigit(c: char) {
    '0' <= c <= '9'
  }

  predicate AllDigits(s: string) {
    forall i :: 0 <= i < |s| ==> IsDigit(s[i])
  }

  predicate DigitCells(s: seq<int32>) {
    forall i :: 0 <= i < |s| ==> 0 <= s[i] <= 9
  }

  function DigitOf(c: char): (d: int32)
    requires IsDigit(c)
  {
    c as int32 - '0' as int32
  }

  function Cells(s: string): (r: seq<int32>)
    requires AllDigits(s)
    ensures |r| == |s| && DigitCells(r)
    ensures forall i :: 0 <= i < |s| ==> r[i] == DigitOf(s[i])
  {
    seq(|s|, i requires 0 <= i < |s| => DigitOf(s[i]))
  }

  /** The natural number a digit string denotes. */
  function Magnitude(s: string): int
    requires AllDigits(s)
  {
    Value(Cells(s))
  }

  lemma {:induction false} PowAdds(a: nat, b: nat)
    ensures Pow10(a + b) == Pow10(a) * Pow10(b)
  {
    if a > 0 {
      PowAdds(a - 1, b);
      assert Pow10(a + b) == 10 * Pow10(a - 1 + b);
      assert Pow10(a) * Pow10(b) == 10 * (Pow10(a - 1) * Pow10(b));
    }
  }

  lemma {:induction false} PowMonotone(a: nat, b: nat)
    requires a <= b
    ensures Pow10(a) <= Pow10(b)
  {
    if a < b { PowMonotone(a, b - 1); }
  }

  /** Changing one cell moves the value by that cell's weight. */
  lemma {:induction false} ValueOfUpdate(s: seq<int32>, k: nat, x: int32)
    requires k < |s|
    ensures Value(s[k := x]) == Value(s) + (x as int - s[k] as int) * Pow10(|s| - 1 - k)
  {
    var n := |s| - 1;
    var t := s[k := x];
    if k == n {
      assert t[..n] == s[..n];
    } else {
      assert t[..n] == s[..n][k := x];
      ValueOfUpdate(s[..n], k, x);
      var d, p := x as int - s[k] as int, Pow10(n - 1 - k);
      assert 10 * (d * p) == d * (10 * p);
    }
  }

  lemma {:induction false} ValueOfConcat(s: seq<int32>, t: seq<int32>)
    ensures Value(s + t) == Value(s) * Pow10(|t|) + Value(t)
  {
    if t == [] {
      assert s + t == s;
    } else {
      var n := |t| - 1;
      assert (s + t)[..|s| + n] == s + t[..n];
      ValueOfConcat(s, t[..n]);
      assert Value(s) * Pow10(|t|) == 10 * (Value(s) * Pow10(n));
    }
  }

  lemma {:induction false} ValueOfZeros(s: seq<int32>)
    requires forall i :: 0 <= i < |s| ==> s[i] == 0
    ensures Value(s) == 0
  {
    if s != [] { ValueOfZeros(s[..|s| - 1]); }
  }

  /** Digits keep the value below the next power; any non-negative cell is bounded by the value. */
  lemma {:induction false} DigitsBelowPower(s: seq<int32>)
    requires DigitCells(s)
    ensures 0 <= Value(s) < Pow10(|s|)
  {
    if s != [] { DigitsBelowPower(s[..|s| - 1]); }
  }

  lemma {:induction false} CellBelowValue(s: seq<int32>, k: nat)
    requires k < |s| && forall i :: 0 <= i < |s| ==> s[i] >= 0
    ensures s[k] as int * Pow10(|s| - 1 - k) <= Value(s)
    decreases |s|
  {
    var n := |s| - 1;
    NonNegative(s[..n]);
    if k < n {
      CellBelowValue(s[..n], k);
      assert 10 * (s[k] as int * Pow10(n - 1 - k)) == s[k] as int * Pow10(n - k);
    }
  }

  lemma {:induction false} NonNegative(s: seq<int32>)
    requires forall i :: 0 <= i < |s| ==> s[i] >= 0
    ensures Value(s) >= 0
  {
    if s != [] { NonNegative(s[..|s| - 1]); }
  }

  // ---------- signed integers ----------

  predicate Signed(s: string) {
    s != "" && (s[0] == '+' || s[0] == '-')
  }

  /** What follows the optional sign. */
  function Body(s: string): string {
    if Signed(s) then s[1..] else s
  }

  /** The accepted language: an optional sign, then one or more digits. */
  predicate IsInteger(s: string) {
    Body(s) != "" && AllDigits(Body(s))
  }

  function SignOf(s: string): int {
    if s != "" && s[0] == '-' then -1 else 1
  }

  /** The integer such a string denotes. */
  function Denotes(s: string): int
    requires IsInteger(s)
  {
    WithSign(SignOf(s), Magnitude(Body(s)))
  }

  function WithSign(sign: int, v: int): int {
    if sign < 0 then -v else v
  }

  /** No leading zero, except in "0" itself. */
  predicate Canonical(s: string) {
    s != "" && AllDigits(s) && (|s| == 1 || s[0] != '0')
  }

  // ---------- decimal text ----------

  function CharOf(d: int32): (c: char)
    requires 0 <= d <= 9
    ensures IsDigit(c) && DigitOf(c) == d
  {
    (d + '0' as int32) as char
  }

  function Chars(s: seq<int32>): (t: string)
    requires DigitCells(s)
    ensures |t| == |s| && AllDigits(t) && Cells(t) == s
  {
    seq(|s|, i requires 0 <= i < |s| => CharOf(s[i]))
  }

  /** The decimal notation of a natural number, defined without reference to cells. */
  function Decimal(v: nat): (t: string)
    ensures t != "" && AllDigits(t)
  {
    if v < 10 then [CharOf(v as int32)] else Decimal(v / 10) + [CharOf((v % 10) as int32)]
  }

  function Minus(sign: int): string {
    if sign < 0 then "-" else ""
  }

  /** What the program means to print for a product of the given sign and size. */
  function Shown(sign: int, v: nat): string {
    Minus(sign) + Decimal(v)
  }

  lemma DigitIs(d: int32)
    requires 0 <= d <= 9
    ensures var c := "0123456789"[d]; IsDigit(c) && DigitOf(c) == d && CharOf(d) == c
  {
  }

  /** The notation digit by digit, in the characters themselves. */
  lemma DecimalNotation(v: nat)
    ensures Decimal(v) == (if v < 10 then "" else Decimal(v / 10)) + ["0123456789"[v % 10]]
  {
    var d := v % 10;
    DigitIs(d as int32);
    if v < 10 { assert "" + ["0123456789"[d]] == ["0123456789"[d]]; }
  }

  lemma DigitNotation(s: string, d: nat)
    requires AllDigits(s) && d < 10
    ensures AllDigits(s + ["0123456789"[d]])
    ensures Magnitude("") == 0 && Magnitude(s + ["0123456789"[d]]) == 10 * Magnitude(s) + d
  {
    var t := s + ["0123456789"[d]];
    DigitIs(d as int32);
    assert Cells(t)[..|s|] == Cells(s);
  }

  lemma DigitsAre(c: char)
    ensures IsDigit(c) <==> c in "0123456789"
  {
    if IsDigit(c) { assert "0123456789"[c as int - '0' as int] == c; }
  }

  lemma DigitStrings(s: string)
    ensures AllDigits(s) <==> forall i :: 0 <= i < |s| ==> s[i] in "0123456789"
  {
    forall i | 0 <= i < |s| ensures IsDigit(s[i]) <==> s[i] in "0123456789" { DigitsAre(s[i]); }
  }

  /** The accepted strings, in the characters themselves. */
  lemma IntegerLanguage(s: string)
    ensures IsInteger(s) <==>
      var digits := if s != "" && (s[0] == '+' || s[0] == '-') then s[1..] else s;
      digits != "" && forall i :: 0 <= i < |digits| ==> digits[i] in "0123456789"
  {
    DigitStrings(Body(s));
  }

  /** What they denote. */
  lemma SignsDenote(s: string)
    requires s != "" && AllDigits(s)
    ensures IsInteger(s) && Denotes(s) == Magnitude(s)
    ensures IsInteger("+" + s) && Denotes("+" + s) == Magnitude(s)
    ensures IsInteger("-" + s) && Denotes("-" + s) == -Magnitude(s)
  {
    assert IsDigit(s[0]);
    assert ("+" + s)[1..] == s && ("-" + s)[1..] == s;
  }

  lemma {:induction false} DecimalDenotes(v: nat)
    ensures Canonical(Decimal(v)) && Magnitude(Decimal(v)) == v && (v > 0 ==> Decimal(v)[0] != '0')
  {
    var t := Decimal(v);
    if v < 10 {
      var d := Cells(t);
      assert |d| == 1 && d[0] == v as int32 && d[..0] == [];
      assert Value(d[..0]) == 0;
    } else {
      DecimalDenotes(v / 10);
      assert Cells(t) == Cells(Decimal(v / 10)) + [(v % 10) as int32];
    }
  }

  lemma {:induction false} DecimalLength(v: nat, k: nat)
    requires k > 0
    ensures |Decimal(v)| <= k <==> v < Pow10(k)
    decreases k
  {
    if k == 1 {
    } else if v >= 10 {
      DecimalLength(v / 10, k - 1);
      assert v < 10 * Pow10(k - 1) <==> v / 10 < Pow10(k - 1);
    } else {
      PowMonotone(1, k);
    }
  }

  /** A leading-zero-free row of digits is the decimal notation of its value. */
  lemma {:induction false} CharsAreDecimal(s: seq<int32>)
    requires s != [] && DigitCells(s) && (|s| == 1 || s[0] != 0)
    ensures Value(s) >= 0 && Chars(s) == Decimal(Value(s))
    ensures s[0] != 0 ==> Value(s) > 0
  {
    DigitsBelowPower(s);
    var n := |s| - 1;
    if n > 0 {
      CharsAreDecimal(s[..n]);
      assert Value(s) / 10 == Value(s[..n]) && Value(s) % 10 == s[n] as int;
      assert Chars(s) == Chars(s[..n]) + [CharOf(s[n])];
    } else {
      assert Value(s[..0]) == 0;
    }
  }

  lemma CanonicalIsDecimal(num: string)
    requires Canonical(num)
    ensures Magnitude(num) >= 0 && num == Decimal(Magnitude(num))
  {
    CharsAreDecimal(Cells(num));
    assert Chars(Cells(num)) == num;
  }

  /** The printed product is accepted again by the parser, with the value of the product. */
  lemma ShownParses(sign: int, v: nat)
    ensures IsInteger(Shown(sign, v)) && Denotes(Shown(sign, v)) == WithSign(sign, v)
  {
    DecimalDenotes(v);
    var t := Shown(sign, v);
    if sign < 0 {
      assert t[1..] == Decimal(v);
    } else {
      assert t == Decimal(v) && IsDigit(t[0]);
    }
  }

  lemma ProductBelowPower(num1: string, num2: string)
    requires AllDigits(num1) && AllDigits(num2)
    ensures 0 <= Magnitude(num1) * Magnitude(num2) < Pow10(|num1| + |num2|)
  {
    DigitsBelowPower(Cells(num1));
    DigitsBelowPower(Cells(num2));
    PowAdds(|num1|, |num2|);
    ProductBelow(Magnitude(num1), Magnitude(num2), Pow10(|num1|), Pow10(|num2|));
  }

  lemma ProductBelow(a: int, b: int, p: int, q: int)
    requires 0 <= a < p && 0 <= b < q
    ensures 0 <= a * b < p * q
  {
    assert a * b <= a * q;
    assert a * q < p * q;
  }
}
