/** The signed decimal multiplication of c/test_big_integer_multiplication.c. */
module BigInt {
  import opened CString
  import opened Decimals
  import opened Machine

  const MAX_LEN := 256

  // ---------- parsing ----------

  lemma ZerosInFront(s: seq<int32>, k: nat)
    requires k <= |s| && forall i :: 0 <= i < k ==> s[i] == 0
    ensures Value(s[k..]) == Value(s)
  {
    ValueOfZeros(s[..k]);
    ValueOfConcat(s[..k], s[k..]);
    assert s[..k] + s[k..] == s;
  }

  lemma DropZeros(s: string, k: nat)
    requires k <= |s| && AllDigits(s) && forall i :: 0 <= i < k ==> s[i] == '0'
    ensures AllDigits(s[k..]) && Magnitude(s[k..]) == Magnitude(s)
  {
    ZerosInFront(Cells(s), k);
    assert Cells(s)[k..] == Cells(s[k..]);
  }

  lemma SkipZeros(str: string, k: nat, num: string)
    requires k < |Body(str)| && num == Body(str)[k..] && AllDigits(num)
    requires forall i :: 0 <= i < k ==> Body(str)[i] == '0'
    ensures IsInteger(str) && Denotes(str) == WithSign(SignOf(str), Magnitude(num))
  {
    var body := Body(str);
    forall i | k <= i < |body| ensures IsDigit(body[i]) {
      assert body[i] == num[i - k];
    }
    DropZeros(body, k);
  }

  /** The parser's zero-skipping loop: stops at the first non-zero character, or at the last one. */
  method SkipLeadingZeros(str: string, start: nat) returns (begin: nat)
    requires start < |str|
    ensures start <= begin < |str|
    ensures forall i :: start <= i < begin ==> str[i] == '0'
    ensures begin == |str| - 1 || str[begin] != '0'
  {
    begin := start;
    while begin < |str|
      invariant start <= begin <= |str|
      invariant forall i :: start <= i < begin ==> str[i] == '0'
    {
      if str[begin] != '0' {
        break;
      }
      begin := begin + 1;
    }
    if begin == |str| {
      begin := |str| - 1;
    }
  }

  lemma NotAnInteger(str: string, start: nat, i: nat)
    requires start <= i < |str| && Body(str) == str[start..] && !IsDigit(str[i])
    ensures !IsInteger(str)
  {
    assert Body(str)[i - start] == str[i];
  }

  lemma TooShort(str: string)
    requires str == "" || (|str| == 1 && !IsDigit(str[0]))
    ensures !IsInteger(str)
  {
    assert str != "" && !Signed(str) ==> Body(str)[0] == str[0];
  }

  method AnalysisBigIntString(str: string) returns (err: int, sign: int, num: string)
    ensures err == 0 || err == -1
    ensures err == 0 <==> IsInteger(str)
    ensures err == 0 ==> sign == SignOf(str) && Canonical(num) && Denotes(str) == WithSign(sign, Magnitude(num))
    // a suffix of the input, and shorter than it when there was a minus sign
    ensures err == 0 ==> |num| <= |str| && num == str[|str| - |num|..] && (sign < 0 ==> |num| < |str|)
  {
    sign, num := 1, "";
    var len := |str|;
    if len == 0 || (len == 1 && (str[0] > '9' || str[0] < '0')) {
      TooShort(str);
      return -1, sign, num;
    }
    var begin := 0;
    if str[0] == '+' {
      begin := 1;
    } else if str[0] == '-' {
      sign := -1;
      begin := 1;
    }
    ghost var start := begin;
    assert Body(str) == str[start..];
    begin := SkipLeadingZeros(str, begin);
    for i := begin to len
      invariant forall j :: begin <= j < i ==> IsDigit(str[j])
    {
      if str[i] > '9' || str[i] < '0' {
        NotAnInteger(str, start, i);
        return -1, sign, num;
      }
    }
    num := str[begin..];
    err := 0;
    SkipZeros(str, begin - start, num);
  }

  // ---------- convolution ----------

  lemma ValueOfSuffix(s: seq<int32>, k: nat)
    requires k < |s|
    ensures Value(s[k..]) == s[k] as int * Pow10(|s| - 1 - k) + Value(s[k + 1..])
  {
    assert s[k..] == [s[k]] + s[k + 1..];
    ValueOfConcat([s[k]], s[k + 1..]);
  }

  /** The product added to cell i+j-1 in row i, column j is worth exactly what it is worth in the product. */
  lemma CellWeight(t1: int, t2: int, p: nat, q: nat)
    ensures t1 * Pow10(q) * (t2 * Pow10(p)) == t1 * t2 * Pow10(q + p)
  {
    PowAdds(q, p);
    Regroup(t1, t2, Pow10(p), Pow10(q));
  }

  lemma Regroup(a: int, b: int, p: int, q: int)
    ensures a * q * (b * p) == a * b * (q * p)
  {
  }

  lemma Distribute(f: int, a: int, b: int)
    ensures f * (a + b) == f * a + f * b
  {
  }

  /** One convolution step in terms of values: the row gains the next digit of the second factor. */
  lemma AddTerm(before: seq<int32>, c: nat, x: int32, t1: int32, d2: seq<int32>, j: nat, q: nat)
    requires 0 < j <= |d2| && c < |before| && |before| - 1 - c == q + (|d2| - j)
    requires x as int == before[c] as int + t1 as int * d2[j - 1] as int
    ensures Value(before[c := x]) - t1 as int * Pow10(q) * Value(d2[j - 1..]) ==
            Value(before) - t1 as int * Pow10(q) * Value(d2[j..])
  {
    var t2, p := d2[j - 1] as int, |d2| - j;
    ValueOfUpdate(before, c, x);
    ValueOfSuffix(d2, j - 1);
    CellWeight(t1 as int, t2, p, q);
    Distribute(t1 as int * Pow10(q), t2 * Pow10(p), Value(d2[j..]));
  }

  lemma DigitProduct(t1: int32, t2: int32)
    requires 0 <= t1 <= 9 && 0 <= t2 <= 9
    ensures 0 <= t1 as int * t2 as int <= 81
  {
  }

  /** Inside row `i`: the columns from `j` on are added to the row of cells `was`. */
  ghost predicate InRow(row: seq<int32>, was: seq<int32>, i: nat, j: nat, t1: int32, d2: seq<int32>, bound: nat) {
    && |row| == |was| && j <= |d2| && 0 < i && i + |d2| <= |row|
    && Value(row) == Value(was) + t1 as int * Pow10(|row| - |d2| - i) * Value(d2[j..])
    && (forall k :: 0 <= k < |row| && k < i + j ==> 0 <= row[k] as int <= bound)
    && (forall k :: 0 <= k < |row| ==> 0 <= row[k] as int <= bound + 81)
  }

  lemma RowStep(row: seq<int32>, was: seq<int32>, i: nat, j: nat, t1: int32, d2: seq<int32>, bound: nat, x: int32)
    requires InRow(row, was, i, j, t1, d2, bound) && j > 0 && DigitCells(d2) && 0 <= t1 <= 9
    requires x as int == row[i + j - 1] as int + t1 as int * d2[j - 1] as int
    ensures InRow(row[i + j - 1 := x], was, i, j - 1, t1, d2, bound)
  {
    DigitProduct(t1, d2[j - 1]);
    AddTerm(row, i + j - 1, x, t1, d2, j, |row| - |d2| - i);
  }

  /** The inner convolution loop for row `i` of a first factor of `n` digits. */
  method ConvolveRow(temp1: int32, num2: string, n: nat, i: nat, cells: array<int32>, ghost bound: nat)
    requires 0 <= temp1 <= 9 && AllDigits(num2)
    requires 0 < i <= n <= MAX_LEN && |num2| <= MAX_LEN && cells.Length == 2 * MAX_LEN
    requires bound + 81 <= 81 * MAX_LEN && forall k :: 0 <= k < n + |num2| ==> 0 <= cells[k] as int <= bound
    modifies cells
    ensures Value(cells[..n + |num2|]) ==
            old(Value(cells[..n + |num2|])) + temp1 as int * Pow10(n - i) * Magnitude(num2)
    ensures forall k :: 0 <= k < n + |num2| ==> 0 <= cells[k] as int <= bound + 81
  {
    var m := |num2|;
    ghost var d2, was := Cells(num2), cells[..n + m];
    ghost var row := was;
    var j := m;
    while j > 0
      invariant 0 <= j <= m && cells[..n + m] == row && InRow(row, was, i, j, temp1, d2, bound)
    {
      var temp2 := DigitOf(num2[j - 1]);
      DigitProduct(temp1, temp2);
      RowStep(row, was, i, j, temp1, d2, bound, row[i + j - 1] + temp1 * temp2);
      row := row[i + j - 1 := row[i + j - 1] + temp1 * temp2];
      cells[i + j - 1] := cells[i + j - 1] + temp1 * temp2;
      j := j - 1;
    }
    assert d2[0..] == d2;
    assert forall k :: 0 <= k < n + m ==> cells[k] == row[k];
  }

  /** One row in terms of values. */
  lemma RowValue(d1: seq<int32>, i: nat, v: int)
    requires i < |d1|
    ensures Value(d1[i..]) * v == Value(d1[i + 1..]) * v + d1[i] as int * Pow10(|d1| - 1 - i) * v
  {
    ValueOfSuffix(d1, i);
    Distribute(v, d1[i] as int * Pow10(|d1| - 1 - i), Value(d1[i + 1..]));
  }

  /** The schoolbook loops: the weighted sum of the cells becomes the product of the two factors. */
  method Convolve(num1: string, num2: string, cells: array<int32>)
    requires AllDigits(num1) && AllDigits(num2)
    requires |num1| <= MAX_LEN && |num2| <= MAX_LEN && cells.Length == 2 * MAX_LEN
    requires forall k :: 0 <= k < cells.Length ==> cells[k] == 0
    modifies cells
    ensures Value(cells[..|num1| + |num2|]) == Magnitude(num1) * Magnitude(num2)
    ensures var row := cells[..|num1| + |num2|]; forall k :: 0 <= k < |row| ==> 0 <= row[k] as int <= 81 * |num1|
  {
    var n, m := |num1|, |num2|;
    ghost var d1 := Cells(num1);
    ValueOfZeros(cells[..n + m]);
    var i := n;
    while i > 0
      invariant 0 <= i <= n
      invariant Value(cells[..n + m]) == Value(d1[i..]) * Magnitude(num2)
      invariant forall k :: 0 <= k < n + m ==> 0 <= cells[k] as int <= 81 * (n - i)
    {
      var temp1 := DigitOf(num1[i - 1]);
      ConvolveRow(temp1, num2, n, i, cells, 81 * (n - i));
      RowValue(d1, i - 1, Magnitude(num2));
      i := i - 1;
    }
    assert d1[0..] == d1;
  }

  // ---------- carry ----------

  /** Carried down to cell `i`: digits from there on, and nothing above `bound` to the left. */
  ghost predicate CarriedFrom(row: seq<int32>, i: nat, bound: nat) {
    && i <= |row|
    && (forall k :: i <= k < |row| ==> 0 <= row[k] <= 9)
    && (forall k :: 0 <= k < i ==> 0 <= row[k] as int <= bound)
  }

  /** Half-way through spreading cell `i` of the row `was`: `j` of its digits are placed and `temp` is
      left, and what is placed and what is left make up the value. */
  ghost predicate Scattered(row: seq<int32>, was: seq<int32>, i: nat, j: nat, temp: int32, bound: nat) {
    && |row| == |was| && i < |row| && j <= i + 1
    && (forall k :: i < k < |row| ==> 0 <= row[k] <= 9)
    && (forall k :: 0 <= k <= i - j ==> 0 <= row[k] as int <= bound)
    && (forall k :: i - j < k <= i ==> 0 <= row[k] as int <= bound + 9)
    && 0 <= row[i] <= (if j == 0 then 0 else 9)
    && temp >= 0 && Value(row) + temp as int * Pow10(|row| - 1 - i + j) == Value(was)
  }

  lemma ScatterStart(was: seq<int32>, i: nat, bound: nat)
    requires i < |was| && CarriedFrom(was, i + 1, bound)
    ensures Scattered(was[i := 0], was, i, 0, was[i], bound)
  {
    ValueOfUpdate(was, i, 0);
  }

  lemma ScatterStep(row: seq<int32>, was: seq<int32>, i: nat, j: nat, temp: int32, bound: nat)
    requires Scattered(row, was, i, j, temp, bound) && temp > 0 && bound + 9 < 0x8000_0000
    requires Value(was) < Pow10(|was|)
    ensures j <= i && 0 <= row[i - j] as int <= bound
    ensures Scattered(row[i - j := row[i - j] + temp % 10], was, i, j + 1, temp / 10, bound)
  {
    var w := |row| - 1 - i + j;
    NonNegative(row);
    DigitFits(temp as int, w, |row|, Value(row), Value(was));
    PlaceDigit(row, i - j, row[i - j] + temp % 10, temp as int, w);
  }

  lemma ScatterEnd(row: seq<int32>, was: seq<int32>, i: nat, j: nat, bound: nat)
    requires Scattered(row, was, i, j, 0, bound)
    ensures Value(row) == Value(was) && CarriedFrom(row, i, bound + 9)
  {
  }

  /** The inner carry loop: spreads the decimal digits of cell `i` over the cells to its left. There is
      no bounds test on `i - j`; the value bound is what keeps it non-negative. */
  method Scatter(cells: array<int32>, N: nat, i: nat, ghost bound: nat)
    requires i < N <= cells.Length && bound + 9 < 0x8000_0000
    requires CarriedFrom(cells[..N], i + 1, bound) && Value(cells[..N]) < Pow10(N)
    modifies cells
    ensures Value(cells[..N]) == old(Value(cells[..N]))
    ensures CarriedFrom(cells[..N], i, bound + 9)
  {
    ghost var was := cells[..N];
    ghost var row := was[i := 0];
    ScatterStart(was, i, bound);
    var temp := cells[i];
    cells[i] := 0;
    var j := 0;
    while temp > 0
      invariant 0 <= j && cells[..N] == row && Scattered(row, was, i, j, temp, bound)
      decreases temp
    {
      ScatterStep(row, was, i, j, temp, bound);
      row := row[i - j := row[i - j] + temp % 10];
      cells[i - j] := cells[i - j] + temp % 10;
      temp := temp / 10;
      j := j + 1;
    }
    ScatterEnd(row, was, i, j, bound);
  }

  /** A digit still to be placed has a weight below 10^N, so its cell exists. */
  lemma DigitFits(temp: int, w: nat, N: nat, placed: int, product: int)
    requires temp > 0 && placed >= 0 && placed + temp * Pow10(w) == product < Pow10(N)
    ensures w < N
  {
    var p := Pow10(w);
    AtLeastFactor(temp, p);
    if w >= N {
      PowMonotone(N, w);
    }
  }

  lemma AtLeastFactor(a: int, p: int)
    requires a > 0 && p > 0
    ensures a * p >= p
  {
  }

  /** Moving the last digit of `temp` into its cell keeps the total. */
  lemma PlaceDigit(was: seq<int32>, k: nat, x: int32, temp: int, w: nat)
    requires k < |was| && w == |was| - 1 - k && temp >= 0 && x as int == was[k] as int + temp % 10
    ensures Value(was[k := x]) + temp / 10 * Pow10(w + 1) == Value(was) + temp * Pow10(w)
  {
    ValueOfUpdate(was, k, x);
    SplitDigit(temp / 10, temp % 10, Pow10(w));
  }

  lemma SplitDigit(q: int, r: int, p: int)
    ensures (10 * q + r) * p == r * p + q * (10 * p)
  {
  }

  /** Why the digits of cell `i` fit into the cells 0 to `i`: in a row worth less than 10^N it holds less
      than 10^(i+1), whatever the other cells hold. */
  lemma CellHasRoom(row: seq<int32>, i: nat)
    requires i < |row| && Value(row) < Pow10(|row|) && forall k :: 0 <= k < |row| ==> row[k] >= 0
    ensures row[i] as int < Pow10(i + 1)
  {
    var p := Pow10(|row| - 1 - i);
    CellBelowValue(row, i);
    PowAdds(i + 1, |row| - 1 - i);
    LessFactor(row[i] as int, Pow10(i + 1), p);
  }

  lemma LessFactor(a: int, b: int, p: int)
    requires p > 0 && a * p < b * p
    ensures a < b
  {
  }

  /** The carry pass: the value stays, every cell becomes a digit. */
  method Carry(cells: array<int32>, N: nat)
    requires N <= 2 * MAX_LEN == cells.Length
    requires CarriedFrom(cells[..N], N, 81 * MAX_LEN) && Value(cells[..N]) < Pow10(N)
    modifies cells
    ensures Value(cells[..N]) == old(Value(cells[..N]))
    ensures DigitCells(cells[..N])
  {
    var i := N;
    while i > 0
      invariant 0 <= i <= N
      invariant Value(cells[..N]) == old(Value(cells[..N]))
      invariant CarriedFrom(cells[..N], i, 81 * MAX_LEN + 9 * (N - i))
    {
      i := i - 1;
      Scatter(cells, N, i, 81 * MAX_LEN + 9 * (N - 1 - i));
    }
  }

  /** The product of the magnitudes; it has at most as many digits as the factors together. */
  function Product(num1: string, num2: string): (v: nat)
    requires AllDigits(num1) && AllDigits(num2)
    ensures v < Pow10(|num1| + |num2|)
  {
    ProductBelowPower(num1, num2);
    Magnitude(num1) * Magnitude(num2)
  }

  /** A minus sign costs an input character, so the output and its terminator fit the result buffer. */
  lemma OutputFits(str1: string, str2: string, num1: string, num2: string)
    requires |str1| <= 256 && |str2| <= 256
    requires Canonical(num1) && |num1| <= |str1| && (SignOf(str1) < 0 ==> |num1| < |str1|)
    requires Canonical(num2) && |num2| <= |str2| && (SignOf(str2) < 0 ==> |num2| < |str2|)
    ensures |Shown(SignOf(str1) * SignOf(str2), Product(num1, num2))| + 1 <= 513 == 2 * MAX_LEN + 1
  {
    DecimalLength(Product(num1, num2), |num1| + |num2|);
  }

  // ---------- printing ----------

  /** What the multiplication writes: nothing but a sign for two empty factors. */
  function ProductText(sign: int, width: nat, v: nat): string {
    if width == 0 then Minus(sign) else Shown(sign, v)
  }

  /** The scan over leading zeros; it stops at the last cell at the latest. */
  method FirstDigit(cells: array<int32>, N: nat) returns (i: nat)
    requires 0 < N <= cells.Length
    ensures i < N && (i == N - 1 || cells[i] != 0)
    ensures forall k :: 0 <= k < i ==> cells[k] == 0
  {
    i := 0;
    while i < N - 1
      invariant i < N
      invariant forall k :: 0 <= k < i ==> cells[k] == 0
    {
      if cells[i] != 0 {
        break;
      }
      i := i + 1;
    }
  }

  method WriteDigits(cells: array<int32>, first: nat, N: nat, result: array<char>, at: nat) returns (j: nat)
    requires first <= N <= cells.Length && DigitCells(cells[first..N]) && result.Length >= at + N - first
    modifies result
    ensures j == at + N - first
    ensures result[..] == old(result[..at]) + Chars(cells[first..N]) + old(result[j..])
  {
    ghost var text := Chars(cells[first..N]);
    var i := first;
    j := at;
    while i < N
      invariant first <= i <= N && j == at + i - first
      invariant result[..] == old(result[..at]) + text[..i - first] + old(result[..])[j..]
    {
      assert cells[first..N][i - first] == cells[i];
      result[j] := CharOf(cells[i]);
      i := i + 1;
      j := j + 1;
    }
  }

  lemma StripZeros(s: seq<int32>, first: nat)
    requires first < |s| && DigitCells(s) && (first == |s| - 1 || s[first] != 0)
    requires forall k :: 0 <= k < first ==> s[k] == 0
    ensures Value(s) >= 0 && Chars(s[first..]) == Decimal(Value(s))
  {
    ZerosInFront(s, first);
    NonNegative(s);
    CharsAreDecimal(s[first..]);
  }

  /** The printing part: the sign, then the digits from the first non-zero one (or the last) on. */
  method WriteProduct(cells: array<int32>, N: nat, sign: int, result: array<char>) returns (j: nat)
    requires N <= cells.Length && DigitCells(cells[..N]) && result.Length >= N + |Minus(sign)|
    modifies result
    ensures Value(cells[..N]) >= 0
    ensures var text := ProductText(sign, N, Value(cells[..N]));
      j == |text| <= N + |Minus(sign)| && result[..] == text + old(result[..])[j..]
  {
    DigitsBelowPower(cells[..N]);
    j := 0;
    if sign < 0 {
      result[j] := '-';
      j := 1;
    }
    assert result[..j] == Minus(sign) && result[j..] == old(result[..])[j..];
    if N > 0 {
      var i := FirstDigit(cells, N);
      StripZeros(cells[..N], i);
      assert cells[..N][i..] == cells[i..N];
      j := WriteDigits(cells, i, N, result, j);
    }
  }

  /** The text of a product needs at most one character for each digit of the factors, and the sign. */
  lemma TextLength(num1: string, num2: string, sign: int)
    requires AllDigits(num1) && AllDigits(num2)
    ensures |ProductText(sign, |num1| + |num2|, Product(num1, num2))| <= |num1| + |num2| + |Minus(sign)|
  {
    if |num1| + |num2| > 0 {
      DecimalLength(Product(num1, num2), |num1| + |num2|);
    }
  }

  lemma ReadyToCarry(num1: string, num2: string, row: seq<int32>)
    requires AllDigits(num1) && AllDigits(num2) && |num1| <= MAX_LEN
    requires |row| == |num1| + |num2| && Value(row) == Magnitude(num1) * Magnitude(num2)
    requires forall k :: 0 <= k < |row| ==> 0 <= row[k] as int <= 81 * |num1|
    ensures CarriedFrom(row, |row|, 81 * MAX_LEN) && Value(row) == Product(num1, num2) < Pow10(|row|)
  {
  }

  /** Convolution and carry: the digits of the product. */
  method ProductCells(num1: string, num2: string) returns (tempResult: array<int32>)
    requires AllDigits(num1) && AllDigits(num2) && |num1| <= MAX_LEN && |num2| <= MAX_LEN
    ensures fresh(tempResult) && tempResult.Length == 2 * MAX_LEN
    ensures var row := tempResult[..|num1| + |num2|]; DigitCells(row) && Value(row) == Product(num1, num2)
  {
    tempResult := new int32[2 * MAX_LEN](_ => 0);
    Convolve(num1, num2, tempResult);
    ReadyToCarry(num1, num2, tempResult[..|num1| + |num2|]);
    Carry(tempResult, |num1| + |num2|);
  }

  /** Convolution, carry and printing, up to the terminator. */
  method WriteMultiplication(num1: string, num2: string, sign: int, result: array<char>) returns (j: nat)
    requires AllDigits(num1) && AllDigits(num2) && |num1| <= MAX_LEN && |num2| <= MAX_LEN
    requires result.Length >= |num1| + |num2| + |Minus(sign)|
    modifies result
    ensures var text := ProductText(sign, |num1| + |num2|, Product(num1, num2));
      j == |text| <= |num1| + |num2| + |Minus(sign)| && result[..] == text + old(result[..])[j..]
  {
    var tempResult := ProductCells(num1, num2);
    j := WriteProduct(tempResult, |num1| + |num2|, sign, result);
  }

  /** The function as written: the terminator goes to cell n+m, whatever was printed. */
  method BigIntMultiplication(num1: string, num2: string, sign: int, result: array<char>)
    requires AllDigits(num1) && AllDigits(num2) && |num1| <= MAX_LEN && |num2| <= MAX_LEN
    requires result.Length >= |num1| + |num2| + 1
    modifies result
    ensures |ProductText(sign, |num1| + |num2|, Product(num1, num2))| <= |num1| + |num2| + 1
    ensures result[..] ==
      if sign == 0 then old(result[..])
      else Terminated(old(result[..]), ProductText(sign, |num1| + |num2|, Product(num1, num2)), |num1| + |num2|)
  {
    TextLength(num1, num2, sign);
    if sign == 0 {
      return;
    }
    var j := WriteMultiplication(num1, num2, sign, result);
    result[|num1| + |num2|] := '\0';
  }

  /** The function as intended: the terminator follows the last printed digit. */
  method BigIntMultiplicationIntended(num1: string, num2: string, sign: int, result: array<char>)
    requires AllDigits(num1) && AllDigits(num2) && |num1| <= MAX_LEN && |num2| <= MAX_LEN
    requires sign != 0 && result.Length >= |num1| + |num2| + |Minus(sign)| + 1
    modifies result
    ensures CStr(result[..]) == ProductText(sign, |num1| + |num2|, Product(num1, num2))
  {
    var j := WriteMultiplication(num1, num2, sign, result);
    result[j] := '\0';
    ghost var text := ProductText(sign, |num1| + |num2|, Product(num1, num2));
    assert result[..j] == text;
    NoTerminatorInside(sign, |num1| + |num2|, Product(num1, num2));
    CStrIs(result[..], j);
  }

  /** A buffer after a text was written to its front and a '\0' to cell `at`. */
  function Terminated(buf: seq<char>, text: string, at: nat): (r: seq<char>)
    requires |text| <= |buf| && at < |buf|
  {
    (text + buf[|text|..])[at := '\0']
  }

  lemma NoTerminatorInside(sign: int, width: nat, v: nat)
    ensures '\0' !in ProductText(sign, width, v)
  {
    var d := Decimal(v);
    assert forall i :: 0 <= i < |d| ==> IsDigit(d[i]);
  }

  /** Whether a given earlier content of the buffer shows the text when the terminator is at `at`. */
  lemma TerminatorShows(buf: seq<char>, text: string, at: nat)
    requires |text| <= at + 1 <= |buf| && '\0' !in text
    ensures CStr(Terminated(buf, text, at)) == text <==>
      |text| == at || (|text| < at && buf[|text|] == '\0')
  {
    var r := Terminated(buf, text, at);
    if |text| > at {
      assert r[at] == '\0';
    } else if |text| == at || buf[|text|] == '\0' {
      assert r[..|text|] == text;
      CStrIs(r, |text|);
    } else {
      assert r[|text|] != '\0';
    }
  }

  /** The exact condition, on the factors alone, for the terminator to fall behind the last digit. */
  predicate TerminatorInPlace(sign: int, v: nat, width: nat)
    requires width > 1
  {
    if sign < 0 then v < Pow10(width - 1) && (width == 2 || v >= Pow10(width - 2))
    else v >= Pow10(width - 1)
  }

  lemma InPlaceIffWidth(sign: int, v: nat, width: nat)
    requires width > 1 && v < Pow10(width)
    ensures TerminatorInPlace(sign, v, width) <==> |Shown(sign, v)| == width
    ensures |Shown(sign, v)| <= width + 1
  {
    DecimalLength(v, width);
    DecimalLength(v, width - 1);
    if width > 2 { DecimalLength(v, width - 2); }
  }

  /** Every earlier content of the buffer gives the right text if and only if the sign and the size of
      the product fit: one leading zero with a minus sign, none without. */
  lemma LiteralCorrectIff(sign: int, v: nat, width: nat)
    requires 1 < width <= 2 * MAX_LEN && v < Pow10(width)
    ensures |Shown(sign, v)| <= width + 1
    ensures TerminatorInPlace(sign, v, width) <==>
      forall buf: seq<char> | |buf| == 2 * MAX_LEN + 1 :: CStr(Terminated(buf, Shown(sign, v), width)) == Shown(sign, v)
  {
    var text := Shown(sign, v);
    InPlaceIffWidth(sign, v, width);
    NoTerminatorInside(sign, width, v);
    forall buf: seq<char> | |buf| == 2 * MAX_LEN + 1
      ensures CStr(Terminated(buf, text, width)) == text <==> |text| == width || (|text| < width && buf[|text|] == '\0')
    {
      TerminatorShows(buf, text, width);
    }
    var stale := seq(2 * MAX_LEN + 1, _ => '?');
    assert CStr(Terminated(stale, text, width)) == text <==> |text| == width;
  }

  /** A product the program prints wrongly from any buffer: -9 times 9 comes out as -8. */
  lemma LosesLastDigit(buf: seq<char>)
    requires |buf| == 2 * MAX_LEN + 1
    ensures Denotes("-9") * Denotes("9") == -81 && ProductText(-1, 2, Product("9", "9")) == "-81"
    ensures CStr(Terminated(buf, ProductText(-1, 2, Product("9", "9")), 2)) == "-8"
  {
    assert Cells("9") == [9] && Value([9]) == 9;
    assert "-9"[1..] == "9";
    assert Decimal(81) == Decimal(8) + ['1'];
    var r := Terminated(buf, "-81", 2);
    assert r[..2] == "-8";
    CStrIs(r, 2);
  }

  /** The table of one-digit products, in the characters themselves. */
  lemma DigitProducts(a: nat, b: nat)
    requires a < 10 && b < 10
    ensures var digits := "0123456789";
      ProductText(1, 2, Product([digits[a]], [digits[b]])) ==
        (if a * b < 10 then "" else [digits[a * b / 10]]) + [digits[a * b % 10]]
  {
    var digits, v := "0123456789", a * b;
    OneDigit(a);
    OneDigit(b);
    DigitProduct(a as int32, b as int32);
    assert Product([digits[a]], [digits[b]]) == v;
    TwoDigits(v);
    assert Minus(1) + Decimal(v) == Decimal(v);
  }

  lemma OneDigit(d: nat)
    requires d < 10
    ensures AllDigits(["0123456789"[d]]) && Magnitude(["0123456789"[d]]) == d
  {
    DigitNotation("", d);
    assert "" + ["0123456789"[d]] == ["0123456789"[d]];
  }

  lemma TwoDigits(v: nat)
    requires v < 100
    ensures Decimal(v) == (if v < 10 then "" else ["0123456789"[v / 10]]) + ["0123456789"[v % 10]]
  {
    DecimalNotation(v);
    if v >= 10 {
      DecimalNotation(v / 10);
      assert "" + ["0123456789"[v / 10]] == ["0123456789"[v / 10]];
    }
  }

  // ---------- the program ----------

  /** The part of a line before its newline. */
  function FirstLine(s: string): (t: string)
    ensures |t| <= |s|
  {
    if s == [] || s[0] == '\n' then [] else [s[0]] + FirstLine(s[1..])
  }

  lemma {:induction false} FirstLineIs(s: string, k: nat)
    requires k <= |s| && '\n' !in s[..k] && (k == |s| || s[k] == '\n')
    ensures FirstLine(s) == s[..k]
  {
    if k > 0 {
      assert s[..k][0] == s[0];
      assert s[1..][..k - 1] == s[..k][1..];
      FirstLineIs(s[1..], k - 1);
    }
  }

  method DelNewlineChar(str: array<char>)
    requires '\0' in str[..]
    modifies str
    ensures '\0' in str[..]
    ensures CStr(str[..]) == FirstLine(old(CStr(str[..])))
  {
    ghost var line := CStr(str[..]);
    var len := |CStr(str[..])|;
    var i := 0;
    while i < len
      invariant 0 <= i <= len && str[..] == old(str[..]) && '\n' !in line[..i]
    {
      if str[i] == '\n' {
        str[i] := '\0';
        assert str[..i] == line[..i];
        CStrIs(str[..], i);
        FirstLineIs(line, i);
        assert str[i] in str[..];
        return;
      }
      i := i + 1;
    }
    FirstLineIs(line, len);
  }

  /** How the sign and the number of digits of the two factors are counted: leading zeros do not count. */
  function ProductSign(s1: string, s2: string): (sign: int)
    ensures sign == 1 || sign == -1
  {
    SignOf(s1) * SignOf(s2)
  }

  function Size(s: string): nat
    requires IsInteger(s)
  {
    DigitsBelowPower(Cells(Body(s)));
    Magnitude(Body(s))
  }

  function Width(s1: string, s2: string): nat
    requires IsInteger(s1) && IsInteger(s2)
  {
    |Decimal(Size(s1))| + |Decimal(Size(s2))|
  }

  /** The output of the program as written for a product `v`: it is the product in decimal exactly when
      the terminator lands behind it, or the cell behind it held a '\0' before. */
  ghost predicate Printed(sign: int, v: nat, width: nat, stale: seq<char>, printed: string)
    requires width > 1
  {
    var text := Shown(sign, v);
    && |text| <= width + 1 <= |stale|
    && printed == CStr(Terminated(stale, text, width))
    && (printed == text <==> TerminatorInPlace(sign, v, width) || (|text| < width && stale[|text|] == '\0'))
  }

  lemma PrintedFrom(sign: int, v: nat, width: nat, stale: seq<char>)
    requires 1 < width < |stale| && v < Pow10(width)
    ensures |Shown(sign, v)| <= width + 1
    ensures Printed(sign, v, width, stale, CStr(Terminated(stale, Shown(sign, v), width)))
  {
    InPlaceIffWidth(sign, v, width);
    NoTerminatorInside(sign, width, v);
    TerminatorShows(stale, Shown(sign, v), width);
  }

  /** The parsed magnitudes are the decimal notations of the sizes of the inputs. */
  lemma ParsedSize(s: string, num: string)
    requires IsInteger(s) && Canonical(num) && Denotes(s) == WithSign(SignOf(s), Magnitude(num))
    ensures Size(s) == Magnitude(num) && |num| == |Decimal(Size(s))|
  {
    CanonicalIsDecimal(num);
  }

  /** The text meant for the product denotes the product of what the inputs denote. */
  lemma ProductDenotes(s1: string, s2: string)
    requires IsInteger(s1) && IsInteger(s2)
    ensures Size(s1) * Size(s2) >= 0
    ensures IsInteger(Shown(ProductSign(s1, s2), Size(s1) * Size(s2)))
    ensures Denotes(Shown(ProductSign(s1, s2), Size(s1) * Size(s2))) == Denotes(s1) * Denotes(s2)
  {
    SignedProduct(SignOf(s1), Size(s1), SignOf(s2), Size(s2));
    ShownParses(ProductSign(s1, s2), Size(s1) * Size(s2));
  }

  lemma SignedProduct(a: int, x: nat, b: int, y: nat)
    requires (a == 1 || a == -1) && (b == 1 || b == -1)
    ensures WithSign(a * b, x * y) == WithSign(a, x) * WithSign(b, y)
  {
  }

  /** One input line: newline removed, then parsed. */
  method ReadInteger(line: array<char>) returns (ok: bool, sign: int, num: string)
    requires line.Length == MAX_LEN + 1 && '\0' in line[..]
    modifies line
    ensures var s := FirstLine(old(CStr(line[..])));
      && (ok <==> IsInteger(s))
      && (ok ==> sign == SignOf(s) && Parsed(s, num))
  {
    DelNewlineChar(line);
    var err;
    err, sign, num := AnalysisBigIntString(CStr(line[..]));
    ok := err == 0;
    if ok {
      ParsedSize(CStr(line[..]), num);
    }
  }

  lemma SameProduct(num1: string, num2: string, s1: string, s2: string)
    requires AllDigits(num1) && AllDigits(num2) && IsInteger(s1) && IsInteger(s2)
    requires Magnitude(num1) == Size(s1) && Magnitude(num2) == Size(s2)
    ensures Product(num1, num2) == Size(s1) * Size(s2)
  {
  }

  /** What the parser hands on for an input string. */
  ghost predicate Parsed(s: string, num: string) {
    && IsInteger(s) && AllDigits(num) && Magnitude(num) == Size(s)
    && 0 < |num| == |Decimal(Size(s))| <= MAX_LEN
  }

  /** The multiplication as written, and the string then found in its buffer. */
  method MultiplyAndShow(num1: string, num2: string, sign: int, result: array<char>, ghost s1: string, ghost s2: string)
    returns (printed: string)
    requires Parsed(s1, num1) && Parsed(s2, num2) && sign == ProductSign(s1, s2) && result.Length == 2 * MAX_LEN + 1
    modifies result
    ensures Printed(sign, Size(s1) * Size(s2), Width(s1, s2), old(result[..]), printed)
  {
    ghost var stale := result[..];
    BigIntMultiplication(num1, num2, sign, result);
    printed := CStr(result[..]);
    PrintedFrom(sign, Product(num1, num2), |num1| + |num2|, stale);
    SameProduct(num1, num2, s1, s2);
  }

  /** The whole program on two input lines, the buffers as fgets leaves them; `ok` is false where the
      program reports a format error and exits. */
  method MultiplyLines(line1: array<char>, line2: array<char>, result: array<char>)
    returns (ok: bool, printed: string)
    requires line1.Length == line2.Length == MAX_LEN + 1 && '\0' in line1[..] && '\0' in line2[..]
    requires result.Length == 2 * MAX_LEN + 1
    requires line1 != line2 && line1 != result && line2 != result
    modifies line1, line2, result
    ensures var s1, s2 := FirstLine(old(CStr(line1[..]))), FirstLine(old(CStr(line2[..])));
      && (ok <==> IsInteger(s1) && IsInteger(s2))
      && (ok ==> Printed(ProductSign(s1, s2), Size(s1) * Size(s2), Width(s1, s2), old(result[..]), printed))
  {
    ghost var s1, s2 := FirstLine(CStr(line1[..])), FirstLine(CStr(line2[..]));
    ok, printed := false, "";
    var ok1, sign1, num1 := ReadInteger(line1);
    if !ok1 {
      return;
    }
    var ok2, sign2, num2 := ReadInteger(line2);
    if !ok2 {
      return;
    }
    printed := MultiplyAndShow(num1, num2, sign1 * sign2, result, s1, s2);
    ok := true;
  }
}
