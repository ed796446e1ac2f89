/**
 * Go's 64-bit signed integers and the parts of the `strconv`/`fmt` packages the
 * authorization code relies on: `strconv.ParseInt(s, 10, 64)` and the `%d` verb.
 */
module GoStrconv {
  import opened Wrappers

  const MinInt64: int := -0x8000_0000_0000_0000
  const MaxInt64: int := 0x7fff_ffff_ffff_ffff
  const MaxUint64: int := 0xffff_ffff_ffff_ffff

  /** Go's `int64` (and `int`, which is 64 bits wide on the platforms the code targets). */
  type Int64 = x: int | MinInt64 <= x <= MaxInt64

  /** Two's-complement wrap-around of an out-of-range result into `int64`, as Go's arithmetic does. */
  function Wrap64(x: int): (r: Int64)
    ensures MinInt64 <= x <= MaxInt64 ==> r == x
    ensures (r - x) % 0x1_0000_0000_0000_0000 == 0
  {
    (x - MinInt64) % 0x1_0000_0000_0000_0000 + MinInt64
  }

  /** The two failures `strconv.ParseInt` reports (`strconv.ErrSyntax`, `strconv.ErrRange`). */
  datatype NumError = ErrSyntax | ErrRange

  predicate IsDigit(c: char)
  {
    '0' <= c <= '9'
  }

  predicate AllDigits(s: string)
  {
    forall i :: 0 <= i < |s| ==> IsDigit(s[i])
  }

  function DigitValue(c: char): (d: nat)
    requires IsDigit(c)
    ensures d < 10
  {
    (c as int) - ('0' as int)
  }

  function DigitChar(d: nat): (c: char)
    requires d < 10
    ensures IsDigit(c) && DigitValue(c) == d
  {
    (('0' as int) + d) as char
  }

  /** The value of a string of decimal digits, most significant first (the empty string is 0). */
  function Value(s: string): nat
    requires AllDigits(s)
  {
    if s == [] then 0 else Value(s[..|s| - 1]) * 10 + DigitValue(s[|s| - 1])
  }

  /**
   * The reference syntax of a base-10 integer literal: an optional `+` or `-`
   * followed by one or more decimal digits.
   */
  predicate IsDecimal(s: string)
  {
    if |s| >= 1 && (s[0] == '+' || s[0] == '-') then |s| >= 2 && AllDigits(s[1..])
    else |s| >= 1 && AllDigits(s)
  }

  /** The mathematical value a decimal literal denotes. */
  function DecimalValue(s: string): int
    requires IsDecimal(s)
  {
    if s[0] == '-' then 0 - Value(s[1..])
    else if s[0] == '+' then Value(s[1..])
    else Value(s)
  }

  /**
   * The digit loop of Go's `strconv.ParseUint(s, 10, 64)` after `acc` has been
   * accumulated: a non-digit is a syntax error, and the first digit that takes the
   * accumulated value above the largest `uint64` is a range error.
   */
  function ScanUint(s: string, acc: nat): Result<nat, NumError>
    requires acc <= MaxUint64
    decreases |s|
  {
    if s == [] then Success(acc)
    else if !IsDigit(s[0]) then Failure(ErrSyntax)
    else
      var n := acc * 10 + DigitValue(s[0]);
      if n > MaxUint64 then Failure(ErrRange) else ScanUint(s[1..], n)
  }

  /** Go's `strconv.ParseUint(s, 10, 64)`. */
  function ParseUint(s: string): Result<nat, NumError>
  {
    if s == "" then Failure(ErrSyntax) else ScanUint(s, 0)
  }

  /** The value the digit loop would reach with no overflow check, starting from `acc`. */
  function Fold(acc: nat, s: string): nat
    requires AllDigits(s)
    decreases |s|
  {
    if s == [] then acc else Fold(acc * 10 + DigitValue(s[0]), s[1..])
  }

  lemma {:induction false} FoldGrows(acc: nat, s: string)
    requires AllDigits(s)
    ensures Fold(acc, s) >= acc
    decreases |s|
  {
    if s != [] {
      FoldGrows(acc * 10 + DigitValue(s[0]), s[1..]);
    }
  }

  lemma {:induction false} FoldSnoc(acc: nat, s: string, c: char)
    requires AllDigits(s) && IsDigit(c)
    ensures AllDigits(s + [c])
    ensures Fold(acc, s + [c]) == Fold(acc, s) * 10 + DigitValue(c)
    decreases |s|
  {
    if s != [] {
      assert (s + [c])[1..] == s[1..] + [c];
      FoldSnoc(acc * 10 + DigitValue(s[0]), s[1..], c);
    }
  }

  /** Scanning from the left computes the same number as `Value`. */
  lemma {:induction false} FoldIsValue(s: string)
    requires AllDigits(s)
    ensures Fold(0, s) == Value(s)
    decreases |s|
  {
    if s != [] {
      var init := s[..|s| - 1];
      FoldIsValue(init);
      FoldSnoc(0, init, s[|s| - 1]);
      assert init + [s[|s| - 1]] == s;
    }
  }

  /** On digits only, the digit loop succeeds exactly when the value fits in `uint64`. */
  lemma {:induction false} ScanDigits(s: string, acc: nat)
    requires AllDigits(s) && acc <= MaxUint64
    ensures ScanUint(s, acc) == if Fold(acc, s) <= MaxUint64 then Success(Fold(acc, s)) else Failure(ErrRange)
    decreases |s|
  {
    if s != [] {
      var n := acc * 10 + DigitValue(s[0]);
      FoldGrows(n, s[1..]);
      if n <= MaxUint64 {
        ScanDigits(s[1..], n);
      }
    }
  }

  /** A non-digit anywhere makes the digit loop fail. */
  lemma {:induction false} ScanNonDigit(s: string, acc: nat)
    requires !AllDigits(s) && acc <= MaxUint64
    ensures ScanUint(s, acc).Failure?
    decreases |s|
  {
    if IsDigit(s[0]) {
      var n := acc * 10 + DigitValue(s[0]);
      if n <= MaxUint64 {
        assert !AllDigits(s[1..]) by {
          var i :| 0 <= i < |s| && !IsDigit(s[i]);
          assert s[1..][i - 1] == s[i];
        }
        ScanNonDigit(s[1..], n);
      }
    }
  }

  /** `ParseUint` succeeds exactly on non-empty digit strings whose value fits in `uint64`. */
  lemma ParseUintSpec(s: string)
    ensures ParseUint(s).Success? <==> s != "" && AllDigits(s) && Value(s) <= MaxUint64
    ensures ParseUint(s).Success? ==> ParseUint(s).value == Value(s)
    ensures s != "" && AllDigits(s) && Value(s) > MaxUint64 ==> ParseUint(s) == Failure(ErrRange)
  {
    if s != "" {
      if AllDigits(s) {
        ScanDigits(s, 0);
        FoldIsValue(s);
      } else {
        ScanNonDigit(s, 0);
      }
    }
  }

  /**
   * Go's `strconv.ParseInt(s, 10, 64)`: strip one optional sign, parse the rest as
   * an unsigned number, then check the signed range. A syntax error from the
   * unsigned parse is reported as such; an unsigned overflow becomes a range error.
   */
  function ParseInt(s: string): (r: Result<Int64, NumError>)
    ensures r.Success? <==> IsDecimal(s) && MinInt64 <= DecimalValue(s) <= MaxInt64
    ensures r.Success? ==> r.value == DecimalValue(s)
  {
    if s == "" then Failure(ErrSyntax)
    else
      var neg := s[0] == '-';
      var body := if s[0] == '+' || s[0] == '-' then s[1..] else s;
      var un := ParseUint(body);
      ParseUintSpec(body);
      if un.Failure? && un.error == ErrSyntax then Failure(ErrSyntax)
      else
        var u := if un.Failure? then MaxUint64 else un.value;
        if !neg && u >= 0x8000_0000_0000_0000 then Failure(ErrRange)
        else if neg && u > 0x8000_0000_0000_0000 then Failure(ErrRange)
        else Success(if neg then 0 - u else u)
  }

  /** A word is a syntax error, not a range error. */
  lemma ParseIntRejectsWord()
    ensures ParseInt("nonumber") == Failure(ErrSyntax)
  {
    assert !IsDigit("nonumber"[0]);
  }

  /** The decimal digits of `n`, without leading zeros. */
  function NatDigits(n: nat): (s: string)
    ensures |s| >= 1 && AllDigits(s) && Value(s) == n
    ensures n == 0 || s[0] != '0'
    decreases n
  {
    if n < 10 then
      var s := [DigitChar(n)];
      assert s[..0] == [];
      s
    else
      var init := NatDigits(n / 10);
      var s := init + [DigitChar(n % 10)];
      assert s[..|s| - 1] == init;
      assert s[0] == init[0];
      s
  }

  /** Go's `fmt.Sprintf("%d", n)` for an `int64`. */
  function FormatInt(n: Int64): (s: string)
    ensures IsDecimal(s) && DecimalValue(s) == n
    ensures s[0] != '+'
    ensures forall i :: 0 <= i < |s| ==> IsDigit(s[i]) || s[i] == '-'
    ensures s[0] == '0' ==> s == "0"
    ensures s[0] == '-' ==> |s| >= 2 && s[1] != '0'
  {
    if n < 0 then
      var s := "-" + NatDigits(-(n as int));
      assert s[1..] == NatDigits(-(n as int));
      s
    else NatDigits(n)
  }

  /** Parsing what `%d` prints gives back the number. */
  lemma ParseFormat(n: Int64)
    ensures ParseInt(FormatInt(n)) == Success(n)
  {
  }
}
