/** The printers and parsers of Go's `strconv` package that the configuration file and the timestamps go through. */
module Strconv {
  import opened Wrappers

  const MAX_UINT64: int := 0xFFFF_FFFF_FFFF_FFFF
  const MAX_INT64: int := 0x7FFF_FFFF_FFFF_FFFF
  const MIN_INT64: int := -0x8000_0000_0000_0000

  type int64 = x: int | MIN_INT64 <= x <= MAX_INT64

  datatype NumError = Syntax | Range

  predicate IsDigit(c: char) {
    '0' <= c <= '9'
  }

  ghost predicate AllDigits(s: string) {
    forall i :: 0 <= i < |s| ==> IsDigit(s[i])
  }

  function DigitValue(c: char): (d: nat)
    requires IsDigit(c)
    ensures d < 10
  {
    c as int - '0' as int
  }

  function DigitChar(d: nat): (c: char)
    requires d < 10
    ensures IsDigit(c) && DigitValue(c) == d
  {
    ('0' as int + d) as char
  }

  function FormatUint(n: nat): (s: string)
    ensures s != "" && AllDigits(s)
  {
    if n < 10 then [DigitChar(n)] else FormatUint(n / 10) + [DigitChar(n % 10)]
  }

  /** strconv.FormatInt in base 10, and strconv.Itoa. */
  function FormatInt(n: int64): string {
    if n < 0 then "-" + FormatUint(-(n as int)) else FormatUint(n)
  }

  datatype Scan = Value(n: nat) | Failed(err: NumError)

  /** The digit loop of strconv.ParseUint: the first offending character decides between Syntax and Range. */
  function ScanUint(s: string, acc: nat): Scan {
    if s == "" then Value(acc)
    else if !IsDigit(s[0]) then Failed(Syntax)
    else if acc * 10 + DigitValue(s[0]) > MAX_UINT64 then Failed(Range)
    else ScanUint(s[1..], acc * 10 + DigitValue(s[0]))
  }

  /** What strconv.ParseInt returns; on a range error `n` is the nearest bound, on a syntax error it is 0. */
  datatype Parsed = Parsed(n: int64, err: Option<NumError>)

  /** strconv.ParseInt(s, 10, 64), and strconv.Atoi on a 64-bit platform. */
  function ParseInt(s: string): Parsed {
    if s == "" then Parsed(0, Some(Syntax))
    else
      var neg := s[0] == '-';
      var body := if s[0] == '-' || s[0] == '+' then s[1..] else s;
      if body == "" then Parsed(0, Some(Syntax))
      else match ScanUint(body, 0)
           case Failed(Syntax) => Parsed(0, Some(Syntax))
           case Failed(Range) => Parsed(if neg then MIN_INT64 else MAX_INT64, Some(Range))
           case Value(n) =>
             if !neg && n > MAX_INT64 then Parsed(MAX_INT64, Some(Range))
             else if neg && n > -MIN_INT64 then Parsed(MIN_INT64, Some(Range))
             else Parsed(if neg then -(n as int) else n, None)
  }

  /** strconv.FormatBool. */
  function FormatBool(b: bool): string {
    if b then "true" else "false"
  }

  /** strconv.ParseBool. */
  function ParseBool(s: string): Option<bool> {
    if s in ["1", "t", "T", "true", "TRUE", "True"] then Some(true)
    else if s in ["0", "f", "F", "false", "FALSE", "False"] then Some(false)
    else None
  }

  lemma {:induction false} ScanConcat(a: string, b: string, acc: nat)
    ensures ScanUint(a + b, acc) ==
            match ScanUint(a, acc) { case Failed(e) => Failed(e) case Value(n) => ScanUint(b, n) }
  {
    if a == "" {
      assert a + b == b;
    } else {
      assert (a + b)[1..] == a[1..] + b;
      if IsDigit(a[0]) {
        ScanConcat(a[1..], b, acc * 10 + DigitValue(a[0]));
      }
    }
  }

  lemma {:induction false} ScanFormatUint(n: nat)
    requires n <= MAX_UINT64
    ensures ScanUint(FormatUint(n), 0) == Value(n)
  {
    if n >= 10 {
      ScanFormatUint(n / 10);
      ScanConcat(FormatUint(n / 10), [DigitChar(n % 10)], 0);
      assert ScanUint([DigitChar(n % 10)], n / 10) == ScanUint("", n);
    } else {
      assert ScanUint([DigitChar(n)], 0) == ScanUint("", n);
    }
  }

  /** Printing an integer and parsing the text gives the integer back, over the whole 64-bit range. */
  lemma ParseFormatInt(n: int64)
    ensures ParseInt(FormatInt(n)) == Parsed(n, None)
  {
    var u := if n < 0 then -(n as int) else n;
    ScanFormatUint(u);
    if n < 0 {
      assert FormatInt(n)[1..] == FormatUint(u);
    } else {
      assert IsDigit(FormatUint(u)[0]);
    }
  }

  /** The texts that mean a boolean, and which one. */
  lemma ParseBoolAccepts(s: string)
    ensures ParseBool(s) == Some(true) <==> s in {"1", "t", "T", "true", "TRUE", "True"}
    ensures ParseBool(s) == Some(false) <==> s in {"0", "f", "F", "false", "FALSE", "False"}
  {
  }

  lemma ParseFormatBool(b: bool)
    ensures ParseBool(FormatBool(b)) == Some(b)
  {
  }

  // ---------- decimal digits

  function Pow10(k: nat): (p: nat)
    ensures p > 0
  {
    if k == 0 then 1 else 10 * Pow10(k - 1)
  }

  lemma {:induction false} Pow10Add(a: nat, b: nat)
    ensures Pow10(a + b) == Pow10(a) * Pow10(b)
  {
    if a > 0 {
      Pow10Add(a - 1, b);
      assert Pow10(a + b) == 10 * Pow10(a - 1 + b);
      assert 10 * (Pow10(a - 1) * Pow10(b)) == (10 * Pow10(a - 1)) * Pow10(b);
    }
  }

  /** The number a row of digits denotes. */
  function DecimalValue(s: string): nat
    requires AllDigits(s)
  {
    if s == "" then 0 else DecimalValue(s[..|s| - 1]) * 10 + DigitValue(s[|s| - 1])
  }

  lemma {:induction false} DecimalBound(s: string)
    requires AllDigits(s)
    ensures DecimalValue(s) < Pow10(|s|)
  {
    if s != "" {
      DecimalBound(s[..|s| - 1]);
    }
  }

  lemma {:induction false} Pow10Below19(k: nat)
    requires k <= 18
    ensures Pow10(k) <= 1_000_000_000_000_000_000
  {
    assert Pow10(9) == 1_000_000_000 by {
      assert Pow10(3) == 1000;
      assert Pow10(6) == 1_000_000;
    }
    Pow10Add(9, 9);
    Pow10Add(k, 18 - k);
    assert Pow10(18) == 1_000_000_000_000_000_000;
    assert Pow10(k) * Pow10(18 - k) >= Pow10(k) * 1;
  }

  lemma {:induction false} ScanDigits(s: string)
    requires AllDigits(s) && |s| <= 19
    ensures ScanUint(s, 0) == Value(DecimalValue(s))
  {
    if s != "" {
      var front, last := s[..|s| - 1], s[|s| - 1];
      ScanDigits(front);
      ScanConcat(front, [last], 0);
      assert s == front + [last];
      DecimalBound(front);
      Pow10Below19(|front|);
      assert ScanUint([last], DecimalValue(front)) == ScanUint("", DecimalValue(s));
    }
  }

  /** Scanning succeeds exactly on digits whose number fits, and gives that number. */
  lemma {:induction false} ScanExactly(s: string)
    ensures ScanUint(s, 0).Value? <==> AllDigits(s) && DecimalValue(s) <= MAX_UINT64
    ensures ScanUint(s, 0).Value? ==> ScanUint(s, 0).n == DecimalValue(s)
  {
    if s != "" {
      var front, last := s[..|s| - 1], s[|s| - 1];
      ScanExactly(front);
      ScanConcat(front, [last], 0);
      assert s == front + [last];
    }
  }

  /** An optional sign, then at least one digit, and no more than 64 bits hold. */
  ghost predicate Integer(s: string) {
    var digits := if s != "" && (s[0] == '-' || s[0] == '+') then s[1..] else s;
    && digits != "" && AllDigits(digits)
    && DecimalValue(digits) <= if s[0] == '-' then -MIN_INT64 else MAX_INT64
  }

  ghost function IntegerValue(s: string): (n: int64)
    requires Integer(s)
  {
    var digits := if s[0] == '-' || s[0] == '+' then s[1..] else s;
    if s[0] == '-' then -(DecimalValue(digits) as int) else DecimalValue(digits)
  }

  /** The parser accepts exactly the integers, and gives their value. */
  lemma ParseIntAccepts(s: string)
    ensures ParseInt(s).err.None? <==> Integer(s)
    ensures Integer(s) ==> ParseInt(s).n == IntegerValue(s)
  {
    if s != "" {
      ScanExactly(s);
      ScanExactly(s[1..]);
    }
  }

  lemma {:induction false} ScanNoSyntaxError(s: string, acc: nat)
    requires AllDigits(s)
    ensures ScanUint(s, acc) != Failed(Syntax)
  {
    if s != "" && acc * 10 + DigitValue(s[0]) <= MAX_UINT64 {
      ScanNoSyntaxError(s[1..], acc * 10 + DigitValue(s[0]));
    }
  }

  /** A number that does not fit is reported as such, with the nearest bound. */
  lemma ParseIntOverflow(s: string)
    requires !Integer(s)
    requires s != "" && (if s[0] == '-' || s[0] == '+' then s[1..] != "" && AllDigits(s[1..]) else AllDigits(s))
    ensures ParseInt(s) == Parsed(if s[0] == '-' then MIN_INT64 else MAX_INT64, Some(Range))
  {
    var digits := if s[0] == '-' || s[0] == '+' then s[1..] else s;
    ScanExactly(digits);
    ScanNoSyntaxError(digits, 0);
  }

  /** What was scanned is small if the text is short. */
  lemma {:induction false} ScanBound(s: string, acc: nat)
    ensures ScanUint(s, acc).Value? ==> ScanUint(s, acc).n < (acc + 1) * Pow10(|s|)
  {
    if s != "" && IsDigit(s[0]) && acc * 10 + DigitValue(s[0]) <= MAX_UINT64 {
      var next := acc * 10 + DigitValue(s[0]);
      ScanBound(s[1..], next);
      assert (next + 1) * Pow10(|s| - 1) <= ((acc + 1) * 10) * Pow10(|s| - 1);
      assert ((acc + 1) * 10) * Pow10(|s| - 1) == (acc + 1) * Pow10(|s|);
    }
  }

  /** A text of at most `k` characters denotes an integer of fewer than `k` + 1 digits. */
  lemma ParseIntBound(s: string)
    ensures ParseInt(s).err.None? ==> -(Pow10(|s|) as int) < ParseInt(s).n < Pow10(|s|)
  {
    if s != "" {
      ScanBound(s, 0);
      ScanBound(s[1..], 0);
      assert Pow10(|s|) == 10 * Pow10(|s| - 1);
    }
  }

  function Zeros(k: nat): (s: string)
    ensures |s| == k && AllDigits(s)
  {
    seq(k, _ => '0')
  }

  lemma {:induction false} ScanZeros(k: nat, s: string)
    ensures ScanUint(Zeros(k) + s, 0) == ScanUint(s, 0)
  {
    if k == 0 {
      assert Zeros(0) + s == s;
    } else {
      assert (Zeros(k) + s)[1..] == Zeros(k - 1) + s;
      ScanZeros(k - 1, s);
    }
  }

  lemma {:induction false} FormatUintLength(n: nat, k: nat)
    requires k >= 1 && n < Pow10(k)
    ensures |FormatUint(n)| <= k
  {
    if n >= 10 {
      assert Pow10(1) == 10 * Pow10(0);
      FormatUintLength(n / 10, k - 1);
    }
  }
}
