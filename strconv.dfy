/** Decimal integer text as the rest of the model reads and prints it:
    strconv.Atoi (what `%d` is read back with) and the `%d` rendering of an
    int. Go's `int` is 64 bits wide: Atoi rejects text outside that range. */
module Strconv {
  import opened Wrappers

  const IntMin: int := -0x8000_0000_0000_0000
  const IntMax: int := 0x7FFF_FFFF_FFFF_FFFF

  predicate IsDigit(c: char)
  {
    '0' <= c <= '9'
  }

  predicate AllDigits(s: string)
  {
    forall i :: 0 <= i < |s| ==> IsDigit(s[i])
  }

  function DigitChar(d: nat): (c: char)
    requires d < 10
    ensures IsDigit(c)
  {
    (d + '0' as int) as char
  }

  function DigitValue(c: char): nat
    requires IsDigit(c)
  {
    (c as int) - ('0' as int)
  }

  /** The decimal digits of n, most significant first, with no leading zero. */
  function Digits(n: nat): (s: string)
    ensures |s| > 0 && AllDigits(s)
    ensures |s| > 1 ==> s[0] != '0'
  {
    if n < 10 then [DigitChar(n)] else Digits(n / 10) + [DigitChar(n % 10)]
  }

  /** The number a string of decimal digits denotes. */
  function Value(s: string): nat
    requires AllDigits(s)
  {
    if s == [] then 0 else 10 * Value(s[..|s| - 1]) + DigitValue(s[|s| - 1])
  }

  /** `%d`: an optional minus sign, then the digits of the magnitude. */
  function FormatInt(n: int): (s: string)
    ensures |s| > 0
    ensures n < 0 <==> s[0] == '-'
  {
    if n < 0 then "-" + Digits(-n) else Digits(n)
  }

  datatype NumError = ErrSyntax | ErrRange

  /** strconv.Atoi: an optional sign, then at least one decimal digit; the
      value must fit in 64 bits. */
  function Atoi(s: string): (r: Result<int, NumError>)
    ensures r.Ok? ==> IntMin <= r.value <= IntMax
    ensures s == [] ==> r == Err(ErrSyntax)
  {
    var neg := |s| > 0 && s[0] == '-';
    var body := if |s| > 0 && (s[0] == '-' || s[0] == '+') then s[1..] else s;
    if body == [] || !AllDigits(body) then Err(ErrSyntax)
    else
      var v: int := if neg then 0 - (Value(body) as int) else Value(body);
      if v < IntMin || IntMax < v then Err(ErrRange) else Ok(v)
  }

  /** Reading back the digits of n gives n. */
  lemma {:induction false} ValueDigits(n: nat)
    ensures Value(Digits(n)) == n
  {
    if n >= 10 {
      var s := Digits(n);
      assert s[..|s| - 1] == Digits(n / 10);
      ValueDigits(n / 10);
    }
  }

  /** Atoi reads back what `%d` prints, for every 64-bit int. */
  lemma AtoiFormatInt(n: int)
    requires IntMin <= n <= IntMax
    ensures Atoi(FormatInt(n)) == Ok(n)
  {
    if n < 0 {
      assert FormatInt(n)[1..] == Digits(-n);
      ValueDigits(-n);
    } else {
      ValueDigits(n);
    }
  }

  /** Distinct ints print differently. */
  lemma FormatIntInjective(a: int, b: int)
    requires IntMin <= a <= IntMax && IntMin <= b <= IntMax
    requires FormatInt(a) == FormatInt(b)
    ensures a == b
  {
    AtoiFormatInt(a);
    AtoiFormatInt(b);
  }
}
