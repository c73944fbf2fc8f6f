/** Python's `None` and the text that `'{}'.format(x)` produces for the values the
    site checker formats: integers (status codes), `None`, and strings. */
module PyFormat {

  /** A value that Python may hold as `None`. */
  datatype Option<+T> = None | Some(value: T)

  predicate IsDigit(c: char) {
    '0' <= c <= '9'
  }

  function DigitChar(d: nat): (c: char)
    requires d < 10
    ensures IsDigit(c)
  {
    ('0' as int + d) as char
  }

  function DigitValue(c: char): (d: nat)
    requires IsDigit(c)
    ensures d < 10 && DigitChar(d) == c
  {
    c as int - '0' as int
  }

  /** The decimal digits of `n`, most significant first, without leading zeros. */
  function NatDigits(n: nat): (s: string)
    ensures |s| >= 1
    ensures forall i :: 0 <= i < |s| ==> IsDigit(s[i])
    ensures |s| > 1 ==> s[0] != '0'
    decreases n
  {
    if n < 10 then [DigitChar(n)] else NatDigits(n / 10) + [DigitChar(n % 10)]
  }

  /** `str(n)` for a Python int. */
  function IntStr(n: int): string {
    if n < 0 then "-" + NatDigits(-n) else NatDigits(n)
  }

  /** `'{}'.format(x)` for an int that may be `None`. */
  function OptIntStr(x: Option<int>): string {
    match x
    case None => "None"
    case Some(n) => IntStr(n)
  }

  /** `'{}'.format(x)` for a string that may be `None`. */
  function OptStr(x: Option<string>): string {
    match x
    case None => "None"
    case Some(s) => s
  }

  /** Reads back a non-empty run of decimal digits; the inverse of NatDigits. */
  function ParseNat(s: string): Option<nat>
    decreases |s|
  {
    if |s| == 0 || !IsDigit(s[|s| - 1]) then None
    else if |s| == 1 then Some(DigitValue(s[0]))
    else match ParseNat(s[..|s| - 1])
      case None => None
      case Some(v) => Some(v * 10 + DigitValue(s[|s| - 1]))
  }

  /** Reads back what `str(n)` printed; the inverse of IntStr. */
  function ParseInt(s: string): Option<int> {
    if |s| > 0 && s[0] == '-' then
      match ParseNat(s[1..])
      case None => None
      case Some(v) => if v == 0 then None else Some(-(v as int))
    else ParseNat(s)
  }

  lemma {:induction false} ParseNatDigits(n: nat)
    ensures ParseNat(NatDigits(n)) == Some(n)
    decreases n
  {
    if n >= 10 {
      var s := NatDigits(n);
      assert s[..|s| - 1] == NatDigits(n / 10);
      ParseNatDigits(n / 10);
    }
  }

  /** Printing a status code loses nothing: it can be read back exactly. */
  lemma ParseIntStr(n: int)
    ensures ParseInt(IntStr(n)) == Some(n)
  {
    if n < 0 {
      var digits := NatDigits(-n);
      ParseNatDigits(-n);
      assert ("-" + digits)[1..] == digits;
    } else {
      ParseNatDigits(n);
      assert IsDigit(NatDigits(n)[0]);
    }
  }

  /** Different status codes print differently, and no code prints as `None`. */
  lemma OptIntStrInjective(x: Option<int>, y: Option<int>)
    ensures OptIntStr(x) == OptIntStr(y) ==> x == y
  {
    assert ParseInt("None") == None;
    if x.Some? { ParseIntStr(x.value); }
    if y.Some? { ParseIntStr(y.value); }
  }
}
