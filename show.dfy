/**
 * Decimal rendering of integers, standing in for `Int.toString()` as the
 * element conversion of the example calls only. It is a helper: nothing
 * about it is proved beyond the concrete values those examples unfold.
 */
module Show {

  function DigitChar(d: nat): char
    requires d < 10
  {
    ('0' as int + d) as char
  }

  /** Decimal digits of `n`, most significant first, without leading zeros. */
  function NatToString(n: nat): string
  {
    if n < 10 then [DigitChar(n)] else NatToString(n / 10) + [DigitChar(n % 10)]
  }

  /** Decimal form of `n`, with a leading '-' when it is negative. */
  function IntToString(n: int): string
  {
    if n < 0 then "-" + NatToString(-n) else NatToString(n)
  }
}
