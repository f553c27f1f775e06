/** What several models share: optional values, decimal numerals and the width of 64-bit
    counters. */
module Basics {

  datatype Option<+T> = None | Some(value: T)

  /** One more than the largest unsigned 64-bit number. */
  const U64 := 0x1_0000_0000_0000_0000

  const DIGITS := ['0', '1', '2', '3', '4', '5', '6', '7', '8', '9']

  function Decimal(n: nat): (r: string)
    ensures r != ""
  {
    if n < 10 then [DIGITS[n]] else Decimal(n / 10) + [DIGITS[n % 10]]
  }
}
