/** Characters and decimal numerals, as the text algorithms use them. */
module Texts {
  predicate IsDigit(c: char) { '0' <= c <= '9' }

  /** White space as `\s` and `trim` take it. */
  predicate IsSpace(c: char) {
    c in " \t\n\r\U{0B}\U{0C}\U{A0}\U{1680}\U{2028}\U{2029}\U{202F}\U{205F}\U{3000}\U{FEFF}"
    || '\U{2000}' <= c <= '\U{200A}'
  }

  lemma DigitIsNoSpace(c: char)
    ensures IsDigit(c) ==> !IsSpace(c)
  {
  }

  lemma SpaceIsSpace()
    ensures IsSpace(' ')
  {
  }

  predicate AllDigits(s: string) { forall c :: c in s ==> IsDigit(c) }

  function DigitOf(n: nat): char
    requires n < 10
  {
    '0' + n as char
  }

  function Decimal(n: nat): string {
    if n < 10 then [DigitOf(n)] else Decimal(n / 10) + [DigitOf(n % 10)]
  }

  /** The number a run of digits stands for, leading zeros or not. */
  function Number(s: string): nat
    requires AllDigits(s)
  {
    if s == "" then 0 else assert s[|s| - 1] in s; 10 * Number(s[..|s| - 1]) + (s[|s| - 1] - '0') as nat
  }

  lemma {:induction false} DecimalReadsBack(n: nat)
    ensures Decimal(n) != "" && AllDigits(Decimal(n)) && Number(Decimal(n)) == n
  {
    if n >= 10 {
      DecimalReadsBack(n / 10);
      assert Decimal(n)[..|Decimal(n)| - 1] == Decimal(n / 10);
    } else {
      assert Decimal(n)[..0] == "";
    }
  }
}
