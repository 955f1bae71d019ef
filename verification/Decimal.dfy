/** Decimal text of integers: what `to_string` writes and what `u16::parse` reads. */
module Decimal {
  import opened Wrappers

  function Digit(d: nat): (c: char)
    requires d < 10
    ensures IsDigit(c) && DigitValue(c) == d
  {
    ('0' as int + d) as char
  }

  predicate IsDigit(c: char) { '0' <= c <= '9' }

  function DigitValue(c: char): (d: nat)
    requires IsDigit(c)
    ensures d < 10
  {
    c as int - '0' as int
  }

  function NatToString(n: nat): (s: string)
    ensures s != [] && AllDigits(s)
  {
    if n < 10 then [Digit(n)] else NatToString(n / 10) + [Digit(n % 10)]
  }

  function IntToString(i: int): string {
    if i < 0 then "-" + NatToString(-i) else NatToString(i)
  }

  predicate AllDigits(s: string) {
    forall i | 0 <= i < |s| :: IsDigit(s[i])
  }

  function DigitsValue(s: string): nat
    requires AllDigits(s)
  {
    if s == [] then 0 else DigitsValue(s[..|s| - 1]) * 10 + DigitValue(s[|s| - 1])
  }

  /** `str::parse::<u16>`: an optional `+`, then at least one digit, no overflow. */
  function ParseU16(s: string): Option<nat> {
    var digits := if s != [] && s[0] == '+' then s[1..] else s;
    if digits != [] && AllDigits(digits) && DigitsValue(digits) <= 0xffff
    then Some(DigitsValue(digits))
    else None
  }

  lemma {:induction false} DigitsOfNat(n: nat)
    ensures DigitsValue(NatToString(n)) == n
  {
    if n >= 10 {
      DigitsOfNat(n / 10);
      assert NatToString(n)[..|NatToString(n)| - 1] == NatToString(n / 10);
    } else {
      assert [Digit(n)][..0] == [];
    }
  }

  /** A nonempty text without superfluous zeros that reads as the number. */
  ghost predicate Spells(s: string, n: nat) {
    s != [] && AllDigits(s) && DigitsValue(s) == n && (s[0] == '0' ==> |s| == 1)
  }

  lemma {:induction false} NatIsSpelled(n: nat)
    ensures Spells(NatToString(n), n)
  {
    DigitsOfNat(n);
    if n >= 10 {
      NatIsSpelled(n / 10);
      if NatToString(n / 10)[0] == '0' { ZeroAlone(NatToString(n / 10)); }
    }
  }

  lemma ZeroAlone(s: string)
    requires |s| == 1 && s[0] == '0'
    ensures AllDigits(s) && DigitsValue(s) == 0
  {
    assert s[..0] == [];
  }

  /** No other text spells the number. */
  lemma {:induction false} OneSpelling(s: string, n: nat)
    requires Spells(s, n)
    ensures s == NatToString(n)
  {
    var front := s[..|s| - 1];
    if front == [] {
      assert s == front + [s[0]] && DigitsValue(front) == 0;
    } else {
      assert s[0] == front[0];
      if DigitsValue(front) == 0 { ZeroValue(front); }
      OneSpelling(front, DigitsValue(front));
      assert s == front + [s[|s| - 1]];
    }
  }

  lemma {:induction false} ZeroValue(s: string)
    requires s != [] && AllDigits(s) && DigitsValue(s) == 0
    ensures s[0] == '0'
  {
    if |s| > 1 { ZeroValue(s[..|s| - 1]); }
  }

  /** A negative number is its sign and the number without it. */
  ghost predicate SpellsInt(s: string, i: int) {
    if i < 0 then s != [] && s[0] == '-' && Spells(s[1..], -i) else Spells(s, i)
  }

  lemma IntIsSpelled(i: int)
    ensures SpellsInt(IntToString(i), i)
  {
    if i < 0 {
      NatIsSpelled(-i);
      assert IntToString(i)[1..] == NatToString(-i);
    } else {
      NatIsSpelled(i);
    }
  }

  /** Reading back a printed port gives the port. */
  lemma PortRoundTrip(n: nat)
    requires n <= 0xffff
    ensures ParseU16(NatToString(n)) == Some(n)
  {
    DigitsOfNat(n);
    assert IsDigit(NatToString(n)[0]);
  }
}
