/**
 * The ticket bound the non-enclave adapter hands its binding: the value of the
 * `Decent.maxOpPerTicket` system property, read as a Java long by
 * `Long.parseLong`, or -1 (unbounded) when the property is not set.
 */
module Ticket {

  import opened Optional

  const LongMin: int := -0x8000_0000_0000_0000
  const LongMax: int := 0x7fff_ffff_ffff_ffff

  /** The bound that selects an unbounded ticket budget. */
  const Unbounded: int := -1

  predicate IsDigit(c: char) {
    '0' <= c <= '9'
  }

  predicate AllDigits(s: string) {
    forall i :: 0 <= i < |s| ==> IsDigit(s[i])
  }

  function DigitValue(c: char): (d: nat)
    requires IsDigit(c)
    ensures d < 10
  {
    (c as int) - ('0' as int)
  }

  function DigitChar(d: nat): (c: char)
    requires d < 10
    ensures IsDigit(c) && DigitValue(c) == d
  {
    (('0' as int) + d) as char
  }

  /** The value of a string of decimal digits, most significant first. */
  function DigitsValue(s: string): nat
    requires AllDigits(s)
  {
    if s == [] then 0 else DigitsValue(s[..|s| - 1]) * 10 + DigitValue(s[|s| - 1])
  }

  /**
   * `Long.parseLong(s)` in radix 10: an optional `-` or `+` sign followed by at
   * least one digit, with a value that fits a Java long. Every other string makes
   * Java throw NumberFormatException, modelled here as `None`.
   */
  function ParseLong(s: string): (r: Option<int>)
    ensures r.Some? ==> LongMin <= r.value <= LongMax
    ensures r.Some? ==> exists i :: 0 <= i < |s| && IsDigit(s[i])
  {
    if |s| == 0 then None
    else
      var digits := if s[0] == '-' || s[0] == '+' then s[1..] else s;
      if |digits| == 0 || !AllDigits(digits) then None
      else
        var v: int := if s[0] == '-' then -(DigitsValue(digits) as int) else DigitsValue(digits);
        if LongMin <= v <= LongMax then Some(v) else None
  }

  /** The decimal digits of `n` without leading zeros, as `Long.toString` writes them. */
  function Digits(n: nat): (s: string)
    decreases n
  {
    if n < 10 then [DigitChar(n)] else Digits(n / 10) + [DigitChar(n % 10)]
  }

  /** `n` in decimal, with a leading `-` when negative. */
  function DecimalString(n: int): string {
    if n < 0 then "-" + Digits(-n) else Digits(n)
  }

  lemma {:induction false} DigitsValueOfDigits(n: nat)
    ensures |Digits(n)| > 0 && AllDigits(Digits(n))
    ensures DigitsValue(Digits(n)) == n
    decreases n
  {
    if n >= 10 {
      DigitsValueOfDigits(n / 10);
      var s := Digits(n);
      assert s[..|s| - 1] == Digits(n / 10);
    }
  }

  /** Every Java long, written in decimal, parses back to itself. */
  lemma ParseLongOfDecimal(n: int)
    requires LongMin <= n <= LongMax
    ensures ParseLong(DecimalString(n)) == Some(n)
  {
    if n < 0 {
      DigitsValueOfDigits(-n);
      assert DecimalString(n)[1..] == Digits(-n);
    } else {
      DigitsValueOfDigits(n);
    }
  }

  /** A leading `+` is accepted and changes nothing. */
  lemma ParseLongPlusSign(n: nat)
    requires n <= LongMax
    ensures ParseLong("+" + Digits(n)) == Some(n)
  {
    DigitsValueOfDigits(n);
    assert ("+" + Digits(n))[1..] == Digits(n);
  }

  /** A string with any character that is neither a digit nor a leading sign does not parse. */
  lemma ParseLongRejectsNonDigit(s: string, i: nat)
    requires i < |s| && !IsDigit(s[i])
    requires i == 0 ==> s[0] != '-' && s[0] != '+'
    ensures ParseLong(s) == None
  {
    if s[0] == '-' || s[0] == '+' {
      assert s[1..][i - 1] == s[i];
    }
  }

  /**
   * The bound `init` hands the non-enclave binding: -1 when the property is not
   * set, its parsed value otherwise. The property must be a valid long.
   */
  function TicketBound(maxOpPerTicket: Option<string>): (bound: int)
    requires maxOpPerTicket.Some? ==> ParseLong(maxOpPerTicket.value).Some?
    ensures maxOpPerTicket.None? ==> bound == Unbounded
    ensures maxOpPerTicket.Some? ==> ParseLong(maxOpPerTicket.value) == Some(bound)
    ensures LongMin <= bound <= LongMax
  {
    if maxOpPerTicket.None? then Unbounded else ParseLong(maxOpPerTicket.value).value
  }

  /** An unset property selects the unbounded budget; "-1" selects it explicitly. */
  lemma TicketBoundUnbounded()
    ensures TicketBound(None) == Unbounded
    ensures ParseLong("-1") == Some(-1) && TicketBound(Some("-1")) == Unbounded
  {
    assert "-1"[1..] == "1";
    assert DigitsValue("1") == 1 by {
      assert "1"[..0] == "";
    }
  }

  /** "50" gives a bound of 50. */
  lemma TicketBoundFifty()
    ensures ParseLong("50") == Some(50) && TicketBound(Some("50")) == 50
  {
    assert "50"[..1] == "5";
    assert "5"[..0] == "";
  }

  /** "abc", "" and a lone sign are not longs, so they are outside what `init` accepts. */
  lemma ParseLongRejectsExamples()
    ensures ParseLong("abc") == None
    ensures ParseLong("") == None && ParseLong("-") == None && ParseLong("+") == None
  {
    ParseLongRejectsNonDigit("abc", 0);
  }
}
