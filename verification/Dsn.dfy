/** Delivery status notification requests (src/global/dsn_mask.h) and numbers as text. */
module Dsn {
  const NEVER: nat := 1
  const SUCCESS: nat := 2
  const FAILURE: nat := 4
  const DELAY: nat := 8

  predicate WantsSuccess(n: nat) { n / SUCCESS % 2 == 1 }
  predicate WantsFailure(n: nat) { n / FAILURE % 2 == 1 }
  predicate WantsDelay(n: nat) { n / DELAY % 2 == 1 }

  /** NEVER alone, or any combination of the other three. */
  predicate NotifyOk(n: nat) { n == NEVER || (n < 16 && n % 2 == 0) }

  /** The text of a number, as printf("%d") writes it. */
  function Decimal(n: nat): string {
    if n < 10 then [('0' as int + n) as char] else Decimal(n / 10) + [('0' as int + n % 10) as char]
  }

  predicate IsDigit(c: char) { '0' <= c <= '9' }

  predicate IsSpace(c: char) { c == ' ' || '\t' <= c <= '\r' }

  function Value(s: string): nat
    requires forall i :: 0 <= i < |s| ==> IsDigit(s[i])
  {
    if s == [] then 0 else
      assert IsDigit(s[|s| - 1]);
      10 * Value(s[..|s| - 1]) + (s[|s| - 1] as int - '0' as int)
  }

  /** The digits that a string starts with. */
  function Leading(s: string): (r: string)
    ensures forall i :: 0 <= i < |r| ==> IsDigit(r[i])
  {
    if s == [] || !IsDigit(s[0]) then [] else [s[0]] + Leading(s[1..])
  }

  /** atoi() and atol(): blanks, a sign, digits, and no more. */
  function Atol(s: string): int {
    if s == [] then 0
    else if IsSpace(s[0]) then Atol(s[1..])
    else if s[0] == '-' then var v: int := Value(Leading(s[1..])); 0 - v
    else if s[0] == '+' then Value(Leading(s[1..]))
    else Value(Leading(s))
  }

  lemma {:induction false} DecimalDigits(n: nat)
    ensures Decimal(n) != [] && forall i :: 0 <= i < |Decimal(n)| ==> IsDigit(Decimal(n)[i])
    decreases n
  {
    if n >= 10 { DecimalDigits(n / 10); }
  }

  lemma {:induction false} DecimalValue(n: nat)
    ensures (forall i :: 0 <= i < |Decimal(n)| ==> IsDigit(Decimal(n)[i])) && Value(Decimal(n)) == n
    decreases n
  {
    DecimalDigits(n);
    if n >= 10 {
      DecimalValue(n / 10);
      var s := Decimal(n);
      assert s[..|s| - 1] == Decimal(n / 10);
    } else {
      assert Value(Decimal(n)) == 10 * Value([]) + n;
    }
  }

  lemma {:induction false} LeadingAll(s: string)
    requires forall i :: 0 <= i < |s| ==> IsDigit(s[i])
    ensures Leading(s) == s
  {
    if s != [] { LeadingAll(s[1..]); }
  }

  lemma {:induction false} LeadingOf(s: string, rest: string)
    requires (forall i :: 0 <= i < |s| ==> IsDigit(s[i])) && (rest == "" || !IsDigit(rest[0]))
    ensures Leading(s + rest) == s
  {
    if s == "" {
      assert s + rest == rest;
    } else {
      assert (s + rest)[1..] == s[1..] + rest;
      LeadingOf(s[1..], rest);
    }
  }

  /** A sign in front of a number counts, and so do blanks in front of it; what follows its digits
      does not. */
  lemma AtolSigned(n: nat, rest: string)
    requires rest == "" || !IsDigit(rest[0])
    ensures Atol(Decimal(n) + rest) == Atol("+" + (Decimal(n) + rest)) == n && Atol("-" + (Decimal(n) + rest)) == 0 - n
    ensures forall s: string :: Atol(" " + s) == Atol(s)
  {
    DecimalValue(n);
    DecimalDigits(n);
    LeadingOf(Decimal(n), rest);
    var t := Decimal(n) + rest;
    assert t[0] == Decimal(n)[0];
    assert ("+" + t)[1..] == t && ("-" + t)[1..] == t;
    forall s: string ensures Atol(" " + s) == Atol(s) { assert (" " + s)[1..] == s; }
    hide Decimal, Leading, Value;
  }

  /** Numbers survive being written and read. */
  lemma AtolDecimal(n: nat)
    ensures Atol(Decimal(n)) == n
  {
    DecimalValue(n);
    DecimalDigits(n);
    LeadingAll(Decimal(n));
  }
}
