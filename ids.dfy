/**
 * Decimal ids on the wire: `fmt.Sprintf("%d", n)` and `strconv.Atoi` with its
 * error discarded, and the "u<id>" / "pr-<id>" spellings built from them.
 */
module Ids {

  predicate IsDigit(c: char)
  {
    '0' <= c <= '9'
  }

  predicate AllDigits(s: string)
  {
    forall i | 0 <= i < |s| :: IsDigit(s[i])
  }

  function DigitValue(c: char): nat
    requires IsDigit(c)
  {
    (c as int) - ('0' as int)
  }

  function DigitChar(d: nat): (c: char)
    requires d < 10
    ensures IsDigit(c) && DigitValue(c) == d
  {
    (('0' as int) + d) as char
  }

  /** A digit string without superfluous leading zeros, as `%d` prints it. */
  predicate Canonical(s: string)
  {
    |s| >= 1 && AllDigits(s) && (|s| > 1 ==> s[0] != '0')
  }

  /** The value of a digit string, most significant digit first. */
  function DecimalValue(s: string): nat
    requires AllDigits(s)
  {
    if s == [] then 0 else DecimalValue(s[..|s| - 1]) * 10 + DigitValue(s[|s| - 1])
  }

  /** The decimal spelling of a natural number. */
  function NatToDecimal(n: nat): (s: string)
    ensures Canonical(s)
  {
    if n < 10 then [DigitChar(n)] else NatToDecimal(n / 10) + [DigitChar(n % 10)]
  }

  /** `fmt.Sprintf("%d", n)`: a minus sign for negative numbers, then the digits. */
  function FormatInt(n: int): string
  {
    if n < 0 then "-" + NatToDecimal(-n) else NatToDecimal(n)
  }

  /**
   * `strconv.Atoi(s)` with the error ignored, as every caller in the service does:
   * an optional sign followed by at least one digit gives the number, anything
   * else gives 0. Overflow of the 64-bit result is not modelled.
   */
  function Atoi(s: string): int
  {
    if |s| >= 2 && s[0] == '-' && AllDigits(s[1..]) then 0 - DecimalValue(s[1..])
    else if |s| >= 2 && s[0] == '+' && AllDigits(s[1..]) then DecimalValue(s[1..])
    else if |s| >= 1 && AllDigits(s) then DecimalValue(s)
    else 0
  }

  lemma {:induction false} DecimalOfNat(n: nat)
    ensures DecimalValue(NatToDecimal(n)) == n
  {
    var s := NatToDecimal(n);
    if n >= 10 {
      assert s[..|s| - 1] == NatToDecimal(n / 10);
      DecimalOfNat(n / 10);
    }
  }

  lemma {:induction false} NonZeroLeadIsPositive(s: string)
    requires Canonical(s) && s[0] != '0'
    ensures DecimalValue(s) >= 1
  {
    if |s| > 1 {
      NonZeroLeadIsPositive(s[..|s| - 1]);
    }
  }

  /** Reading back a canonical digit string and printing it gives the same string. */
  lemma {:induction false} NatOfDecimal(s: string)
    requires Canonical(s)
    ensures NatToDecimal(DecimalValue(s)) == s
  {
    if |s| > 1 {
      var p := s[..|s| - 1];
      NonZeroLeadIsPositive(p);
      NatOfDecimal(p);
      assert p + [s[|s| - 1]] == s;
    }
  }

  /** `Atoi` undoes `%d` for every integer, negative ones included. */
  lemma AtoiFormatRoundTrip(n: int)
    ensures Atoi(FormatInt(n)) == n
  {
    if n < 0 {
      var d := NatToDecimal(-n);
      assert ("-" + d)[1..] == d;
      DecimalOfNat(-n);
    } else {
      DecimalOfNat(n);
    }
  }

  /** `%d` undoes `Atoi` on canonical digit strings. */
  lemma FormatAtoiRoundTrip(s: string)
    requires Canonical(s)
    ensures FormatInt(Atoi(s)) == s
  {
    NatOfDecimal(s);
  }

  /** `fmt.Sprintf("u%d", id)`. */
  function FormatUserId(id: int): string
  {
    "u" + FormatInt(id)
  }

  /** `fmt.Sprintf("pr-%d", id)`. */
  function FormatPRId(id: int): string
  {
    "pr-" + FormatInt(id)
  }

  /** `strconv.Atoi(s[1:])` with the error ignored; slicing an empty string panics in Go. */
  function ParseUserId(s: string): (r: int)
    requires |s| >= 1
    ensures |s| >= 2 && AllDigits(s[1..]) ==> r == DecimalValue(s[1..])
  {
    Atoi(s[1..])
  }

  /** `strconv.Atoi(s[3:])` with the error ignored; slicing a shorter string panics in Go. */
  function ParsePRId(s: string): (r: int)
    requires |s| >= 3
    ensures |s| >= 4 && AllDigits(s[3..]) ==> r == DecimalValue(s[3..])
  {
    Atoi(s[3..])
  }

  /** A user id as the service prints it: 'u' and a canonical number. */
  predicate CanonicalUserId(s: string)
  {
    |s| >= 2 && s[0] == 'u' && Canonical(s[1..])
  }

  /** A pull-request id as the service prints it: "pr-" and a canonical number. */
  predicate CanonicalPRId(s: string)
  {
    |s| >= 4 && s[..3] == "pr-" && Canonical(s[3..])
  }

  /** Reading a canonical user id and printing it back gives the same string. */
  lemma CanonicalUserIdRoundTrip(s: string)
    ensures CanonicalUserId(s) ==> FormatUserId(ParseUserId(s)) == s
  {
    if CanonicalUserId(s) {
      FormatAtoiRoundTrip(s[1..]);
      assert "u" + s[1..] == s;
    }
  }

  /** Reading a canonical pull-request id and printing it back gives the same string. */
  lemma CanonicalPRIdRoundTrip(s: string)
    ensures CanonicalPRId(s) ==> FormatPRId(ParsePRId(s)) == s
  {
    if CanonicalPRId(s) {
      FormatAtoiRoundTrip(s[3..]);
      assert s[..3] + s[3..] == s;
    }
  }

  /** Printing any id as "u<id>" and reading it back gives the id. */
  lemma UserIdRoundTrip(id: int)
    ensures |FormatUserId(id)| >= 2
    ensures ParseUserId(FormatUserId(id)) == id
  {
    assert FormatUserId(id)[1..] == FormatInt(id);
    AtoiFormatRoundTrip(id);
  }

  /**
   * "u<id>" starts with 'u' and has at least one character after it; it is a
   * user id in the service's own form exactly when the id is not negative.
   */
  lemma UserIdForm(id: int)
    ensures |FormatUserId(id)| >= 2 && FormatUserId(id)[0] == 'u'
    ensures CanonicalUserId(FormatUserId(id)) <==> id >= 0
  {
  }

  /**
   * "pr-<id>" starts with "pr-" and has at least one character after it; it is a
   * pull-request id in the service's own form exactly when the id is not negative.
   */
  lemma PRIdForm(id: int)
    ensures |FormatPRId(id)| >= 4 && FormatPRId(id)[..3] == "pr-"
    ensures CanonicalPRId(FormatPRId(id)) <==> id >= 0
  {
  }

  /** `UserIdRoundTrip` and `UserIdForm` for all ids at once. */
  lemma AllUserIdsRoundTrip()
    ensures forall id: int :: |FormatUserId(id)| >= 2 && ParseUserId(FormatUserId(id)) == id
    ensures forall id: int :: FormatUserId(id)[0] == 'u' && (CanonicalUserId(FormatUserId(id)) <==> id >= 0)
  {
    forall id: int
      ensures |FormatUserId(id)| >= 2 && ParseUserId(FormatUserId(id)) == id
      ensures FormatUserId(id)[0] == 'u' && (CanonicalUserId(FormatUserId(id)) <==> id >= 0)
    {
      UserIdRoundTrip(id);
      UserIdForm(id);
    }
  }

  /** Printing any id as "pr-<id>" and reading it back gives the id. */
  lemma PRIdRoundTrip(id: int)
    ensures |FormatPRId(id)| >= 4
    ensures ParsePRId(FormatPRId(id)) == id
  {
    assert FormatPRId(id)[3..] == FormatInt(id);
    AtoiFormatRoundTrip(id);
  }
}
