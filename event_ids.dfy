/**
 * The id the calendar hook gives an event created without one:
 * the prefix `event-` followed by the clock reading in milliseconds,
 * written in decimal.
 */
module EventIds {
  const Prefix: string := "event-"

  function DigitChar(d: nat): (c: char)
    requires d < 10
    ensures '0' <= c <= '9'
  {
    ('0' as int + d) as char
  }

  function DigitValue(c: char): int
  {
    c as int - '0' as int
  }

  /** The decimal rendering of a natural number, most significant digit first. */
  function Decimal(n: nat): (s: string)
    ensures |s| > 0
    ensures forall i :: 0 <= i < |s| ==> '0' <= s[i] <= '9'
  {
    if n < 10 then [DigitChar(n)] else Decimal(n / 10) + [DigitChar(n % 10)]
  }

  /** Reads a string of decimal digits back as a number. */
  function DecimalValue(s: string): int
  {
    if s == [] then 0 else 10 * DecimalValue(s[..|s| - 1]) + DigitValue(s[|s| - 1])
  }

  /** Reading back the decimal rendering gives the number rendered. */
  lemma {:induction false} DecimalRoundTrip(n: nat)
    ensures DecimalValue(Decimal(n)) == n
  {
    var s := Decimal(n);
    if n >= 10 {
      DecimalRoundTrip(n / 10);
      assert s[..|s| - 1] == Decimal(n / 10);
    }
  }

  /** `event-${Date.now()}` with the clock reading `now`. */
  function GeneratedId(now: nat): (id: string)
    ensures |id| > |Prefix| && id[..|Prefix|] == Prefix
  {
    Prefix + Decimal(now)
  }

  /** Two different clock readings never produce the same id. */
  lemma GeneratedIdInjective(a: nat, b: nat)
    requires GeneratedId(a) == GeneratedId(b)
    ensures a == b
  {
    assert Decimal(a) == GeneratedId(a)[|Prefix|..];
    assert Decimal(b) == GeneratedId(b)[|Prefix|..];
    DecimalRoundTrip(a);
    DecimalRoundTrip(b);
  }
}
