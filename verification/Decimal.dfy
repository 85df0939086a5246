/** relay-server/internal/conversations/transactional_outbox.go: `itoa` and the outbox row IDs. */
module Decimal {

  type int64 = x: int | -0x8000_0000_0000_0000 <= x < 0x8000_0000_0000_0000

  const DIGITS := "0123456789"

  /** The decimal digits of a number, none for zero. */
  function Digits(v: nat): string {
    if v == 0 then "" else Digits(v / 10) + [DIGITS[v % 10]]
  }

  ghost function Pow10(n: nat): nat { if n == 0 then 1 else 10 * Pow10(n - 1) }

  /** The number a digit string denotes. */
  ghost function ValueOf(s: string): int
    decreases |s|
  {
    if s == "" then 0 else 10 * ValueOf(s[..|s| - 1]) + (s[|s| - 1] as int - '0' as int)
  }

  lemma {:induction false} DigitsDenote(v: nat)
    ensures ValueOf(Digits(v)) == v
    ensures forall c :: c in Digits(v) ==> '0' <= c <= '9'
  {
    if v > 0 {
      DigitsDenote(v / 10);
      assert Digits(v)[..|Digits(v)| - 1] == Digits(v / 10);
    }
  }

  /** What itoa makes of a number: nothing at all if it is negative. */
  function Text(v: int): string { if v == 0 then "0" else if v < 0 then "" else Digits(v) }

  /** Fills a 20-byte buffer from its end; a negative number gives the empty string. */
  method Itoa(v: int64) returns (r: string)
    ensures r == Text(v)
    ensures v >= 0 ==> ValueOf(r) == v
  {
    DigitsDenote(if v < 0 then 0 else v);
    if v == 0 {
      return "0";
    }
    var b := new char[20];
    var i, rest: int := 20, v;
    assert Pow10(19) == 10_000_000_000_000_000_000 by { PowersOfTen(); }
    while rest > 0
      invariant 0 < i <= 20 && rest < Pow10(i - 1)
      invariant v >= 0 ==> rest >= 0 && Digits(v) == Digits(rest) + b[i..]
      invariant v < 0 ==> rest == v && i == 20
    {
      i := i - 1;
      b[i] := DIGITS[rest % 10];
      assert b[i..] == [DIGITS[rest % 10]] + b[i + 1..];
      rest := rest / 10;
    }
    r := b[i..];
  }

  lemma PowersOfTen()
    ensures Pow10(19) == 10_000_000_000_000_000_000
  {
    assert Pow10(5) == 100_000;
    assert Pow10(10) == 10_000_000_000;
    assert Pow10(15) == 1_000_000_000_000_000;
  }

  // ---------------------------------------------------------------- the IDs of run events

  const EVENT_PREFIX := "run-event:"

  /** The outbox row of a run's event. */
  function EventRowId(run: string, sequence: int): string { EVENT_PREFIX + run + ":" + Text(sequence) }

  lemma TextDenotes(v: nat)
    ensures ValueOf(Text(v)) == v && Text(v) != "" && ':' !in Text(v)
  {
    DigitsDenote(v);
    if v == 0 {
      assert ValueOf("0"[..0]) == 0;
    }
  }

  lemma {:induction false} LastPart(a: string, b: string, x: string, y: string)
    requires a + ":" + x == b + ":" + y && ':' !in x && ':' !in y
    ensures a == b && x == y
    decreases |x|
  {
    var l, r := a + ":" + x, b + ":" + y;
    assert l[|l| - 1] == (if x == [] then ':' else x[|x| - 1]);
    assert r[|r| - 1] == (if y == [] then ':' else y[|y| - 1]);
    if x == [] {
      assert l[..|l| - 1] == a && r[..|r| - 1] == b;
    } else {
      var x', y' := x[..|x| - 1], y[..|y| - 1];
      assert l[..|l| - 1] == a + ":" + x' && r[..|r| - 1] == b + ":" + y';
      LastPart(a, b, x', y');
      assert x == x' + [x[|x| - 1]] && y == y' + [y[|y| - 1]];
    }
  }

  /**
   No two events of any runs share a row, whatever the run IDs contain, unless they belong to
   the same run and have the same sequence number, or both a negative one.
   */
  lemma EventRowsAreDistinct(run: string, sequence: int, run': string, sequence': int)
    ensures EventRowId(run, sequence) == EventRowId(run', sequence') <==>
      run == run' && (sequence == sequence' || (sequence < 0 && sequence' < 0))
  {
    var a, b := EventRowId(run, sequence), EventRowId(run', sequence');
    if sequence >= 0 { TextDenotes(sequence); }
    if sequence' >= 0 { TextDenotes(sequence'); }
    if a == b {
      LastPart(EVENT_PREFIX + run, EVENT_PREFIX + run', Text(sequence), Text(sequence'));
      assert (EVENT_PREFIX + run)[|EVENT_PREFIX|..] == run && (EVENT_PREFIX + run')[|EVENT_PREFIX|..] == run';
    }
  }
}
