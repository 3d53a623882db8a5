/** shared/config/config.go: getEnvInt64, which supplies the worker ID from the environment. */
module Config {
  import opened Bits
  import opened Domain
  import Snowflake

  /** Two's-complement reduction to int64. */
  function Wrap64(x: int): (r: int)
    ensures -0x8000_0000_0000_0000 <= r < 0x8000_0000_0000_0000
    ensures r == x % 0x1_0000_0000_0000_0000 || r == x % 0x1_0000_0000_0000_0000 - 0x1_0000_0000_0000_0000
  {
    var u := x % WORD;
    if u < WORD / 2 then u else u - WORD
  }

  predicate IsDigit(c: char) {
    '0' <= c <= '9'
  }

  function Digit(c: char): nat
    requires IsDigit(c)
  {
    (c as int) - ('0' as int)
  }

  /** The number an all-digit string denotes, without any bound. */
  function Decimal(v: string): nat
    requires forall i :: 0 <= i < |v| ==> IsDigit(v[i])
  {
    if v == [] then 0 else 10 * Decimal(v[..|v| - 1]) + Digit(v[|v| - 1])
  }

  ghost predicate AllDigits(v: string) {
    forall i :: 0 <= i < |v| ==> IsDigit(v[i])
  }

  /** Parsing a printed number gives it back. */
  lemma {:induction false} ParsePrinted(n: nat)
    ensures AllDigits(Printed(n)) && Printed(n) != "" && Decimal(Printed(n)) == n
  {
    var s := Printed(n);
    if n < 10 {
      assert s[..0] == "";
      assert Digit(s[0]) == n;
    } else {
      ParsePrinted(n / 10);
      assert s[..|s| - 1] == Printed(n / 10);
    }
  }

  /** Wrapping after every digit and wrapping the final number agree. */
  lemma WrapStep(n: int, d: nat)
    ensures Wrap64(Wrap64(n) * 10 + d) == Wrap64(n * 10 + d)
  {
    var k := if n % WORD < WORD / 2 then n / WORD else n / WORD + 1;
    assert Wrap64(n) == n - WORD * k;
    assert Wrap64(n) * 10 + d == (n * 10 + d) - WORD * (10 * k);
    SameResidue(n * 10 + d, 10 * k);
  }

  lemma SameResidue(x: int, k: int)
    ensures (x - WORD * k) % WORD == x % WORD
  {
    QuotientUnique(x - WORD * k, WORD, x / WORD - k, x % WORD);
  }

  /** The parser: the fallback for a missing or non-numeric value, else the value modulo 2^64. */
  method GetEnvInt64(v: string, fallback: int) returns (n: int)
    ensures v == "" || !AllDigits(v) ==> n == fallback
    ensures v != "" && AllDigits(v) ==> n == Wrap64(Decimal(v))
  {
    if v == "" {
      return fallback;
    }
    n := 0;
    for i := 0 to |v|
      invariant forall j :: 0 <= j < i ==> IsDigit(v[j])
      invariant n == Wrap64(Decimal(v[..i]))
    {
      if !IsDigit(v[i]) {
        return fallback;
      }
      WrapStep(Decimal(v[..i]), Digit(v[i]));
      n := Wrap64(n * 10 + Digit(v[i]));
      assert v[..i + 1][..i] == v[..i];
    }
    assert v[..|v|] == v;
  }

  /** For every environment string the generator's worker ID fits its 10 bits. It is the number written
      there exactly when that number is below 1024; a larger one gives 0, unless it is so large that its
      remainder modulo 2^64 happens to be below 1024. */
  method WorkerFromEnv(v: string) returns (g: Snowflake.Generator)
    ensures fresh(g) && g.Valid() && g.workerID < Snowflake.WORKERS
    ensures v != "" && AllDigits(v) ==>
              var n := Decimal(v) % 0x1_0000_0000_0000_0000;
              g.workerID == if n < 1024 then n else 0
    ensures v != "" && AllDigits(v) && 1024 <= Decimal(v) < 0x1_0000_0000_0000_0000 ==> g.workerID == 0
    ensures v != "" && AllDigits(v) ==> (g.workerID == Decimal(v) <==> Decimal(v) < Snowflake.WORKERS)
    ensures v == "" || !AllDigits(v) ==> g.workerID == 1
  {
    var n := GetEnvInt64(v, 1);
    g := new Snowflake.Generator(n);
  }
}
