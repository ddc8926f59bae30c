/** Vocabulary shared by every component of the model. */
module Basics {

  datatype Option<+T> = None | Some(value: T)

  /** Instants and durations, in nanoseconds, as in the source's `time` package. */
  type Time = int

  const SECOND: Time := 1_000_000_000
  const MINUTE: Time := 60 * SECOND
  const HOUR: Time := 60 * MINUTE
  const DAY: Time := 24 * HOUR

  /** `n` times `r`, by repeated addition. */
  function Times(n: nat, r: int): int {
    if n == 0 then 0 else Times(n - 1, r) + r
  }

  lemma {:induction false} TimesIsProduct(n: nat, r: int)
    ensures Times(n, r) == n * r
  {
    if n > 0 {
      TimesIsProduct(n - 1, r);
    }
  }

  /** `n` whole periods of length `r` fit into `t` only if `n` is at most the quotient. */
  lemma {:induction false} PeriodsFit(n: nat, r: int, t: int)
    requires r > 0 && Times(n, r) <= t
    ensures n <= t / r
  {
    TimesIsProduct(n, r);
    NotPastQuotient(n, r, t, t / r);
  }

  lemma NotPastQuotient(n: nat, r: int, t: int, q: int)
    requires r > 0 && n * r <= t < q * r + r
    ensures n <= q
  {
    assert (n - q - 1) * r < 0;
  }
}
