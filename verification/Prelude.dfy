/** Small shared vocabulary. */
module Prelude {
  datatype Option<+T> = None | Some(value: T)

  datatype Result<+T, +E> = Ok(value: T) | Err(error: E)

  /** A nonempty set has an element. */
  lemma AnElement<T>(s: set<T>) returns (x: T)
    requires s != {}
    ensures x in s
  {
    x :| x in s;
  }

  function Min(a: int, b: int): int { if a < b then a else b }

  function Max(a: int, b: int): int { if a < b then b else a }

  function Abs(a: int): nat { if a < 0 then -a else a }

  // ---------- division ----------

  lemma ProductNonNegative(a: nat, b: nat)
    ensures a * b >= 0
  {
  }

  lemma MultipleIsLarge(d: int, t: nat)
    ensures d >= 1 ==> d * t >= t
    ensures d <= -1 ==> d * t <= -(t as int)
  {
    if d >= 1 {
      ProductNonNegative(d - 1, t);
      assert d * t == (d - 1) * t + t;
    } else if d <= -1 {
      ProductNonNegative(-d - 1, t);
      assert d * t == -((-d - 1) * t) - t;
    }
  }

  /** Quotient and remainder are the only ones. */
  lemma DivUnique(x: int, t: nat, q: int, m: nat)
    requires x == q * t + m && m < t
    ensures x / t == q && x % t == m
  {
    var q', m' := x / t, x % t;
    assert x == q' * t + m';
    assert (q - q') * t == q * t - q' * t;
    MultipleIsLarge(q - q', t);
  }

  lemma DivMod(x: int, t: nat)
    requires 1 <= t
    ensures x == t * (x / t) + x % t && 0 <= x % t < t
  {
  }
}
