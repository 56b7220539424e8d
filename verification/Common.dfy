/** Shared value types and the few arithmetic helpers every component uses. */
module Common {
  datatype Option<+T> = None | Some(value: T)

  datatype Result<+T, +E> = Ok(value: T) | Err(error: E)

  const DAY_MS := 86_400_000

  function Min(a: int, b: int): int { if a <= b then a else b }

  function Max(a: int, b: int): int { if a <= b then b else a }

  /** A guard in a chain of guards: the first one that fails gives the reason. */
  function Guard<E>(before: Option<E>, fails: bool, reason: E): Option<E> {
    if before.Some? then before else if fails then Some(reason) else None
  }

  /** JavaScript's `Math.round` on exact reals: ties go up. */
  function RoundHalfUp(x: real): int { (x + 0.5).Floor }

  /** `Math.min(hi, Math.max(lo, n))`. */
  function ClampReal(x: real, lo: real, hi: real): real {
    if x < lo then lo else if hi < x then hi else x
  }

  predicate StartsWith(s: string, prefix: string) { prefix <= s }

  /** UTC day number of a millisecond timestamp; `/` rounds down for a positive divisor. */
  function EpochDay(nowMs: int): int { nowMs / DAY_MS }

  /** A day begins at a multiple of 24 hours since the epoch and holds 24 hours. */
  lemma EpochDayMeans(nowMs: int)
    ensures EpochDay(nowMs) * (24 * 60 * 60 * 1_000) <= nowMs < (EpochDay(nowMs) + 1) * (24 * 60 * 60 * 1_000)
  {
  }

  lemma EpochDayMonotone(a: int, b: int)
    requires a <= b
    ensures EpochDay(a) <= EpochDay(b)
  {
  }

  /** The last bar separates what follows it. */
  lemma LastBarUnique(a: string, b: string, r: string, t: string)
    requires '|' !in r && '|' !in t && a + "|" + r == b + "|" + t
    ensures a == b && r == t
  {
    var m := a + "|" + r;
    assert m[|a|] == '|' && m[|b|] == '|';
    assert forall i | |a| < i < |m| :: m[i] == r[i - |a| - 1];
    assert forall i | |b| < i < |m| :: m[i] == t[i - |b| - 1];
    assert |a| == |b|;
    assert a == m[..|a|] && b == m[..|b|];
    assert r == m[|a| + 1..] && t == m[|b| + 1..];
  }

  /** The first separator ends what precedes it. */
  lemma SplitUnique(c: char, a: string, b: string, r: string, s: string)
    requires c !in a && c !in b && a + [c] + r == b + [c] + s
    ensures a == b && r == s
  {
    var m := a + [c] + r;
    assert m[|a|] == c && m[|b|] == c;
    assert forall k | 0 <= k < |a| :: m[k] == a[k];
    assert forall k | 0 <= k < |b| :: m[k] == b[k];
    assert |a| == |b|;
    assert a == m[..|a|] && b == m[..|b|];
    assert r == m[|a| + 1..] && s == m[|b| + 1..];
  }

  lemma BarSplitUnique(a: string, b: string, r: string, s: string)
    requires '|' !in a && '|' !in b && a + "|" + r == b + "|" + s
    ensures a == b && r == s
  {
    SplitUnique('|', a, b, r, s);
  }

  lemma Reassociate(a: string, b: string, c: string)
    ensures (a + b) + c == a + (b + c)
  {
  }
}
