/** The few Python built-ins that the retrieval code leans on: `range` with a
    step, slicing with clamped bounds, list indexing (negative indices count
    from the end), and the exceptions these raise. */
module Py {

  /** The exceptions the modelled code can raise, named for their cause. */
  datatype Error =
    | ZeroStep          // ValueError: `range()` with a step of zero
    | EmptyCorpus       // IndexError: `shape[1]` of the embedding array of zero chunks
    | IndexOutOfRange   // IndexError: a list index outside `-len .. len - 1`
    | UnknownKey        // KeyError: a dictionary lookup of an absent key

  datatype Result<+T> = Ok(value: T) | Err(error: Error)

  function Min(a: int, b: int): int { if a <= b then a else b }

  /** `s[lo:hi]` for `0 <= lo <= hi`: both bounds are clamped to `len(s)`. */
  function Slice<T>(s: seq<T>, lo: nat, hi: nat): seq<T>
    requires lo <= hi
  {
    s[Min(lo, |s|)..Min(hi, |s|)]
  }

  /** `range(0, stop, step)` for a positive step: 0, step, 2*step, ... as long
      as the value stays below `stop`. */
  function Steps(stop: nat, step: nat): (r: seq<nat>)
    requires step >= 1
    ensures forall k :: 0 <= k < |r| ==> r[k] == k * step && r[k] < stop
    ensures |r| * step >= stop
  {
    CeilDivBounds(stop, step);
    seq((stop + step - 1) / step, k => k * step)
  }

  /** `(n + d - 1) / d` is the ceiling of n / d. */
  lemma CeilDivBounds(n: nat, d: nat)
    requires d >= 1
    ensures ((n + d - 1) / d) * d >= n
    ensures forall k :: 0 <= k < (n + d - 1) / d ==> k * d < n
  {
    var q, rem := (n + d - 1) / d, (n + d - 1) % d;
    assert n + d - 1 == q * d + rem;
    forall k | 0 <= k < q
      ensures k * d < n
    {
      MulMono(k, q - 1, d);
      assert (q - 1) * d == q * d - d;
    }
  }

  lemma MulMono(a: nat, b: nat, d: nat)
    requires a <= b
    ensures a * d <= b * d
  {
    assert b * d == a * d + (b - a) * d;
  }

  /** Ceiling division has one answer: the `q` with `(q - 1) * d < n <= q * d`. */
  lemma CeilUnique(n: nat, d: nat, a: nat, b: nat)
    requires d >= 1
    requires a * d >= n && (a == 0 || (a - 1) * d < n)
    requires b * d >= n && (b == 0 || (b - 1) * d < n)
    ensures a == b
  {
    if a < b {
      MulMono(a, b - 1, d);
    } else if b < a {
      MulMono(b, a - 1, d);
    }
  }

  /** Division with a remainder in `0 .. d - 1` has one answer. */
  lemma ModUnique(t: nat, q: nat, rem: nat, d: nat)
    requires d >= 1 && rem < d && t == q * d + rem
    ensures t % d == rem
  {
    var q', rem' := t / d, t % d;
    assert t == q' * d + rem';
    if q < q' {
      MulMono(q + 1, q', d);
    } else if q' < q {
      MulMono(q' + 1, q, d);
    }
  }

  /** Python's `s[i]`: a negative index counts from the end. */
  predicate InIndexRange(n: nat, i: int) { -(n as int) <= i < n }

  function Index<T>(s: seq<T>, i: int): (x: T)
    requires InIndexRange(|s|, i)
    ensures x in s
  {
    if i >= 0 then s[i] else s[|s| + i]
  }
}
