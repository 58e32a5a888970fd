/** Shared vocabulary: optional values, clock readings and a few sequence operations. */
module Prelude {

  datatype Option<+T> = None | Some(value: T)

  /** A clock reading or a duration, in milliseconds. */
  type Time = nat

  /** An instant that is absent, or has been reached. */
  predicate Due(at: Option<Time>, now: Time) {
    at.None? || at.value <= now
  }

  /** `take: n` and `slice(0, n)`: a longer `n` keeps everything. */
  function Take<T>(xs: seq<T>, n: nat): seq<T> {
    if n < |xs| then xs[..n] else xs
  }

  predicate Distinct<T(==)>(xs: seq<T>) {
    forall i, j :: 0 <= i < j < |xs| ==> xs[i] != xs[j]
  }

  /** Flags that start low and end high rise somewhere. */
  lemma {:induction false} FirstTurn(flags: seq<bool>) returns (k: nat)
    requires |flags| > 1 && !flags[0] && flags[|flags| - 1]
    ensures k + 1 < |flags| && !flags[k] && flags[k + 1]
  {
    if flags[|flags| - 2] {
      k := FirstTurn(flags[..|flags| - 1]);
    } else {
      k := |flags| - 2;
    }
  }
}
