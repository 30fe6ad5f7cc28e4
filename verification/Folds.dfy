// Passes over a key-ordered snapshot that stop at the first error.
module Folds {
  import opened Base

  /** Thread s through step for the first n keys. */
  function Fold<S, K, E>(step: (S, K) -> Result<S, E>, s: S, ks: seq<K>, n: nat): Result<S, E>
    requires n <= |ks|
  {
    if n == 0 then Ok(s)
    else
      match Fold(step, s, ks, n - 1)
      case Err(e) => Err(e)
      case Ok(t) => step(t, ks[n - 1])
  }

  /** Every step out of a state that satisfies inv succeeds and satisfies it again. */
  ghost predicate Carries<S(!new), K, E>(step: (S, K) -> Result<S, E>, ks: seq<K>, inv: (S, nat) -> bool) {
    forall t, i: nat :: i < |ks| && inv(t, i) ==> step(t, ks[i]).Ok? && inv(step(t, ks[i]).value, i + 1)
  }

  lemma {:induction false} FoldCarries<S(!new), K, E>(step: (S, K) -> Result<S, E>, s: S, ks: seq<K>, n: nat, inv: (S, nat) -> bool)
    requires n <= |ks| && inv(s, 0) && Carries(step, ks, inv)
    ensures Fold(step, s, ks, n).Ok? && inv(Fold(step, s, ks, n).value, n)
  {
    if n > 0 { FoldCarries(step, s, ks, n - 1, inv); }
  }

  /** Every successful step out of a state that satisfies inv satisfies it again. */
  ghost predicate Preserves<S(!new), K, E>(step: (S, K) -> Result<S, E>, ks: seq<K>, inv: (S, nat) -> bool) {
    forall t, i: nat :: i < |ks| && inv(t, i) && step(t, ks[i]).Ok? ==> inv(step(t, ks[i]).value, i + 1)
  }

  lemma {:induction false} FoldPreserves<S(!new), K, E>(step: (S, K) -> Result<S, E>, s: S, ks: seq<K>, n: nat, inv: (S, nat) -> bool)
    requires n <= |ks| && inv(s, 0) && Preserves(step, ks, inv)
    ensures Fold(step, s, ks, n).Ok? ==> inv(Fold(step, s, ks, n).value, n)
  {
    if n > 0 { FoldPreserves(step, s, ks, n - 1, inv); }
  }

  /** A pass succeeds exactly when every step that it comes to does. */
  lemma {:induction false} FoldOkIff<S, K, E>(step: (S, K) -> Result<S, E>, s: S, ks: seq<K>, n: nat)
    requires n <= |ks|
    ensures Fold(step, s, ks, n).Ok? <==> forall i: nat :: i < n && Fold(step, s, ks, i).Ok? ==> step(Fold(step, s, ks, i).value, ks[i]).Ok?
  {
    if n > 0 { FoldOkIff(step, s, ks, n - 1); }
  }

  lemma FoldNext<S, K, E>(step: (S, K) -> Result<S, E>, s: S, ks: seq<K>, i: nat, t: S)
    requires i < |ks| && Fold(step, s, ks, i) == Ok(t)
    ensures Fold(step, s, ks, i + 1) == step(t, ks[i])
  {
  }

  /** A pass that failed early has failed. */
  lemma {:induction false} FoldStaysErr<S, K, E>(step: (S, K) -> Result<S, E>, s: S, ks: seq<K>, i: nat, n: nat)
    requires i <= n <= |ks| && Fold(step, s, ks, i).Err?
    ensures Fold(step, s, ks, n) == Fold(step, s, ks, i)
  {
    if i < n { FoldStaysErr(step, s, ks, i, n - 1); }
  }
}
