/** Failure-carrying values, and the "first failure wins" search over a
    sequence of per-element verdicts that the helpers' loops perform. */
module Wrappers {

  datatype Option<+T> = None | Some(value: T)

  /** A Go (value, error) pair: the value, or the error that stopped its computation. */
  datatype Result<+R, +E> = Success(value: R) | Failure(error: E)

  /** A Go `error` return: nil (Pass) or an error value (Fail). */
  datatype Outcome<+E> = Pass | Fail(error: E)

  /** Position of the first failure among the leading `n` verdicts: a loop
      that returns its first non-nil error. */
  function FirstFail<E>(vs: seq<Outcome<E>>, n: nat): (r: Option<nat>)
    requires n <= |vs|
    ensures r.Some? ==> r.value < n && vs[r.value].Fail?
    ensures r.Some? ==> forall j :: 0 <= j < r.value ==> vs[j].Pass?
    ensures r.None? <==> forall j :: 0 <= j < n ==> vs[j].Pass?
  {
    if n == 0 then None
    else match FirstFail(vs, n - 1)
      case Some(k) => Some(k)
      case None => if vs[n - 1].Fail? then Some(n - 1) else None
  }

  /** Once a failure is found, looking at more verdicts finds the same one. */
  lemma {:induction false} FirstFailStable<E>(vs: seq<Outcome<E>>, n: nat, m: nat)
    requires n <= m <= |vs| && FirstFail(vs, n).Some?
    ensures FirstFail(vs, m) == FirstFail(vs, n)
  {
    if n < m {
      FirstFailStable(vs, n, m - 1);
    }
  }
}
