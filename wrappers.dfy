/** Option and Result, used for the places where the JavaScript code yields
    `undefined`/`null` or throws. */
module Wrappers {

  datatype Option<+T> = None | Some(value: T)

  datatype Result<+T, +E> = Ok(value: T) | Err(error: E) {
    predicate IsFailure() { Err? }

    function PropagateFailure<U>(): Result<U, E>
      requires Err?
    {
      Err(error)
    }

    function Extract(): T
      requires Ok?
    {
      value
    }
  }

  /** The values of `rs` in order, or the first failure among them: a loop
      that stops at the first exception. */
  function Collected<T, E>(rs: seq<Result<T, E>>): (r: Result<seq<T>, E>)
    ensures r.Ok? ==> |r.value| == |rs|
    decreases |rs|
  {
    if |rs| == 0 then Ok([])
    else
      var prev :- Collected(rs[..|rs| - 1]);
      var x :- rs[|rs| - 1];
      Ok(prev + [x])
  }

  /** The collection succeeds exactly when every result does, and then it
      holds their values. */
  lemma {:induction false} CollectedOk<T, E>(rs: seq<Result<T, E>>)
    ensures Collected(rs).Ok? <==> forall i :: 0 <= i < |rs| ==> rs[i].Ok?
    ensures Collected(rs).Ok? ==> forall i :: 0 <= i < |rs| ==> Collected(rs).value[i] == rs[i].value
    decreases |rs|
  {
    if |rs| > 0 {
      var p := rs[..|rs| - 1];
      CollectedOk(p);
      assert forall i :: 0 <= i < |p| ==> p[i] == rs[i];
    }
  }

  /** A failing collection fails with its first failing result. */
  lemma {:induction false} CollectedErr<T, E>(rs: seq<Result<T, E>>) returns (i: nat)
    requires Collected(rs).Err?
    ensures i < |rs| && rs[i] == Err(Collected(rs).error)
    ensures forall j :: 0 <= j < i ==> rs[j].Ok?
    decreases |rs|
  {
    var p := rs[..|rs| - 1];
    if Collected(p).Err? {
      i := CollectedErr(p);
      assert forall j :: 0 <= j <= i ==> p[j] == rs[j];
    } else {
      CollectedOk(p);
      assert forall j :: 0 <= j < |p| ==> p[j] == rs[j];
      i := |rs| - 1;
    }
  }

  /** One more result extends the collection, or ends it with its failure. */
  lemma CollectedSnoc<T, E>(rs: seq<Result<T, E>>, k: nat, acc: seq<T>)
    requires k < |rs| && Collected(rs[..k]) == Ok(acc)
    ensures Collected(rs[..k + 1]) == if rs[k].Err? then Err(rs[k].error) else Ok(acc + [rs[k].value])
  {
    assert rs[..k + 1][..k] == rs[..k];
  }

  /** A failure among the first `k` results is the failure of the whole collection. */
  lemma {:induction false} CollectedErrExtends<T, E>(rs: seq<Result<T, E>>, k: nat)
    requires k <= |rs| && Collected(rs[..k]).Err?
    ensures Collected(rs) == Collected(rs[..k])
    decreases |rs|
  {
    if k < |rs| {
      var p := rs[..|rs| - 1];
      assert p[..k] == rs[..k];
      CollectedErrExtends(p, k);
    } else {
      assert rs[..k] == rs;
    }
  }

  /** One more result collected: a failure ends the whole collection, a
      success is appended. */
  lemma CollectStep<T, E>(rs: seq<Result<T, E>>, k: nat, acc: seq<T>, x: Result<T, E>)
    requires k < |rs| && Collected(rs[..k]) == Ok(acc) && x == rs[k]
    ensures x.Err? ==> Collected(rs) == Err(x.error)
    ensures x.Ok? ==> Collected(rs[..k + 1]) == Ok(acc + [x.value])
  {
    CollectedSnoc(rs, k, acc);
    if x.Err? {
      CollectedErrExtends(rs, k + 1);
    }
  }

  /** Having collected every result is having collected them all. */
  lemma CollectedAll<T, E>(rs: seq<Result<T, E>>, acc: seq<T>)
    requires Collected(rs[..|rs|]) == Ok(acc)
    ensures Collected(rs) == Ok(acc)
  {
    assert rs[..|rs|] == rs;
  }
}
