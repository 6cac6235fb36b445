/** Optional values, outcomes that may fail, and mapping a failing step over a sequence. */
module Wrappers {

  /** A value that may be absent: Ruby's nil and JavaScript's undefined. */
  datatype Option<+T> = None | Some(value: T)
  {
    function GetOr(default: T): T
    {
      match this
      case Some(v) => v
      case None => default
    }
  }

  /** The result of an operation that raises in the source instead of returning. */
  datatype Result<+T> = Ok(value: T) | Err(error: string)
  {
    predicate IsFailure()
    {
      Err?
    }

    function PropagateFailure<U>(): Result<U>
      requires Err?
    {
      Err(error)
    }

    function Extract(): T
      requires Ok?
    {
      value
    }
  }

  /** The index of the first element that `f` maps to a value. */
  function FirstSomeAt<A, B>(xs: seq<A>, f: A -> Option<B>): (r: Option<nat>)
    ensures r.Some? ==> r.value < |xs| && f(xs[r.value]).Some?
                        && forall j :: 0 <= j < r.value ==> f(xs[j]).None?
    ensures r.None? ==> forall j :: 0 <= j < |xs| ==> f(xs[j]).None?
  {
    if |xs| == 0 then None
    else if f(xs[0]).Some? then Some(0)
    else
      match FirstSomeAt(xs[1..], f)
      case None =>
        assert forall j :: 1 <= j < |xs| ==> xs[j] == xs[1..][j - 1];
        None
      case Some(k) =>
        assert forall j :: 1 <= j <= k ==> xs[j] == xs[1..][j - 1];
        Some(k + 1)
  }

  /**
   * Apply `f` to every element in order, as a Ruby `each` that pushes onto an
   * array does: the first element whose step raises decides the outcome.
   */
  function MapResult<A, B>(xs: seq<A>, f: A -> Result<B>): (r: Result<seq<B>>)
    ensures r.Ok? ==> |r.value| == |xs| && forall i :: 0 <= i < |xs| ==> f(xs[i]) == Ok(r.value[i])
    ensures r.Err? ==> exists i :: 0 <= i < |xs| && f(xs[i]) == Err(r.error) && forall j :: 0 <= j < i ==> f(xs[j]).Ok?
  {
    if |xs| == 0 then Ok([])
    else
      var front := xs[..|xs| - 1];
      assert forall i :: 0 <= i < |front| ==> front[i] == xs[i];
      match MapResult(front, f)
      case Err(e) => Err(e)
      case Ok(init) =>
        match f(xs[|xs| - 1])
        case Err(e) =>
          assert forall j :: 0 <= j < |xs| - 1 ==> f(xs[j]).Ok?;
          Err(e)
        case Ok(last) => Ok(init + [last])
  }

  /** Every step succeeds exactly when the mapping does. */
  lemma MapResultOk<A, B>(xs: seq<A>, f: A -> Result<B>)
    ensures MapResult(xs, f).Ok? <==> forall i :: 0 <= i < |xs| ==> f(xs[i]).Ok?
  {
    var r := MapResult(xs, f);
    if r.Err? {
      var i :| 0 <= i < |xs| && f(xs[i]) == Err(r.error) && forall j :: 0 <= j < i ==> f(xs[j]).Ok?;
      assert !f(xs[i]).Ok?;
    }
  }

  /** One more loop round: the mapping of a longer prefix extends the shorter one. */
  lemma MapResultStep<A, B>(xs: seq<A>, f: A -> Result<B>, i: nat, acc: seq<B>)
    requires i < |xs| && MapResult(xs[..i], f) == Ok(acc)
    ensures f(xs[i]).Ok? ==> MapResult(xs[..i + 1], f) == Ok(acc + [f(xs[i]).value])
    ensures f(xs[i]).Err? ==> MapResult(xs, f) == Err(f(xs[i]).error)
  {
    assert xs[..i + 1][..i] == xs[..i];
    if f(xs[i]).Err? {
      MapResultErrExtends(xs, f, i + 1, |xs|);
      assert xs[..|xs|] == xs;
    }
  }

  /** A single successful step maps to a single result. */
  lemma MapResultSingle<A, B>(x: A, f: A -> Result<B>)
    requires f(x).Ok?
    ensures MapResult([x], f) == Ok([f(x).value])
  {
    assert [x][..0] == [];
    assert MapResult([x][..0], f) == Ok([]);
    MapResultStep([x], f, 0, []);
    assert [x][..1] == [x];
    assert [] + [f(x).value] == [f(x).value];
  }

  /** Once a prefix has failed, every longer prefix fails with the same error. */
  lemma {:induction false} MapResultErrExtends<A, B>(xs: seq<A>, f: A -> Result<B>, n: nat, m: nat)
    requires n <= m <= |xs| && MapResult(xs[..n], f).Err?
    ensures MapResult(xs[..m], f) == MapResult(xs[..n], f)
    decreases m - n
  {
    if n < m {
      assert xs[..n + 1][..n] == xs[..n];
      MapResultErrExtends(xs, f, n + 1, m);
    }
  }
}
