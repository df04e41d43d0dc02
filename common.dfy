/** Option and Result wrappers shared by every module of the model. */
module Common {

  datatype Option<+T> = None | Some(value: T)

  /** A computation that either yields a value or fails with an error, as Python code
      either returns or raises. */
  datatype Result<+T, +E> = Ok(value: T) | Err(error: E) {
    predicate IsFailure() { Err? }

    function PropagateFailure<U>(): Result<U, E>
      requires Err?
    {
      Err(error)
    }

    function Extract(): T
      requires Ok?
    {
      value
    }
  }

  /** A check that either passes or fails with an error and carries no value. */
  datatype Outcome<+E> = Pass | Fail(error: E)

  // A loop that appends one record per item and stops at the first error: its
  // results, item by item, and what it returns.

  /** All the records, or the first error among the outcomes. */
  function Collect<T, E>(rs: seq<Result<T, E>>): Result<seq<T>, E> {
    if rs == [] then Ok([])
    else
      var t :- rs[0];
      var rest :- Collect(rs[1..]);
      Ok([t] + rest)
  }

  /** Collecting succeeds exactly when every outcome does, and then keeps every record
      in order. */
  lemma {:induction false} CollectOk<T, E>(rs: seq<Result<T, E>>)
    ensures Collect(rs).Ok? <==> forall j | 0 <= j < |rs| :: rs[j].Ok?
    ensures Collect(rs).Ok? ==> |Collect(rs).value| == |rs| && forall j | 0 <= j < |rs| :: rs[j] == Ok(Collect(rs).value[j])
  {
    if rs != [] {
      CollectOk(rs[1..]);
    }
  }

  /** A failed collection carries the error of the first failing outcome. */
  lemma {:induction false} CollectErr<T, E>(rs: seq<Result<T, E>>)
    ensures Collect(rs).Err? ==> exists j | 0 <= j < |rs| :: rs[j] == Err(Collect(rs).error) && forall i | 0 <= i < j :: rs[i].Ok?
  {
    if rs != [] && rs[0].Ok? {
      CollectErr(rs[1..]);
      if Collect(rs).Err? {
        var j :| 0 <= j < |rs[1..]| && rs[1..][j] == Err(Collect(rs).error) && forall i | 0 <= i < j :: rs[1..][i].Ok?;
        assert rs[j + 1] == Err(Collect(rs).error);
      }
    }
  }

  /** The first index from `from` on whose element satisfies `p`, as a search loop
      that stops at the first hit finds it. */
  function FirstWhere<T>(xs: seq<T>, from: nat, p: T -> bool): (r: Option<nat>)
    requires from <= |xs|
    ensures r.Some? ==> from <= r.value < |xs| && p(xs[r.value])
    ensures r.Some? ==> forall j | from <= j < r.value :: !p(xs[j])
    ensures r.None? ==> forall j | from <= j < |xs| :: !p(xs[j])
    decreases |xs| - from
  {
    if from == |xs| then None
    else if p(xs[from]) then Some(from)
    else FirstWhere(xs, from + 1, p)
  }

  /** The first position from `from` to `last`, both included, that satisfies `p`, as a
      scan that tries each position in turn finds it. */
  function FirstPosition(from: nat, last: nat, p: nat -> bool): (r: Option<nat>)
    requires from <= last
    ensures r.Some? ==> from <= r.value <= last && p(r.value)
    ensures r.Some? ==> forall k | from <= k < r.value :: !p(k)
    ensures r.None? ==> forall k | from <= k <= last :: !p(k)
    decreases last - from
  {
    if p(from) then Some(from)
    else if from == last then None
    else FirstPosition(from + 1, last, p)
  }

  /** The records gathered so far in front of what the remaining items give. */
  function Prepend<T, E>(out: seq<T>, r: Result<seq<T>, E>): Result<seq<T>, E> {
    if r.Ok? then Ok(out + r.value) else r
  }
}
