/** The failure values of the decode passes and the failure-compatible
    wrappers that carry them.  Every exception the library throws, and every
    place where the library would dereference something that is not there,
    becomes an `Error`. */
module Outcomes {

  /** What a decode pass can fail with. */
  datatype Error =
    /** `InvalidHeaderError`, carrying the magic or id that was read. */
    | InvalidHeader(magic: nat)
    /** `InvalidVersionError`, carrying the version that was read. */
    | InvalidVersion(version: nat)
    /** `std::runtime_error` with its message. */
    | Runtime(message: string)
    /** `std::out_of_range`, thrown by a checked `at()` lookup. */
    | OutOfRange
    /** `std::logic_error` with its message. */
    | Logic(message: string)
    /** A debug-build `assert` of the source that does not hold. */
    | Assertion(condition: string)
    /** Following a reference that is null. */
    | NullReference
    /** Following a pointer field that was never fixed up, or one computed
        from a null base. */
    | WildReference
    /** A read or write outside the buffer; undefined behaviour in the source. */
    | OutOfBounds
    /** An integer division or remainder by zero; undefined behaviour in the source. */
    | DivisionByZero

  datatype Option<+T> = None | Some(value: T)

  /** A value or the error that stopped its computation. */
  datatype Result<+T> = Ok(value: T) | Err(error: Error) {
    predicate IsFailure() { Err? }

    function PropagateFailure<U>(): Result<U>
      requires Err?
    {
      Err(error)
    }

    function Extract(): T
      requires Ok?
    {
      value
    }
  }

  /** The result of a step that produces nothing but may fail. */
  datatype Outcome = Pass | Fail(error: Error) {
    predicate IsFailure() { Fail? }

    function PropagateFailure(): Outcome
      requires Fail?
    {
      this
    }
  }

  /** `Pass` when `cond` holds, the given error otherwise. */
  function Need(cond: bool, e: Error): (r: Outcome)
    ensures r.Pass? <==> cond
    ensures r.Fail? ==> r.error == e
  {
    if cond then Pass else Fail(e)
  }

  /** The values of `rs` in order, or the error of the first of them that
      failed: a loop that builds one value per element and stops at the
      first failure. */
  function Gathered<T>(rs: seq<Result<T>>): (r: Result<seq<T>>)
    ensures r.Ok? ==> |r.value| == |rs|
    decreases |rs|
  {
    if rs == [] then Ok([])
    else
      var prev :- Gathered(rs[..|rs| - 1]);
      var v :- rs[|rs| - 1];
      Ok(prev + [v])
  }

  /** Gathering succeeds exactly when every element does, and then yields
      their values in order; otherwise it fails with the error of the first
      element that failed, at position `first`. */
  lemma {:induction false} GatheredMeaning<T>(rs: seq<Result<T>>) returns (first: nat)
    ensures Gathered(rs).Ok? <==> forall i :: 0 <= i < |rs| ==> rs[i].Ok?
    ensures Gathered(rs).Ok? ==>
              |Gathered(rs).value| == |rs| && forall i :: 0 <= i < |rs| ==> Gathered(rs).value[i] == rs[i].value
    ensures Gathered(rs).Err? ==>
              first < |rs| && rs[first].Err? && Gathered(rs).error == rs[first].error &&
              forall i :: 0 <= i < first ==> rs[i].Ok?
    decreases |rs|
  {
    first := 0;
    if rs != [] {
      var init := rs[..|rs| - 1];
      first := GatheredMeaning(init);
      if Gathered(init).Ok? {
        first := |rs| - 1;
      } else {
        assert rs[first] == init[first];
      }
    }
  }

  /** One more element: the step of the loop. */
  lemma GatheredNext<T>(rs: seq<Result<T>>, i: nat)
    requires i < |rs|
    ensures Gathered(rs[..i + 1]) ==
              if Gathered(rs[..i]).Err? then Gathered(rs[..i])
              else if rs[i].Err? then Err(rs[i].error)
              else Ok(Gathered(rs[..i]).value + [rs[i].value])
  {
    assert rs[..i + 1][..i] == rs[..i];
  }

  /** Once a prefix fails, the whole sequence fails with its error: the
      loop's early return. */
  lemma {:induction false} GatheredStaysFailed<T>(rs: seq<Result<T>>, k: nat, j: nat)
    requires k <= j <= |rs| && Gathered(rs[..k]).Err?
    ensures Gathered(rs[..j]) == Gathered(rs[..k])
    ensures j == |rs| ==> Gathered(rs) == Gathered(rs[..k])
    decreases j - k
  {
    if k < j {
      GatheredStaysFailed(rs, k, j - 1);
      GatheredNext(rs, j - 1);
    }
    assert rs[..|rs|] == rs;
  }
}
