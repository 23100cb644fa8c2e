/** Rust's `Result` type and the `and` combinator the driver chains its
    initialisation steps with. */
module Results {

  /** `Result<T, E>` as in Rust: a value or an error. */
  datatype Result<+T, +E> = Ok(value: T) | Err(error: E) {

    /** Rust's `Result::and`: `res` when this is `Ok`, otherwise this error.
        The argument is an already evaluated value, as it is in Rust. */
    function And<U>(res: Result<U, E>): (r: Result<U, E>)
      ensures Ok? ==> r == res
      ensures Err? ==> r == Err(error)
    {
      match this
      case Ok(_) => res
      case Err(e) => Err(e)
    }
  }

  /** `Result<(), E>`: an operation that only succeeds or fails. */
  type Outcome<E> = Result<(), E>

  /** The position of the first failed outcome, or `|rs|` when none failed. */
  function FailureIndex<E>(rs: seq<Outcome<E>>): (k: nat)
    ensures k <= |rs|
    ensures forall j :: 0 <= j < k ==> rs[j].Ok?
    ensures k < |rs| ==> rs[k].Err?
  {
    if rs == [] then 0
    else if rs[0].Err? then 0
    else 1 + FailureIndex(rs[1..])
  }

  /** The three properties of `FailureIndex` pin it down. */
  lemma FailureIndexUnique<E>(rs: seq<Outcome<E>>, k: nat)
    requires k <= |rs|
    requires forall j :: 0 <= j < k ==> rs[j].Ok?
    requires k < |rs| ==> rs[k].Err?
    ensures FailureIndex(rs) == k
  {
  }

  /** The first failed outcome, or `Ok(())` when every outcome succeeded. */
  function FirstFailure<E>(rs: seq<Outcome<E>>): (r: Outcome<E>)
    ensures r.Ok? <==> forall j :: 0 <= j < |rs| ==> rs[j].Ok?
    ensures r.Err? ==> exists k :: 0 <= k < |rs| && r == rs[k] && forall j :: 0 <= j < k ==> rs[j].Ok?
  {
    var k := FailureIndex(rs);
    if k < |rs| then rs[k] else Ok(())
  }

  /** `rs[0].and(rs[1]).and(rs[2])...`, folded from the left as Rust
      evaluates a chain of `and` calls. `Ok(())` is neutral on the left. */
  function AndChain<E>(rs: seq<Outcome<E>>): (r: Outcome<E>)
    ensures r.Ok? <==> forall j :: 0 <= j < |rs| ==> rs[j].Ok?
  {
    if rs == [] then Ok(()) else AndChain(rs[..|rs| - 1]).And(rs[|rs| - 1])
  }

  /** A chain of eagerly evaluated `and` calls yields the first failure. */
  lemma {:induction false} AndChainIsFirstFailure<E>(rs: seq<Outcome<E>>)
    ensures AndChain(rs) == FirstFailure(rs)
  {
    if rs != [] {
      var front, last := rs[..|rs| - 1], rs[|rs| - 1];
      AndChainIsFirstFailure(front);
      var k := FailureIndex(front);
      assert forall j :: 0 <= j < |front| ==> rs[j] == front[j];
      if k < |front| {
        FailureIndexUnique(rs, k);
      } else if last.Err? {
        FailureIndexUnique(rs, |front|);
      } else {
        FailureIndexUnique(rs, |rs|);
        assert last.value == ();
      }
    }
  }

  /** The four-step chain written out as the source writes it. */
  lemma AndChainOfFour<E>(a: Outcome<E>, b: Outcome<E>, c: Outcome<E>, d: Outcome<E>)
    ensures a.And(b).And(c).And(d) == FirstFailure([a, b, c, d])
  {
    var rs := [a, b, c, d];
    assert [a][..0] == [];
    assert AndChain([a]) == a;
    assert [a, b][..1] == [a];
    assert AndChain([a, b]) == a.And(b);
    assert [a, b, c][..2] == [a, b];
    assert AndChain([a, b, c]) == a.And(b).And(c);
    assert rs[..3] == [a, b, c];
    assert AndChain(rs) == a.And(b).And(c).And(d);
    AndChainIsFirstFailure(rs);
  }
}
