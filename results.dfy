/** Failure-carrying results: the model's stand-in for the exceptions the compiler raises. */
module Results {

  datatype Option<+T> = None | Some(value: T)

  /** `Err` takes the place of a raised exception; `Ok` of a normal return. */
  datatype Result<+T, +E> = Ok(value: T) | Err(error: E)

  /** Puts `prefix` in front of the list carried by a successful result. */
  function PrependAll<T, E>(prefix: seq<T>, r: Result<seq<T>, E>): (q: Result<seq<T>, E>)
    ensures q.Ok? <==> r.Ok?
    ensures r.Err? ==> q == r
    ensures r.Ok? ==> q.value == prefix + r.value
    ensures prefix == [] ==> q == r
  {
    match r
    case Ok(ts) => assert prefix == [] ==> prefix + ts == ts; Ok(prefix + ts)
    case Err(e) => Err(e)
  }

  lemma PrependAllTwice<T, E>(a: seq<T>, b: seq<T>, r: Result<seq<T>, E>)
    ensures PrependAll(a, PrependAll(b, r)) == PrependAll(a + b, r)
  {
    if r.Ok? {
      assert a + (b + r.value) == (a + b) + r.value;
    }
  }
}
