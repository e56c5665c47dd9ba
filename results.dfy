/** The exceptions the collector lets propagate, as values, and the
    combinators the rest of the model uses to sequence them. */
module Results {

  /** The Python exceptions the core raises on malformed data.  `TypeError`
      also stands for `AttributeError` (calling `.get` or `.lower` on a value
      of the wrong shape); `TransportError` is a request that got no answer. */
  datatype Error = KeyError(key: string) | TypeError | TransportError

  datatype Result<T> = Ok(value: T) | Err(error: Error) {
    predicate IsFailure() { Err? }

    function PropagateFailure<U>(): Result<U>
      requires Err?
    {
      Err(error)
    }

    function Extract(): T
      requires Ok?
    {
      value
    }
  }

  /** `acc` followed by what `r` produced, or `r`'s error. */
  function Prepend<T>(acc: seq<T>, r: Result<seq<T>>): Result<seq<T>>
  {
    match r
    case Ok(v) => Ok(acc + v)
    case Err(e) => Err(e)
  }

  /** Applies `f` to every element in order and concatenates the results;
      the first element whose `f` fails decides the error. */
  function ConcatMap<A, B>(xs: seq<A>, f: A -> Result<seq<B>>): Result<seq<B>>
    decreases |xs|
  {
    if xs == [] then Ok([])
    else
      match ConcatMap(xs[..|xs| - 1], f)
      case Err(e) => Err(e)
      case Ok(prev) => Prepend(prev, f(xs[|xs| - 1]))
  }

  /** Applies `f` to every element in order; the first failure decides the error. */
  function MapResult<A, B>(xs: seq<A>, f: A -> Result<B>): Result<seq<B>>
    decreases |xs|
  {
    if xs == [] then Ok([])
    else
      match MapResult(xs[..|xs| - 1], f)
      case Err(e) => Err(e)
      case Ok(prev) =>
        match f(xs[|xs| - 1])
        case Err(e) => Err(e)
        case Ok(y) => Ok(prev + [y])
  }

  lemma ConcatMapSnoc<A, B>(xs: seq<A>, f: A -> Result<seq<B>>, i: nat)
    requires i < |xs|
    ensures ConcatMap(xs[..i + 1], f) ==
            match ConcatMap(xs[..i], f)
            case Err(e) => Err(e)
            case Ok(prev) => Prepend(prev, f(xs[i]))
  {
    assert xs[..i + 1][..i] == xs[..i];
  }

  /** Once a prefix fails, the whole sequence fails with the same error. */
  lemma {:induction false} ConcatMapErrPersists<A, B>(xs: seq<A>, f: A -> Result<seq<B>>, i: nat)
    requires i <= |xs| && ConcatMap(xs[..i], f).Err?
    ensures ConcatMap(xs, f) == ConcatMap(xs[..i], f)
    decreases |xs| - i
  {
    if i < |xs| {
      ConcatMapSnoc(xs, f, i);
      ConcatMapErrPersists(xs, f, i + 1);
    } else {
      assert xs[..i] == xs;
    }
  }

  lemma MapResultSnoc<A, B>(xs: seq<A>, f: A -> Result<B>, i: nat)
    requires i < |xs|
    ensures MapResult(xs[..i + 1], f) ==
            match MapResult(xs[..i], f)
            case Err(e) => Err(e)
            case Ok(prev) =>
              match f(xs[i])
              case Err(e) => Err(e)
              case Ok(y) => Ok(prev + [y])
  {
    assert xs[..i + 1][..i] == xs[..i];
  }

  lemma {:induction false} MapResultErrPersists<A, B>(xs: seq<A>, f: A -> Result<B>, i: nat)
    requires i <= |xs| && MapResult(xs[..i], f).Err?
    ensures MapResult(xs, f) == MapResult(xs[..i], f)
    decreases |xs| - i
  {
    if i < |xs| {
      MapResultSnoc(xs, f, i);
      MapResultErrPersists(xs, f, i + 1);
    } else {
      assert xs[..i] == xs;
    }
  }

  /** The first element on which `f` fails decides the error of the map. */
  lemma MapResultFailsAt<A, B>(xs: seq<A>, f: A -> Result<B>, i: nat)
    requires i < |xs| && MapResult(xs[..i], f).Ok? && f(xs[i]).Err?
    ensures MapResult(xs, f) == Err(f(xs[i]).error)
  {
    MapResultSnoc(xs, f, i);
    MapResultErrPersists(xs, f, i + 1);
  }

  /** A successful map keeps the length and applies `f` elementwise. */
  lemma {:induction false} MapResultOk<A, B>(xs: seq<A>, f: A -> Result<B>)
    requires MapResult(xs, f).Ok?
    ensures |MapResult(xs, f).value| == |xs|
    ensures forall i :: 0 <= i < |xs| ==> f(xs[i]) == Ok(MapResult(xs, f).value[i])
    decreases |xs|
  {
    if xs != [] {
      MapResultOk(xs[..|xs| - 1], f);
    }
  }

  /** The number of elements satisfying `p`. */
  function Count<T>(xs: seq<T>, p: T -> bool): (n: nat)
    ensures n <= |xs|
    decreases |xs|
  {
    if xs == [] then 0 else Count(xs[..|xs| - 1], p) + (if p(xs[|xs| - 1]) then 1 else 0)
  }

  lemma {:induction false} CountAppend<T>(xs: seq<T>, ys: seq<T>, p: T -> bool)
    ensures Count(xs + ys, p) == Count(xs, p) + Count(ys, p)
    decreases |ys|
  {
    if ys == [] {
      assert xs + ys == xs;
    } else {
      assert (xs + ys)[..|xs + ys| - 1] == xs + ys[..|ys| - 1];
      CountAppend(xs, ys[..|ys| - 1], p);
    }
  }

  lemma AppendAssoc<T>(a: seq<T>, b: seq<T>, c: seq<T>)
    ensures a + (b + c) == a + b + c
  {
  }
}
