/** Values shared by every part of the model: a nullable wrapper, the .NET
    exceptions the core throws, and a result type that carries either a value
    or the exception that would have been thrown. */
module Common {

  /** A .NET reference that may be null. */
  datatype Option<+T> = None | Some(value: T) {
    function GetOr(default: T): T {
      match this
      case Some(v) => v
      case None => default
    }
  }

  /** The exceptions thrown by the core. `message` is the message string the
      throwing code passes to the exception's constructor. */
  datatype Exception =
    | ArgumentNullException(paramName: string, message: string)
    | ArgumentException(paramName: string, message: string)
    | NotSupportedException(message: string)
    | NullReferenceException
    | OtherException(typeName: string, message: string)
  {
    /** The exception's Message property (the parameter-name suffix .NET adds is not modelled). */
    function Message(): string {
      match this
      case ArgumentNullException(_, m) => m
      case ArgumentException(_, m) => m
      case NotSupportedException(m) => m
      case NullReferenceException => "Object reference not set to an instance of an object."
      case OtherException(_, m) => m
    }

    /** Whether `catch (ArgumentException)` takes the exception: an
        ArgumentException or its subclass ArgumentNullException. */
    predicate IsArgumentException() {
      ArgumentException? || ArgumentNullException?
    }

    /** The exception's ToString(), without the stack trace. */
    function Describe(): string {
      match this
      case ArgumentNullException(_, m) => "System.ArgumentNullException: " + m
      case ArgumentException(_, m) => "System.ArgumentException: " + m
      case NotSupportedException(m) => "System.NotSupportedException: " + m
      case NullReferenceException => "System.NullReferenceException: " + Message()
      case OtherException(t, m) => t + ": " + m
    }
  }

  /** Either the value a call returns or the exception it throws. */
  datatype Result<+T> = Ok(value: T) | Err(error: Exception) {
    predicate IsFailure() {
      Err?
    }

    function PropagateFailure<U>(): Result<U>
      requires Err?
    {
      Err(error)
    }

    function Extract(): T
      requires Ok?
    {
      value
    }
  }

  /** Applies `f` to each element in order and stops at the first
      exception: what a `foreach` over a throwing body, or materialising a
      LINQ `Select` with a throwing projection, does. */
  function Traverse<A, B>(xs: seq<A>, f: A -> Result<B>): (r: Result<seq<B>>)
    ensures r.Ok? ==> |r.value| == |xs|
  {
    if |xs| == 0 then Ok([])
    else
      var init :- Traverse(xs[..|xs| - 1], f);
      var last :- f(xs[|xs| - 1]);
      Ok(init + [last])
  }

  /** Traverse succeeds exactly when every element succeeds, and then it
      collects the elements' values in order. */
  lemma {:induction false} TraverseOk<A, B>(xs: seq<A>, f: A -> Result<B>)
    ensures Traverse(xs, f).Ok? <==> forall i | 0 <= i < |xs| :: f(xs[i]).Ok?
    ensures Traverse(xs, f).Ok? ==> forall i | 0 <= i < |xs| :: Traverse(xs, f).value[i] == f(xs[i]).value
  {
    if |xs| > 0 {
      var init := xs[..|xs| - 1];
      TraverseOk(init, f);
      assert forall i | 0 <= i < |init| :: init[i] == xs[i];
    }
  }

  /** When every element yields the matching value, Traverse collects exactly those values. */
  lemma TraverseAllOk<A, B>(xs: seq<A>, f: A -> Result<B>, ys: seq<B>)
    requires |ys| == |xs|
    requires forall i | 0 <= i < |xs| :: f(xs[i]) == Ok(ys[i])
    ensures Traverse(xs, f) == Ok(ys)
  {
    TraverseOk(xs, f);
    assert Traverse(xs, f).value == ys;
  }

  /** One failing element makes Traverse fail. */
  lemma TraverseSomeErr<A, B>(xs: seq<A>, f: A -> Result<B>, i: nat)
    requires i < |xs| && f(xs[i]).Err?
    ensures Traverse(xs, f).Err?
  {
    TraverseOk(xs, f);
  }

  /** A failing Traverse fails with the exception of the first failing element. */
  lemma {:induction false} TraverseFirstError<A, B>(xs: seq<A>, f: A -> Result<B>) returns (k: nat)
    requires Traverse(xs, f).Err?
    ensures k < |xs| && f(xs[k]).Err? && Traverse(xs, f).error == f(xs[k]).error
    ensures forall j | 0 <= j < k :: f(xs[j]).Ok?
  {
    var init := xs[..|xs| - 1];
    assert forall i | 0 <= i < |init| :: init[i] == xs[i];
    if Traverse(init, f).Err? {
      k := TraverseFirstError(init, f);
    } else {
      TraverseOk(init, f);
      k := |xs| - 1;
    }
  }

  /** Once a prefix fails, whatever follows it is never looked at. */
  lemma {:induction false} TraverseStopsAtError<A, B>(xs: seq<A>, ys: seq<A>, f: A -> Result<B>)
    requires Traverse(xs, f).Err?
    ensures Traverse(xs + ys, f) == Traverse(xs, f)
    decreases |ys|
  {
    if |ys| > 0 {
      var front := ys[..|ys| - 1];
      assert (xs + ys)[..|xs + ys| - 1] == xs + front;
      TraverseStopsAtError(xs, front, f);
    } else {
      assert xs + ys == xs;
    }
  }

  /** When the elements before position i succeed and element i fails,
      Traverse fails with element i's exception. */
  lemma TraverseFailsAt<A, B>(xs: seq<A>, i: nat, f: A -> Result<B>)
    requires i < |xs| && Traverse(xs[..i], f).Ok? && f(xs[i]).Err?
    ensures Traverse(xs, f) == Err(f(xs[i]).error)
  {
    TraverseSnoc(xs[..i], xs[i], f);
    assert xs[..i + 1] == xs[..i] + [xs[i]];
    TraverseStopsAtError(xs[..i + 1], xs[i + 1..], f);
    assert xs[..i + 1] + xs[i + 1..] == xs;
  }

  /** One more element: the step a loop over the elements takes. */
  lemma TraverseSnoc<A, B>(xs: seq<A>, x: A, f: A -> Result<B>)
    ensures Traverse(xs + [x], f) ==
      match Traverse(xs, f)
      case Err(e) => Err(e)
      case Ok(vs) => (match f(x) case Err(e) => Err(e) case Ok(v) => Ok(vs + [v]))
  {
    assert (xs + [x])[..|xs|] == xs;
  }
}

