/** Failure-compatible result types used by the model for the exceptions the
    classifier lets escape (a missing attribute summary, a bad class index, an
    option combination that is refused). */
module Wrappers {

  datatype Option<+T> = None | Some(value: T)

  datatype Result<+R, +E> = Success(value: R) | Failure(error: E) {
    predicate IsFailure() { Failure? }

    function PropagateFailure<U>(): Result<U, E>
      requires Failure?
    {
      Failure(error)
    }

    function Extract(): R
      requires Success?
    {
      value
    }

    /** The same success or failure, without the value. */
    function ToOutcome(): (o: Outcome<E>)
      ensures o.Pass? <==> Success?
      ensures o.Fail? ==> o.error == error
    {
      if Success? then Pass else Fail(error)
    }
  }

  datatype Outcome<+E> = Pass | Fail(error: E) {
    predicate IsFailure() { Fail? }

    function PropagateFailure(): Outcome<E>
      requires Fail?
    {
      this
    }
  }
}

/** Collecting the results of steps that each may fail or produce nothing. */
module Seqs {
  import opened Wrappers

  /** Two results one after the other: the first failure wins, otherwise
      the values of the second follow those of the first. */
  function Concat<T, E>(x: Result<seq<T>, E>, y: Result<seq<T>, E>): (r: Result<seq<T>, E>)
    ensures r.Success? <==> x.Success? && y.Success?
  {
    if x.Failure? then x
    else if y.Failure? then y
    else Success(x.value + y.value)
  }

  /** The values one step gives: its failure, its value, or nothing. */
  function Listed<T, E>(x: Result<Option<T>, E>): (r: Result<seq<T>, E>)
    ensures r.Success? <==> x.Success?
    ensures r.Success? ==> |r.value| <= 1
  {
    match x
    case Failure(e) => Failure(e)
    case Success(None) => Success([])
    case Success(Some(v)) => Success([v])
  }

  lemma ConcatAssociative<T, E>(x: Result<seq<T>, E>, y: Result<seq<T>, E>, z: Result<seq<T>, E>)
    ensures Concat(Concat(x, y), z) == Concat(x, Concat(y, z))
  {
    if x.Success? && y.Success? && z.Success? {
      assert (x.value + y.value) + z.value == x.value + (y.value + z.value);
    }
  }

  lemma ConcatEmpty<T, E>(x: Result<seq<T>, E>)
    ensures Concat(x, Success([])) == x && Concat(Success([]), x) == x
  {
    if x.Success? {
      assert x.value + [] == x.value;
      assert [] + x.value == x.value;
    }
  }

  /** The values of a list of steps that each may fail or produce nothing: the
      first failure aborts, a `None` is skipped. This is how a loop that throws
      and keeps only some of its items behaves. */
  function Collect<T, E>(items: seq<Result<Option<T>, E>>): Result<seq<T>, E>
    decreases |items|
  {
    if items == [] then Success([])
    else Concat(Collect(items[..|items| - 1]), Listed(items[|items| - 1]))
  }

  /** Collecting two lists one after the other is collecting each and
      concatenating: the first failure wins. */
  lemma {:induction false} CollectAppend<T, E>(a: seq<Result<Option<T>, E>>, b: seq<Result<Option<T>, E>>)
    ensures Collect(a + b) == Concat(Collect(a), Collect(b))
    decreases |b|
  {
    if b == [] {
      assert a + b == a;
      ConcatEmpty(Collect(a));
    } else {
      var b0, last := b[..|b| - 1], b[|b| - 1];
      assert (a + b)[..|a + b| - 1] == a + b0;
      assert (a + b)[|a + b| - 1] == last;
      CollectAppend(a, b0);
      ConcatAssociative(Collect(a), Collect(b0), Listed(last));
    }
  }

  /** Collecting one item gives what that item lists. */
  lemma CollectSingle<T, E>(x: Result<Option<T>, E>)
    ensures Collect([x]) == Listed(x)
  {
    assert [x][..0] == [];
    ConcatEmpty(Listed(x));
  }

  /** A failure on a prefix is the failure of the whole list. */
  lemma CollectPrefixFailure<T, E>(a: seq<Result<Option<T>, E>>, b: seq<Result<Option<T>, E>>)
    requires |a| <= |b| && b[..|a|] == a && Collect(a).Failure?
    ensures Collect(b) == Collect(a)
  {
    assert b == a + b[|a|..];
    CollectAppend(a, b[|a|..]);
  }

  /** The number of items that produce a value. */
  function CountSome<T, E>(items: seq<Result<Option<T>, E>>): nat
    decreases |items|
  {
    if items == [] then 0
    else
      var last := items[|items| - 1];
      CountSome(items[..|items| - 1]) + (if last.Success? && last.value.Some? then 1 else 0)
  }

  /** A successful collection: no item failed, it holds one value per item
      that produced one, and each of its values is produced by some item. */
  lemma {:induction false} CollectSuccess<T, E>(items: seq<Result<Option<T>, E>>)
    requires Collect(items).Success?
    ensures forall j :: 0 <= j < |items| ==> items[j].Success?
    ensures |Collect(items).value| == CountSome(items)
    ensures forall x :: x in Collect(items).value ==>
      exists j :: 0 <= j < |items| && items[j] == Success(Some(x))
    decreases |items|
  {
    if items != [] {
      var init := items[..|items| - 1];
      CollectSuccess(init);
      forall x | x in Collect(items).value
        ensures exists j :: 0 <= j < |items| && items[j] == Success(Some(x))
      {
        if x in Collect(init).value {
          var j :| 0 <= j < |init| && init[j] == Success(Some(x));
          assert items[j] == init[j];
        } else {
          assert items[|items| - 1] == Success(Some(x));
        }
      }
      forall j | 0 <= j < |items| ensures items[j].Success? {
        if j < |items| - 1 {
          assert items[j] == init[j];
        }
      }
    }
  }

  /** Results one after the other, as a loop that throws at the first failing
      step builds them: the first failure wins, otherwise their values in order. */
  function ConcatAll<T, E>(xs: seq<Result<seq<T>, E>>): Result<seq<T>, E>
    decreases |xs|
  {
    if xs == [] then Success([]) else Concat(ConcatAll(xs[..|xs| - 1]), xs[|xs| - 1])
  }

  /** The summed length of the successful values. */
  function TotalLength<T, E>(xs: seq<Result<seq<T>, E>>): nat
    decreases |xs|
  {
    if xs == [] then 0
    else TotalLength(xs[..|xs| - 1]) + (if xs[|xs| - 1].Success? then |xs[|xs| - 1].value| else 0)
  }

  /** The whole fails exactly when some step fails, and then with the
      failure of the first failing step. */
  lemma {:induction false} ConcatAllFailure<T, E>(xs: seq<Result<seq<T>, E>>)
    ensures ConcatAll(xs).Failure? <==> exists i :: 0 <= i < |xs| && xs[i].Failure?
    ensures ConcatAll(xs).Failure? ==>
      exists i :: 0 <= i < |xs| && ConcatAll(xs) == xs[i] && forall j :: 0 <= j < i ==> xs[j].Success?
    decreases |xs|
  {
    if xs != [] {
      var init := xs[..|xs| - 1];
      ConcatAllFailure(init);
      if exists i :: 0 <= i < |xs| && xs[i].Failure? {
        var i :| 0 <= i < |xs| && xs[i].Failure?;
        if i < |init| { assert init[i] == xs[i]; }
      }
      if ConcatAll(init).Failure? {
        var i :| 0 <= i < |init| && ConcatAll(init) == init[i] && forall j :: 0 <= j < i ==> init[j].Success?;
        assert xs[i] == init[i];
        forall j | 0 <= j < i ensures xs[j].Success? {
          assert xs[j] == init[j];
        }
      } else {
        forall j | 0 <= j < |init| ensures xs[j].Success? {
          assert xs[j] == init[j];
        }
      }
    }
  }

  /** A success holds every step's values, in order: each step succeeded,
      the lengths add up, and each value comes from some step. */
  lemma {:induction false} ConcatAllSuccess<T, E>(xs: seq<Result<seq<T>, E>>)
    requires ConcatAll(xs).Success?
    ensures forall i :: 0 <= i < |xs| ==> xs[i].Success?
    ensures |ConcatAll(xs).value| == TotalLength(xs)
    ensures forall x :: x in ConcatAll(xs).value ==> exists i :: 0 <= i < |xs| && xs[i].Success? && x in xs[i].value
    decreases |xs|
  {
    if xs != [] {
      var init := xs[..|xs| - 1];
      ConcatAllSuccess(init);
      forall i | 0 <= i < |init| ensures xs[i].Success? {
        assert xs[i] == init[i];
      }
      forall x | x in ConcatAll(xs).value ensures exists i :: 0 <= i < |xs| && xs[i].Success? && x in xs[i].value {
        if x in ConcatAll(init).value {
          var i :| 0 <= i < |init| && init[i].Success? && x in init[i].value;
          assert xs[i] == init[i];
        }
      }
    }
  }

  /** One more step of the loop: the next result is concatenated. */
  lemma ConcatAllStep<T, E>(xs: seq<Result<seq<T>, E>>, n: nat)
    requires n < |xs|
    ensures ConcatAll(xs[..n + 1]) == Concat(ConcatAll(xs[..n]), xs[n])
  {
    assert xs[..n + 1][..n] == xs[..n];
  }

  /** A failure on a prefix of the steps is the failure of the whole. */
  lemma {:induction false} ConcatAllPrefixFailure<T, E>(xs: seq<Result<seq<T>, E>>, n: nat)
    requires n <= |xs| && ConcatAll(xs[..n]).Failure?
    ensures ConcatAll(xs) == ConcatAll(xs[..n])
    decreases |xs|
  {
    if n < |xs| {
      var init := xs[..|xs| - 1];
      assert init[..n] == xs[..n];
      ConcatAllPrefixFailure(init, n);
    } else {
      assert xs[..n] == xs;
    }
  }
}

/** The exceptions of the classifier that the model keeps. */
module Errors {
  datatype MitError =
      /** A numeric split on an attribute with no numeric summary (a null item, then a NullPointerException). */
    | AttributeNotInCatalog(name: string)
      /** The first path entry for a numeric split's attribute is nominal (a ClassCastException). */
    | EntryNotNumeric(name: string)
      /** A leaf's majority index has no class label, or its distribution is empty (index out of bounds). */
    | ClassIndexOutOfRange(index: nat)
      /** The predicted label has no class-weight entry (a null item, then a NullPointerException). */
    | ClassWeightMissing(value: string)
      /** The option checks of setOptions, in the order they are made. */
    | SubtreeRaisingWithUnpruned
    | UnprunedWithReducedErrorPruning
    | ConfidenceWithReducedErrorPruning
    | ConfidenceWithUnpruned
    | ConfidenceOutOfRange
    | FoldsWithoutReducedErrorPruning
}
