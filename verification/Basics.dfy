/** Types shared by every part of the model: Go's fixed-width integers, an optional value,
    the ways a Go call can end, and a fallible map over a slice. */
module Basics {

  type byte = x: int | 0 <= x < 256
  type uint16 = x: int | 0 <= x < 0x1_0000
  type uint32 = x: int | 0 <= x < 0x1_0000_0000
  type uint64 = x: int | 0 <= x < 0x1_0000_0000_0000_0000
  type int64 = x: int | -0x8000_0000_0000_0000 <= x < 0x8000_0000_0000_0000

  /** A Go string: bytes, with a length that fits Go's `int`. */
  type GoString = s: seq<byte> | |s| < 0x8000_0000_0000_0000

  datatype Option<+T> = None | Some(value: T)

  /** How a call ends. `Unspecified` is a float-to-integer conversion out of the target's range,
      which the Go specification leaves to the implementation; nothing is claimed after it. */
  datatype Outcome<+T> = Ok(value: T) | Err | Panic | Unspecified
  {
    predicate IsFailure() { !Ok? }

    function PropagateFailure<U>(): Outcome<U>
      requires IsFailure()
    {
      match this
      case Err => Err
      case Panic => Panic
      case Unspecified => Unspecified
    }

    function Extract(): T
      requires Ok?
    {
      value
    }
  }

  function Last<T>(s: seq<T>): T
    requires s != []
  {
    s[|s| - 1]
  }

  /** Applies `f` to each element in order and stops at the first failure. */
  function TryMap<A, B>(f: A -> Outcome<B>, xs: seq<A>): Outcome<seq<B>>
  {
    if xs == [] then Ok([]) else
      var ys :- TryMap(f, xs[..|xs| - 1]);
      var y :- f(Last(xs));
      Ok(ys + [y])
  }

  /** All succeed: then every element is converted, in order; and conversely. */
  lemma {:induction false} TryMapOk<A, B>(f: A -> Outcome<B>, xs: seq<A>)
    ensures TryMap(f, xs).Ok? <==> forall i :: 0 <= i < |xs| ==> f(xs[i]).Ok?
    ensures TryMap(f, xs).Ok? ==> |TryMap(f, xs).value| == |xs|
    ensures TryMap(f, xs).Ok? ==>
              forall i :: 0 <= i < |xs| ==> f(xs[i]).Ok? && TryMap(f, xs).value[i] == f(xs[i]).value
  {
    if xs != [] {
      var init := xs[..|xs| - 1];
      TryMapOk(f, init);
      assert forall i :: 0 <= i < |init| ==> init[i] == xs[i];
      assert xs[|xs| - 1] == Last(xs);
    }
  }

  /** A failure on a prefix is the failure of the whole. */
  lemma {:induction false} TryMapFails<A, B>(f: A -> Outcome<B>, xs: seq<A>, n: nat)
    requires n <= |xs| && TryMap(f, xs[..n]).IsFailure()
    ensures TryMap(f, xs) == TryMap(f, xs[..n])
    decreases |xs| - n
  {
    if n == |xs| {
      assert xs[..n] == xs;
    } else {
      assert xs[..n + 1][..n] == xs[..n];
      TryMapFails(f, xs, n + 1);
    }
  }

  /** One more iteration of a loop that appends converted elements. */
  lemma TryMapStep<A, B>(f: A -> Outcome<B>, xs: seq<A>, n: nat, ys: seq<B>)
    requires n < |xs| && TryMap(f, xs[..n]) == Ok(ys)
    ensures f(xs[n]).Ok? ==> TryMap(f, xs[..n + 1]) == Ok(ys + [f(xs[n]).value])
    ensures f(xs[n]).IsFailure() ==> TryMap(f, xs) == f(xs[n]).PropagateFailure()
  {
    assert xs[..n + 1][..n] == xs[..n];
    if f(xs[n]).IsFailure() {
      TryMapFails(f, xs, n + 1);
    }
  }
}
