/**
 * `Functional.swift`: the truthiness of a dynamically typed value and the
 * early-exit `all`/`any` loops over arrays of such values.
 */
module Functional {
  import opened Wrappers
  import StringExtensions

  /**
   * A value of type `Any?` as the casts in `TruthTeller.init` see it.
   * `NumV` is a number of another type than `Int` (`UInt8`, `Double`, …),
   * which `as? Int` rejects unless it was bridged to `NSNumber` first.
   */
  datatype Value = Nil | IntV(i: int) | NumV(x: real) | StrV(s: string) | BoolV(b: bool) | DateV | Other

  /** `TruthTeller(value).value`, which `truthy` returns. */
  function Truthy(v: Value): (t: bool)
    ensures v.Nil? || v.NumV? || v.Other? ==> !t
    ensures v.IntV? ==> (t <==> v.i > 0)
    ensures v.StrV? ==> (t <==> v.s != [])
    ensures v.BoolV? ==> t == v.b
    ensures v.DateV? ==> t
  {
    match v
    case Nil => false
    case IntV(i) => i > 0
    case NumV(_) => false
    case StrV(s) => StringExtensions.Length(s) > 0 && s != ""
    case BoolV(b) => b
    case DateV => true
    case Other => false
  }

  /** Every element passes `test`. */
  predicate AllHold(xs: seq<Value>, test: Value -> bool)
  {
    xs == [] || (test(xs[0]) && AllHold(xs[1..], test))
  }

  /** Some element passes `test`. */
  predicate AnyHolds(xs: seq<Value>, test: Value -> bool)
  {
    xs != [] && (test(xs[0]) || AnyHolds(xs[1..], test))
  }

  lemma {:induction false} AllHoldIff(xs: seq<Value>, test: Value -> bool)
    ensures AllHold(xs, test) <==> forall i :: 0 <= i < |xs| ==> test(xs[i])
  {
    if xs != [] {
      AllHoldIff(xs[1..], test);
      assert forall i :: 1 <= i < |xs| ==> xs[i] == xs[1..][i - 1];
    }
  }

  lemma {:induction false} AnyHoldsIff(xs: seq<Value>, test: Value -> bool)
    ensures AnyHolds(xs, test) <==> exists i :: 0 <= i < |xs| && test(xs[i])
  {
    if xs != [] {
      AnyHoldsIff(xs[1..], test);
      assert forall i :: 1 <= i < |xs| ==> xs[i] == xs[1..][i - 1];
    }
  }

  /** The two overloads over `[Any?]` are De Morgan duals. */
  lemma {:induction false} AnyIsNotAllNot(xs: seq<Value>, test: Value -> bool)
    ensures AnyHolds(xs, test) == !AllHold(xs, x => !test(x))
  {
    if xs != [] {
      AnyIsNotAllNot(xs[1..], test);
    }
  }

  lemma {:induction false} AllHoldAppend(xs: seq<Value>, x: Value, test: Value -> bool)
    ensures AllHold(xs + [x], test) == (AllHold(xs, test) && test(x))
  {
    if xs != [] {
      assert (xs + [x])[1..] == xs[1..] + [x];
      AllHoldAppend(xs[1..], x, test);
    }
  }

  lemma {:induction false} AnyHoldsAppend(xs: seq<Value>, x: Value, test: Value -> bool)
    ensures AnyHolds(xs + [x], test) == (AnyHolds(xs, test) || test(x))
  {
    if xs != [] {
      assert (xs + [x])[1..] == xs[1..] + [x];
      AnyHoldsAppend(xs[1..], x, test);
    }
  }

  /**
   * `all(_:test:)` over `[Any?]`: whether every element passes, stopping at the
   * first one that does not; `examined` is how many elements `test` was applied to.
   */
  method All(elements: seq<Value>, test: Value -> bool) returns (b: bool, ghost examined: nat)
    ensures b == AllHold(elements, test)
    ensures b ==> examined == |elements|
    ensures !b ==> 0 < examined <= |elements| && !test(elements[examined - 1])
                   && AllHold(elements[..examined - 1], test)
  {
    examined := 0;
    for k := 0 to |elements|
      invariant examined == k && AllHold(elements[..k], test)
    {
      assert elements[..k + 1] == elements[..k] + [elements[k]];
      AllHoldAppend(elements[..k], elements[k], test);
      examined := k + 1;
      if !test(elements[k]) {
        AllPrefixFails(elements, k + 1, test);
        return false, examined;
      }
    }
    assert elements[..|elements|] == elements;
    return true, examined;
  }

  /**
   * `any(_:test:)` over `[Any?]`: whether some element passes, stopping at the
   * first one that does.
   */
  method Any(elements: seq<Value>, test: Value -> bool) returns (b: bool, ghost examined: nat)
    ensures b == AnyHolds(elements, test)
    ensures !b ==> examined == |elements|
    ensures b ==> 0 < examined <= |elements| && test(elements[examined - 1])
                  && !AnyHolds(elements[..examined - 1], test)
  {
    examined := 0;
    for k := 0 to |elements|
      invariant examined == k && !AnyHolds(elements[..k], test)
    {
      assert elements[..k + 1] == elements[..k] + [elements[k]];
      AnyHoldsAppend(elements[..k], elements[k], test);
      examined := k + 1;
      if test(elements[k]) {
        AnyPrefixHolds(elements, k + 1, test);
        return true, examined;
      }
    }
    assert elements[..|elements|] == elements;
    return false, examined;
  }

  /** A failing prefix makes the whole sequence fail. */
  lemma {:induction false} AllPrefixFails(xs: seq<Value>, n: nat, test: Value -> bool)
    requires n <= |xs| && !AllHold(xs[..n], test)
    ensures !AllHold(xs, test)
  {
    if n > 0 && test(xs[0]) {
      assert xs[..n][1..] == xs[1..][..n - 1];
      AllPrefixFails(xs[1..], n - 1, test);
    }
  }

  /** A prefix that holds somewhere makes the whole sequence hold somewhere. */
  lemma {:induction false} AnyPrefixHolds(xs: seq<Value>, n: nat, test: Value -> bool)
    requires n <= |xs| && AnyHolds(xs[..n], test)
    ensures AnyHolds(xs, test)
  {
    if !test(xs[0]) {
      assert xs[..n][1..] == xs[1..][..n - 1];
      AnyPrefixHolds(xs[1..], n - 1, test);
    }
  }

  /**
   * The generic `all(_:test:)` over `[T?]`: it never calls `test` and judges
   * every element by `truthy` instead.
   */
  method AllGeneric(elements: seq<Value>, test: Option<Value -> bool>) returns (b: bool)
    ensures b == AllHold(elements, Truthy)
  {
    for k := 0 to |elements|
      invariant AllHold(elements[..k], Truthy)
    {
      assert elements[..k + 1] == elements[..k] + [elements[k]];
      AllHoldAppend(elements[..k], elements[k], Truthy);
      if !Truthy(elements[k]) {
        AllPrefixFails(elements, k + 1, Truthy);
        return false;
      }
    }
    assert elements[..|elements|] == elements;
    return true;
  }

  /** A `nil` element makes the generic `all` false, whatever `test` says. */
  lemma NilDefeatsAllGeneric(elements: seq<Value>)
    requires Nil in elements
    ensures !AllHold(elements, Truthy)
  {
    AllHoldIff(elements, Truthy);
  }

  /**
   * `element as AnyObject?`: a number becomes an `NSNumber`, which `as? Int`
   * then accepts when it is a whole number; any other value keeps its type.
   */
  function AsAnyObject(v: Value): (w: Value)
    ensures v.NumV? && v.x == v.x.Floor as real ==> w == IntV(v.x.Floor)
    ensures !(v.NumV? && v.x == v.x.Floor as real) ==> w == v
    ensures Truthy(w) <==> Truthy(v) || (v.NumV? && v.x == v.x.Floor as real && v.x > 0.0)
  {
    match v
    case NumV(x) => if x == x.Floor as real then IntV(x.Floor) else v
    case _ => v
  }

  /** The test the generic `any` really applies: `nil` never reaches `test`, the rest reach it bridged. */
  function BridgedNonNil(test: Value -> bool): Value -> bool
  {
    x => x != Nil && test(AsAnyObject(x))
  }

  /**
   * The generic `any(_:test:)` over `[T?]`: whether some non-`nil` element,
   * bridged to `AnyObject`, passes; `seen` lists the values handed to
   * `test`, in order.
   */
  method AnyGeneric(elements: seq<Value>, test: Value -> bool) returns (b: bool, ghost seen: seq<Value>)
    ensures b == AnyHolds(elements, BridgedNonNil(test))
    ensures Nil !in seen
  {
    seen := [];
    for k := 0 to |elements|
      invariant !AnyHolds(elements[..k], BridgedNonNil(test)) && Nil !in seen
    {
      assert elements[..k + 1] == elements[..k] + [elements[k]];
      AnyHoldsAppend(elements[..k], elements[k], BridgedNonNil(test));
      if elements[k] != Nil {
        seen := seen + [AsAnyObject(elements[k])];
        if test(AsAnyObject(elements[k])) {
          AnyPrefixHolds(elements, k + 1, BridgedNonNil(test));
          return true, seen;
        }
      }
    }
    assert elements[..|elements|] == elements;
    return false, seen;
  }

  /** A list of nothing but `nil` gives false, even for a test that accepts everything. */
  lemma {:induction false} AllNilGivesNothing(elements: seq<Value>, test: Value -> bool)
    requires forall i :: 0 <= i < |elements| ==> elements[i] == Nil
    ensures !AnyHolds(elements, BridgedNonNil(test))
  {
    if elements != [] {
      AllNilGivesNothing(elements[1..], test);
    }
  }

  /**
   * The bridge makes `any` and `all` disagree: a positive whole number of
   * another type than `Int` passes the generic `any` with `truthy`, while
   * `truthy` itself, and so the generic `all`, rejects it.
   */
  lemma GenericAnyBridgesNumbers(x: real)
    requires x > 0.0 && x == x.Floor as real
    ensures AnyHolds([NumV(x)], BridgedNonNil(Truthy))
    ensures !AnyHolds([NumV(x)], Truthy) && !AllHold([NumV(x)], Truthy)
  {
    assert [NumV(x)][1..] == [];
    assert x.Floor > 0 && Truthy(AsAnyObject(NumV(x)));
    assert BridgedNonNil(Truthy)(NumV(x));
  }

  /** `Array.all`: a predicate error before the first `false` is rethrown. */
  function AllOrThrow<E>(xs: seq<Value>, p: Value -> Result<bool, E>): Result<bool, E>
  {
    if xs == [] then Success(true)
    else match p(xs[0])
      case Failure(e) => Failure(e)
      case Success(ok) => if ok then AllOrThrow(xs[1..], p) else Success(false)
  }

  /** The predicate's verdict with an error read as `false`, as `try?` does. */
  function Passes<E>(p: Value -> Result<bool, E>): Value -> bool
  {
    x => p(x) == Success(true)
  }

  /** Without errors, `Array.all` is the plain `all` of the predicate's verdicts. */
  lemma {:induction false} AllOrThrowWithoutErrors<E>(xs: seq<Value>, p: Value -> Result<bool, E>)
    requires forall i :: 0 <= i < |xs| ==> p(xs[i]).Success?
    ensures AllOrThrow(xs, p) == Success(AllHold(xs, Passes(p)))
  {
    if xs != [] {
      assert forall i :: 1 <= i < |xs| ==> xs[i] == xs[1..][i - 1];
      AllOrThrowWithoutErrors(xs[1..], p);
    }
  }

  /** An error is rethrown only if every element before it passed. */
  lemma {:induction false} AllOrThrowError<E>(xs: seq<Value>, p: Value -> Result<bool, E>)
    requires AllOrThrow(xs, p).Failure?
    ensures exists i :: 0 <= i < |xs| && p(xs[i]) == Failure(AllOrThrow(xs, p).error)
                        && AllHold(xs[..i], Passes(p))
  {
    if p(xs[0]).Failure? {
      assert xs[..0] == [];
    } else {
      AllOrThrowError(xs[1..], p);
      var i :| 0 <= i < |xs[1..]| && p(xs[1..][i]) == Failure(AllOrThrow(xs[1..], p).error)
               && AllHold(xs[1..][..i], Passes(p));
      assert xs[..i + 1][1..] == xs[1..][..i];
      assert xs[i + 1] == xs[1..][i];
    }
  }

  /** `Array.all(_:)`. */
  method ArrayAll<E>(elements: seq<Value>, test: Value -> Result<bool, E>) returns (r: Result<bool, E>)
    ensures r == AllOrThrow(elements, test)
  {
    var k := 0;
    while k < |elements|
      invariant k <= |elements|
      invariant AllOrThrow(elements, test) == AllOrThrow(elements[k..], test)
    {
      assert elements[k..][1..] == elements[k + 1..];
      match test(elements[k])
      case Failure(e) =>
        return Failure(e);
      case Success(ok) =>
        if !ok {
          return Success(false);
        }
      k := k + 1;
    }
    return Success(true);
  }

  /** `Array.any(_:)`: a throwing predicate counts as `false` for that element. */
  method ArrayAny<E>(elements: seq<Value>, test: Value -> Result<bool, E>) returns (b: bool)
    ensures b == AnyHolds(elements, Passes(test))
  {
    for k := 0 to |elements|
      invariant !AnyHolds(elements[..k], Passes(test))
    {
      assert elements[..k + 1] == elements[..k] + [elements[k]];
      AnyHoldsAppend(elements[..k], elements[k], Passes(test));
      var result := test(elements[k]);
      if result.Success? && result.value {
        AnyPrefixHolds(elements, k + 1, Passes(test));
        return true;
      }
    }
    assert elements[..|elements|] == elements;
    return false;
  }
}
