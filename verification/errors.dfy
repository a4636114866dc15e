/** Go `error` values as opaque tokens, and the multierror aggregation that
    `Process.Wait` performs on the values it collects. */
module Errors {

  /** A Go `error`: either nil or some non-nil error, told apart by a token.
      Nothing in the model inspects an error beyond nil-ness and identity. */
  datatype ErrVal = Nil | Failure(token: string)

  /** The frozen value of `p.err`: `errs.ErrorOrNil()` is nil when nothing
      non-nil was appended, and otherwise the composite of the appended errors. */
  datatype WaitResult = NoError | Composite(errs: seq<ErrVal>)

  /** True when every slot holds nil. */
  predicate AllNil(slots: seq<ErrVal>) {
    forall i :: 0 <= i < |slots| ==> slots[i] == Nil
  }

  /** `multierror.Append` skips nil arguments and keeps the others in the
      order they were appended. */
  function NonNil(slots: seq<ErrVal>): (r: seq<ErrVal>)
    ensures |r| <= |slots|
    ensures forall i :: 0 <= i < |r| ==> r[i].Failure?
    ensures forall e: ErrVal :: e.Failure? ==> multiset(r)[e] == multiset(slots)[e]
    ensures |r| == 0 <==> AllNil(slots)
  {
    if |slots| == 0 then []
    else
      assert multiset(slots) == multiset{slots[0]} + multiset(slots[1..]) by {
        assert slots == [slots[0]] + slots[1..];
      }
      var rest := NonNil(slots[1..]);
      if slots[0] == Nil then rest else [slots[0]] + rest
  }

  /** Appending in two batches is the same as appending once. */
  lemma {:induction false} NonNilAppend(a: seq<ErrVal>, b: seq<ErrVal>)
    ensures NonNil(a + b) == NonNil(a) + NonNil(b)
    decreases |a|
  {
    if |a| == 0 {
      assert a + b == b;
    } else {
      assert (a + b)[1..] == a[1..] + b;
      NonNilAppend(a[1..], b);
    }
  }

  /** `errs.ErrorOrNil()` after appending every slot in order. */
  function Aggregate(slots: seq<ErrVal>): (r: WaitResult)
    ensures r.NoError? <==> AllNil(slots)
    ensures r.Composite? ==> |r.errs| > 0 && r.errs == NonNil(slots)
  {
    var errs := NonNil(slots);
    if |errs| == 0 then NoError else Composite(errs)
  }

  /** Whether Wait reports an error, and which errors, does not depend on the
      order in which the slots were collected: only the composite's order does. */
  lemma AggregatePermutation(a: seq<ErrVal>, b: seq<ErrVal>)
    requires multiset(a) == multiset(b)
    ensures Aggregate(a).NoError? <==> Aggregate(b).NoError?
    ensures Aggregate(a).Composite? ==>
              multiset(Aggregate(a).errs) == multiset(Aggregate(b).errs)
  {
    SameNonNil(a, b);
    assert |NonNil(a)| == |multiset(NonNil(a))| == |multiset(NonNil(b))| == |NonNil(b)|;
  }

  /** Reordering the slots reorders the errors kept. */
  lemma SameNonNil(a: seq<ErrVal>, b: seq<ErrVal>)
    requires multiset(a) == multiset(b)
    ensures multiset(NonNil(a)) == multiset(NonNil(b))
  {
    var ra, rb := NonNil(a), NonNil(b);
    forall e: ErrVal
      ensures multiset(ra)[e] == multiset(rb)[e]
    {
      if e == Nil {
        assert e !in ra && e !in rb;
      }
    }
  }
}
