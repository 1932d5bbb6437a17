/**
 * `merge-result`: many verification results folded into one with the
 * pairwise merge of the result type, which is not part of the model.
 */
module MergeResults {
  import opened Wrappers

  /** The `TypeError` message of `reduce` on an empty iterable without an initial value. */
  const EmptyReduceError: string := "reduce() of empty iterable with no initial value"

  /** `acc` merged with each element of `rest` in turn, the accumulator always the receiver. */
  function FoldLeft<R>(acc: R, rest: seq<R>, merge: (R, R) -> R): R
    decreases |rest|
  {
    if |rest| == 0 then acc else FoldLeft(merge(acc, rest[0]), rest[1..], merge)
  }

  /** `merge`: `reduce(lambda a, b: a.merge(b), results)`. */
  function Merge<R>(results: seq<R>, merge: (R, R) -> R): (r: Result<R, string>)
    ensures r.Failure? <==> |results| == 0
    ensures r.Failure? ==> r.error == EmptyReduceError
    ensures |results| == 1 ==> r == Success(results[0])
  {
    if |results| == 0 then Failure(EmptyReduceError)
    else Success(FoldLeft(results[0], results[1..], merge))
  }

  lemma {:induction false} FoldLeftSnoc<R>(acc: R, rest: seq<R>, x: R, merge: (R, R) -> R)
    ensures FoldLeft(acc, rest + [x], merge) == merge(FoldLeft(acc, rest, merge), x)
    decreases |rest|
  {
    if |rest| == 0 {
      assert (rest + [x])[1..] == [];
    } else {
      assert (rest + [x])[1..] == rest[1..] + [x];
      FoldLeftSnoc(merge(acc, rest[0]), rest[1..], x, merge);
    }
  }

  /**
   * One more result is merged into the result of the others:
   * `merge([a, b, c]) == (a.merge(b)).merge(c)`, nested to the left.
   */
  lemma MergeSnoc<R>(results: seq<R>, x: R, merge: (R, R) -> R)
    requires |results| > 0
    ensures Merge(results + [x], merge) == Success(merge(Merge(results, merge).value, x))
  {
    assert (results + [x])[1..] == results[1..] + [x];
    FoldLeftSnoc(results[0], results[1..], x, merge);
  }

  /**
   * The pairwise merges a fold performs, in order, as (receiver, argument):
   * one per element, the element as argument, the previous merge's result
   * as the next receiver.
   */
  function MergeCalls<R>(acc: R, rest: seq<R>, merge: (R, R) -> R): (calls: seq<(R, R)>)
    ensures |calls| == |rest|
    ensures forall i :: 0 <= i < |rest| ==> calls[i].1 == rest[i]
    ensures |calls| > 0 ==> calls[0].0 == acc
    ensures forall i :: 0 <= i < |calls| - 1 ==> calls[i + 1].0 == merge(calls[i].0, calls[i].1)
    ensures |calls| > 0 ==> FoldLeft(acc, rest, merge) == merge(calls[|calls| - 1].0, calls[|calls| - 1].1)
    decreases |rest|
  {
    if |rest| == 0 then []
    else [(acc, rest[0])] + MergeCalls(merge(acc, rest[0]), rest[1..], merge)
  }
}
