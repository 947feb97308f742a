/**
  `DummyHI`, the stub algorithm the abstract hash index is exercised with:
  it reports no entries, its primitives do nothing and `_nn` answers
  nothing. The lemmas are the abstract-class scenarios, each on a fresh
  instance whose trace plays the part of the mock on the primitive.
 */
module DummyHashIndex {
  import opened Results
  import opened HashIndexContract
  import opened Lifecycle

  /** `DummyHI`: `count()` is always 0 and the primitives return nothing. */
  function DummyImpl<H>(): Impl<(), H, ()> {
    Impl(
      (s: ()) => 0,
      (s: (), hs: seq<H>) => s,
      (s: (), hs: seq<H>) => s,
      (s: (), h: H, n: int) => ())
  }

  /** `DummyHI` with `count` replaced by a mock that answers 10. */
  function CountingDummyImpl<H>(): Impl<(), H, ()> {
    Impl(
      (s: ()) => 10,
      (s: (), hs: seq<H>) => s,
      (s: (), hs: seq<H>) => s,
      (s: (), h: H, n: int) => ())
  }

  /** A newly constructed instance: no primitive has been called yet. */
  function Fresh<H>(impl: Impl<(), H, ()>): HashIndex<(), H, ()> {
    HashIndex(impl, (), [])
  }

  /** Building from an empty list raises the empty-iterable error and never
      reaches `_build_index`. */
  lemma BuildEmptyIsRefused()
    ensures BuildIndex(Fresh(DummyImpl<int>()), []).result == Err(EmptyInput)
    ensures BuildIndex(Fresh(DummyImpl<int>()), []).index.trace == []
  {
  }

  /** Building from `[0, 1, 2]` succeeds and `_build_index` is handed
      exactly the elements 0, 1 and 2. */
  lemma BuildWithValuesForwardsThem()
    ensures BuildIndex(Fresh(DummyImpl<int>()), [0, 1, 2]).result.Ok?
    ensures |BuildIndex(Fresh(DummyImpl<int>()), [0, 1, 2]).index.trace| == 1
    ensures var call := BuildIndex(Fresh(DummyImpl<int>()), [0, 1, 2]).index.trace[0];
            call.BuildCall? && Elements(call.hashes) == {0, 1, 2}
  {
    var zeroOneTwo: seq<int> := [0, 1, 2];
    assert zeroOneTwo[0] == 0 && zeroOneTwo[1] == 1 && zeroOneTwo[2] == 2;
    assert Elements(zeroOneTwo) == {0, 1, 2};
  }

  /** Updating with an empty list raises the "no hash vectors" error and
      never reaches `_update_index`. */
  lemma UpdateEmptyIsRefused()
    ensures UpdateIndex(Fresh(DummyImpl<int>()), []).result == Err(EmptyInput)
    ensures UpdateIndex(Fresh(DummyImpl<int>()), []).index.trace == []
  {
  }

  /** Updating a never-built instance, whose count is 0, with `[0, 1, 2]`
      succeeds and `_update_index` is handed exactly 0, 1 and 2. */
  lemma UpdateFreshWithValuesForwardsThem()
    ensures Fresh(DummyImpl<int>()).Count() == 0
    ensures UpdateIndex(Fresh(DummyImpl<int>()), [0, 1, 2]).result.Ok?
    ensures |UpdateIndex(Fresh(DummyImpl<int>()), [0, 1, 2]).index.trace| == 1
    ensures var call := UpdateIndex(Fresh(DummyImpl<int>()), [0, 1, 2]).index.trace[0];
            call.UpdateCall? && Elements(call.hashes) == {0, 1, 2}
  {
    var zeroOneTwo: seq<int> := [0, 1, 2];
    assert zeroOneTwo[0] == 0 && zeroOneTwo[1] == 1 && zeroOneTwo[2] == 2;
    assert Elements(zeroOneTwo) == {0, 1, 2};
  }

  /** Querying an instance that reports no entries raises and never reaches
      `_nn`. */
  lemma NNOnEmptyIndexIsRefused()
    ensures NN(Fresh(DummyImpl<string>()), "something").result == Err(EmptyIndex)
    ensures NN(Fresh(DummyImpl<string>()), "something").index.trace == []
  {
  }

  /** Once `count()` answers 10, `nn("dummy")` reaches `_nn` as
      `("dummy", 1)`, and a following `nn("bar", 10)` as `("bar", 10)`. */
  lemma NNWithCountForwardsQuery()
    ensures var first := NN(Fresh(CountingDummyImpl<string>()), "dummy");
            && first.result.Ok?
            && first.index.LastCall() == NNCall("dummy", 1)
            && var second := NN(first.index, "bar", 10);
               && second.result.Ok?
               && second.index.LastCall() == NNCall("bar", 10)
  {
  }

  /** Whatever builds, updates and queries are made on `DummyHI`, `_nn` is
      never reached, since its count is always 0. */
  lemma DummyIsNeverQueried(ops: seq<Op<int>>)
    ensures forall i :: 0 <= i < |Run(Fresh(DummyImpl<int>()), ops).trace| ==>
              !Run(Fresh(DummyImpl<int>()), ops).trace[i].NNCall?
  {
    EmptyIndexNeverQueried(Fresh(DummyImpl<int>()), ops);
  }
}
