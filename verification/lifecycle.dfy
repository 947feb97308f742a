/**
  Sequences of public calls on one hash index.

  A caller that catches the `ValueError` of a refused call keeps using the
  same instance, so a run is a fold of the entry points in which a refused
  call changes nothing. The lemmas here are what the contract buys every
  concrete algorithm: no primitive ever receives an empty batch, refused
  calls leave no trace, and the primitives see exactly the accepted batches
  in the order they were made.
 */
module Lifecycle {
  import opened Results
  import opened HashIndexContract

  /** A call on a public entry point. */
  datatype Op<H> =
    | Build(hashes: seq<H>)
    | Update(hashes: seq<H>)
    | Query(h: H, n: int)

  /** A build or update whose batch is empty. */
  predicate IsEmptyBatch<H>(op: Op<H>) {
    !op.Query? && |op.hashes| == 0
  }

  /** Whether the entry point lets `op` through to its primitive on `idx`. */
  predicate Accepted<S, H, R>(idx: HashIndex<S, H, R>, op: Op<H>) {
    match op
    case Build(hs) => |hs| > 0
    case Update(hs) => |hs| > 0
    case Query(_, _) => idx.Count() > 0
  }

  /** `call` is the primitive call that `op` leads to: the same primitive,
      with the batch's elements or with the query and `n` unchanged. */
  ghost predicate CallFor<H>(op: Op<H>, call: Call<H>) {
    match op
    case Build(hs) => call.BuildCall? && SameElements(call.hashes, hs)
    case Update(hs) => call.UpdateCall? && SameElements(call.hashes, hs)
    case Query(h, n) => call == NNCall(h, n)
  }

  /** A primitive call the contract allows: never a build or update with
      nothing in it. */
  predicate Guarded<H>(call: Call<H>) {
    match call
    case BuildCall(hs) => |hs| > 0
    case UpdateCall(hs) => |hs| > 0
    case NNCall(_, _) => true
  }

  /** One public call; a refused one leaves the instance as it was. */
  function Step<S, H, R>(idx: HashIndex<S, H, R>, op: Op<H>): (r: HashIndex<S, H, R>)
    ensures !Accepted(idx, op) ==> r == idx
    ensures Accepted(idx, op) ==> Delegated(idx, r) && CallFor(op, r.LastCall()) && Guarded(r.LastCall())
  {
    match op
    case Build(hs) => BuildIndex(idx, hs).index
    case Update(hs) => UpdateIndex(idx, hs).index
    case Query(h, n) => NN(idx, h, n).index
  }

  /** The calls `ops`, one after another. */
  function Run<S, H, R>(idx: HashIndex<S, H, R>, ops: seq<Op<H>>): (r: HashIndex<S, H, R>)
    ensures r.impl == idx.impl
    ensures |idx.trace| <= |r.trace| <= |idx.trace| + |ops|
    ensures r.trace[..|idx.trace|] == idx.trace
    ensures forall i :: |idx.trace| <= i < |r.trace| ==> Guarded(r.trace[i])
    decreases |ops|
  {
    if |ops| == 0 then idx else Run(Step(idx, ops[0]), ops[1..])
  }

  /** Calls refused for an empty batch, however many, leave the instance
      exactly as it was: no primitive is reached and no state changes. */
  lemma {:induction false} EmptyBatchesChangeNothing<S, H, R>(idx: HashIndex<S, H, R>, ops: seq<Op<H>>)
    requires forall i :: 0 <= i < |ops| ==> IsEmptyBatch(ops[i])
    ensures Run(idx, ops) == idx
    decreases |ops|
  {
    if |ops| > 0 {
      assert Step(idx, ops[0]) == idx;
      EmptyBatchesChangeNothing(idx, ops[1..]);
    }
  }

  /** On an algorithm that reports no entries in any state, `_nn` is never
      reached, whatever builds and updates come first. */
  lemma {:induction false} EmptyIndexNeverQueried<S, H, R>(idx: HashIndex<S, H, R>, ops: seq<Op<H>>)
    requires forall s :: idx.impl.count(s) == 0
    ensures forall i :: |idx.trace| <= i < |Run(idx, ops).trace| ==> !Run(idx, ops).trace[i].NNCall?
    decreases |ops|
  {
    if |ops| > 0 {
      var next := Step(idx, ops[0]);
      assert next.impl == idx.impl;
      assert |next.trace| > |idx.trace| ==> !next.trace[|idx.trace|].NNCall?;
      EmptyIndexNeverQueried(next, ops[1..]);
      var r := Run(idx, ops);
      assert r == Run(next, ops[1..]);
      forall i | |idx.trace| <= i < |r.trace|
        ensures !r.trace[i].NNCall?
      {
        if i >= |next.trace| {
        } else {
          assert r.trace[..|next.trace|] == next.trace;
          assert r.trace[i] == next.trace[i];
        }
      }
    }
  }

  /** The builds and updates of `ops` that carry at least one hash vector,
      in order. */
  function NonEmptyBatches<H>(ops: seq<Op<H>>): seq<Op<H>> {
    if |ops| == 0 then []
    else (if IsEmptyBatch(ops[0]) then [] else [ops[0]]) + NonEmptyBatches(ops[1..])
  }

  /** `calls` are, one for one and in order, the primitive calls `ops` lead to. */
  ghost predicate CallsFor<H>(ops: seq<Op<H>>, calls: seq<Call<H>>) {
    && |ops| == |calls|
    && (|ops| > 0 ==> CallFor(ops[0], calls[0]) && CallsFor(ops[1..], calls[1..]))
  }

  /** The primitive calls `after` has received since `before`. */
  function NewCalls<S, H, R>(before: HashIndex<S, H, R>, after: HashIndex<S, H, R>): seq<Call<H>>
    requires |before.trace| <= |after.trace|
  {
    after.trace[|before.trace|..]
  }

  /** For a run of builds and updates, the primitives receive exactly the
      non-empty batches, in the order they were made, each with its own
      elements. */
  lemma {:induction false} BatchesReachPrimitivesInOrder<S, H, R>(idx: HashIndex<S, H, R>, ops: seq<Op<H>>)
    requires forall i :: 0 <= i < |ops| ==> !ops[i].Query?
    ensures CallsFor(NonEmptyBatches(ops), NewCalls(idx, Run(idx, ops)))
    decreases |ops|
  {
    if |ops| == 0 {
      assert NewCalls(idx, Run(idx, ops)) == [];
    } else {
      var next := Step(idx, ops[0]);
      var rest := NonEmptyBatches(ops[1..]);
      BatchesReachPrimitivesInOrder(next, ops[1..]);
      var r := Run(idx, ops);
      assert r == Run(next, ops[1..]);
      if IsEmptyBatch(ops[0]) {
        assert next == idx;
        assert NonEmptyBatches(ops) == rest;
      } else {
        var n0 := |idx.trace|;
        assert NonEmptyBatches(ops) == [ops[0]] + rest;
        assert |next.trace| == n0 + 1;
        assert CallFor(ops[0], next.trace[n0]);
        assert r.trace[..|next.trace|] == next.trace;
        assert NewCalls(idx, r) == [next.trace[n0]] + NewCalls(next, r);
      }
    }
  }
}
