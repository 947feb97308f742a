/**
  The lifecycle contract every hash-index algorithm inherits.

  A concrete algorithm supplies `count` and the three primitives
  `_build_index`, `_update_index` and `_nn`; the public entry points
  `build_index`, `update_index` and `nn` check the universal preconditions
  once and only then delegate, so no primitive ever sees an empty batch and
  `_nn` is never asked to search an index that reports no entries.

  Every call that reaches a primitive is appended to the index's trace, the
  way a mock on that primitive records it.
 */
module HashIndexContract {
  import opened Results

  /** Why a public entry point refused a call. SMQTK's `HashIndex` raises
      `ValueError` in every case; only the kind of refusal is kept. */
  datatype Error =
    | EmptyInput   // `build_index` or `update_index` given no hash vectors
    | EmptyIndex   // `nn` while `count()` is 0

  /** One call that reached a primitive of the concrete algorithm. */
  datatype Call<H> =
    | BuildCall(hashes: seq<H>)
    | UpdateCall(hashes: seq<H>)
    | NNCall(h: H, n: int)

  /** The hooks a concrete algorithm implements, over its own state `S`,
      hash vectors `H` and neighbour answers `R`. */
  datatype Impl<!S, !H, R> = Impl(
    count: S -> nat,
    buildIndex: (S, seq<H>) -> S,
    updateIndex: (S, seq<H>) -> S,
    nn: (S, H, int) -> R
  )

  /** An instance of a concrete algorithm: its hooks, its current state and
      the calls its primitives have received so far. */
  datatype HashIndex<!S, !H, R> = HashIndex(impl: Impl<S, H, R>, state: S, trace: seq<Call<H>>) {

    /** Number of entries the algorithm reports as indexed. */
    function Count(): nat {
      impl.count(state)
    }

    /** The most recent primitive call. */
    function LastCall(): Call<H>
      requires |trace| > 0
    {
      trace[|trace| - 1]
    }
  }

  /** What an entry point returns (or raises), together with the instance
      as it stands afterwards. */
  datatype Outcome<T, !S, !H, R> = Outcome(result: Result<T, Error>, index: HashIndex<S, H, R>)

  /** The state a primitive call leaves behind. `_nn` is modelled as a
      read-only query, so an `NNCall` leaves the state as it was. */
  function Effect<S, H, R>(impl: Impl<S, H, R>, s: S, call: Call<H>): S {
    match call
    case BuildCall(hs) => impl.buildIndex(s, hs)
    case UpdateCall(hs) => impl.updateIndex(s, hs)
    case NNCall(_, _) => s
  }

  /** `after` is `before` with exactly one more primitive call delegated to
      the same algorithm: the call is appended to the trace and the state is
      the one that primitive produced. */
  ghost predicate Delegated<S, H, R>(before: HashIndex<S, H, R>, after: HashIndex<S, H, R>) {
    && after.impl == before.impl
    && |after.trace| == |before.trace| + 1
    && after.trace[..|before.trace|] == before.trace
    && after.state == Effect(before.impl, before.state, after.trace[|before.trace|])
  }

  /** The elements of a collection, as `set(...)` collects them. */
  ghost function Elements<H>(hs: seq<H>): set<H> {
    set i | 0 <= i < |hs| :: hs[i]
  }

  /** The two collections hold the same elements (ordering and multiplicity
      aside). */
  ghost predicate SameElements<H>(a: seq<H>, b: seq<H>) {
    Elements(a) == Elements(b)
  }

  /** How the entry points are modelled to hand a batch on: one element is
      read off the incoming (possibly one-pass) iterable to see whether it
      is empty, and the primitive gets that element chained in front of the
      rest. Only the element set of what the primitive receives is promised. */
  function Forward<H>(hashes: seq<H>): (fwd: seq<H>)
    requires |hashes| > 0
    ensures |fwd| > 0
    ensures SameElements(fwd, hashes)
  {
    var fwd := [hashes[0]] + hashes[1..];
    assert fwd == hashes;
    fwd
  }

  /** `build_index`: refuse an empty batch before `_build_index` is called;
      otherwise pass the same elements on. Whether the index already holds
      entries plays no part, so a built index may be rebuilt. */
  function BuildIndex<S, H, R>(idx: HashIndex<S, H, R>, hashes: seq<H>): (o: Outcome<(), S, H, R>)
    ensures o.result.Err? <==> |hashes| == 0
    ensures o.result.Err? ==> o.result.error == EmptyInput && o.index == idx
    ensures o.result.Ok? ==>
              && Delegated(idx, o.index)
              && o.index.LastCall().BuildCall?
              && SameElements(o.index.LastCall().hashes, hashes)
  {
    if |hashes| == 0 then
      Outcome(Err(EmptyInput), idx)
    else
      var call := BuildCall(Forward(hashes));
      Outcome(Ok(()), HashIndex(idx.impl, Effect(idx.impl, idx.state, call), idx.trace + [call]))
  }

  /** `update_index`: refuse an empty batch before `_update_index` is called;
      otherwise pass the same elements on. There is no "has been built"
      check: an index whose count is 0 accepts an update. */
  function UpdateIndex<S, H, R>(idx: HashIndex<S, H, R>, hashes: seq<H>): (o: Outcome<(), S, H, R>)
    ensures o.result.Err? <==> |hashes| == 0
    ensures o.result.Err? ==> o.result.error == EmptyInput && o.index == idx
    ensures o.result.Ok? ==>
              && Delegated(idx, o.index)
              && o.index.LastCall().UpdateCall?
              && SameElements(o.index.LastCall().hashes, hashes)
  {
    if |hashes| == 0 then
      Outcome(Err(EmptyInput), idx)
    else
      var call := UpdateCall(Forward(hashes));
      Outcome(Ok(()), HashIndex(idx.impl, Effect(idx.impl, idx.state, call), idx.trace + [call]))
  }

  /** `nn(h, n=1)`: refuse while the index reports no entries, before `_nn`
      is called; otherwise forward the query and `n` unchanged. The answer
      is modelled as `_nn`'s own, passed back unchanged. */
  function NN<S, H, R>(idx: HashIndex<S, H, R>, h: H, n: int := 1): (o: Outcome<R, S, H, R>)
    ensures o.result.Err? <==> idx.Count() == 0
    ensures o.result.Err? ==> o.result.error == EmptyIndex && o.index == idx
    ensures o.result.Ok? ==>
              && Delegated(idx, o.index)
              && o.index.LastCall() == NNCall(h, n)
              && o.index.state == idx.state
              && o.result.value == idx.impl.nn(idx.state, h, n)
  {
    if idx.Count() == 0 then
      Outcome(Err(EmptyIndex), idx)
    else
      var call := NNCall(h, n);
      Outcome(Ok(idx.impl.nn(idx.state, h, n)), HashIndex(idx.impl, idx.state, idx.trace + [call]))
  }

  /** A query that leaves `n` out asks for the single nearest neighbour. */
  lemma NNDefaultsToOne<S, H, R>(idx: HashIndex<S, H, R>, h: H)
    requires idx.Count() > 0
    ensures NN(idx, h).result.Ok?
    ensures NN(idx, h).index.LastCall() == NNCall(h, 1)
    ensures NN(idx, h) == NN(idx, h, 1)
  {
  }
}
