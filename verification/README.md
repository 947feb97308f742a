# Hash index lifecycle contract

This project models the abstract `HashIndex` of SMQTK. `HashIndex` is the base class
that wraps every concrete hash-index algorithm. A concrete algorithm implements `count`
and three primitives: `_build_index`, `_update_index` and `_nn`. The public entry points
`build_index`, `update_index` and `nn` enforce the same rules for every algorithm and
only then delegate:

- `build_index` and `update_index` refuse an empty batch with a `ValueError`. The
  primitive is not called.
- `nn` refuses with a `ValueError` while `count()` is 0. `_nn` is not called.
- Otherwise the batch's elements, or the query and `n` (default 1), are forwarded
  unchanged. The model also has `nn` pass back `_nn`'s answer unchanged.

The class that implements these entry points (`smqtk/algorithms/nn_index/hash_index/__init__.py`)
is not part of this model. Its behaviour is fixed here by its test suite and the
`DummyHI` stub algorithm used there.

Modules:

- `Results` (`results.dfy`): the `Result` type. A `ValueError` raised by an entry
  point's own check becomes an `Err`.
- `HashIndexContract` (`hash_index.dfy`): the core.
  - `Impl` is a concrete algorithm, given as a record of its hooks. This is how the
    model handles dynamic dispatch.
  - `HashIndex` is an instance: its `Impl`, its state, and the trace of calls its
    primitives have received. The trace plays the part of the test's mocks.
  - `BuildIndex`, `UpdateIndex` and `NN` are the entry points. Each returns its
    result together with the instance afterwards.
- `Lifecycle` (`lifecycle.dfy`): runs of entry-point calls. Here a caller catches
  refusals and carries on. It proves the invariants every concrete algorithm gets for
  free.
- `HashIndexRegistry` (`registry.dfy`): `get_hash_index_impls`.
- `DummyHashIndex` (`dummy_hash_index.dfy`): `DummyHI` and the test scenarios, stated
  as lemmas.

Two facts about `HashIndex` that the model keeps on purpose:

- **Update on an unbuilt index.** `update_index` is accepted on an instance whose
  `count()` is 0. There is no "has been built" check. Gating anywhere is on
  `count() == 0`.
- **No check on `n`.** `nn` does not validate `n`. Any `int` is forwarded to `_nn`
  unchanged.

## Model

| member | source | states |
|---|---|---|
| HashIndexContract.Forward | python/smqtk/tests/algorithms/nn_index/hash_index/test_abstract.py:50-59 | The collection handed to a primitive is non-empty and holds exactly the elements of the caller's batch. |
| HashIndexContract.BuildIndex | python/smqtk/tests/algorithms/nn_index/hash_index/test_abstract.py:39-59 | `build_index` fails with the empty-input error if and only if the batch is empty. The instance is then unchanged and `_build_index` is not called. Otherwise exactly one `_build_index` call is recorded, carrying the batch's elements, and the state becomes what that primitive produced. The index's count plays no part. |
| HashIndexContract.UpdateIndex | python/smqtk/tests/algorithms/nn_index/hash_index/test_abstract.py:61-81 | `update_index` fails with the empty-input error if and only if the batch is empty, without calling `_update_index`. Otherwise it delegates exactly one `_update_index` call with the batch's elements. It does so even when `count()` is 0. |
| HashIndexContract.NN | python/smqtk/tests/algorithms/nn_index/hash_index/test_abstract.py:83-103 | `nn` fails with the empty-index error if and only if `count()` is 0, without calling `_nn`. Otherwise it records exactly `_nn(h, n)` and, with `_nn` modelled as read-only, leaves the state alone. Its answer is modelled as `_nn`'s own. |
| HashIndexContract.NNDefaultsToOne | python/smqtk/tests/algorithms/nn_index/hash_index/test_abstract.py:93-100 | On an index whose count is positive, `nn(h)` calls `_nn(h, 1)` and equals `nn(h, 1)`. |
| Lifecycle.Step | python/smqtk/tests/algorithms/nn_index/hash_index/test_abstract.py:39-103 | A refused call leaves the instance unchanged. An accepted call adds one call to the matching primitive, with the same elements or the same query and `n`, and never passes an empty batch. |
| Lifecycle.Run | python/smqtk/tests/algorithms/nn_index/hash_index/test_abstract.py:39-81 | Over any sequence of calls, the trace only grows, by at most one call per call made. No primitive call added during the run is a build or update with an empty batch. |
| Lifecycle.EmptyBatchesChangeNothing | python/smqtk/tests/algorithms/nn_index/hash_index/test_abstract.py:39-70 | Any number of builds and updates with empty batches leave the instance exactly as it was: same state, same trace. |
| Lifecycle.EmptyIndexNeverQueried | python/smqtk/tests/algorithms/nn_index/hash_index/test_abstract.py:83-91 | If an algorithm reports a count of 0 in every state, no call to `_nn` is ever made, whatever builds and updates come first. |
| Lifecycle.BatchesReachPrimitivesInOrder | python/smqtk/tests/algorithms/nn_index/hash_index/test_abstract.py:50-81 | In a run of builds and updates, the primitive calls made are, one for one and in order, the non-empty batches. Each call goes to the matching primitive and carries that batch's elements. |
| HashIndexRegistry.GetHashIndexImpls | python/smqtk/tests/algorithms/nn_index/hash_index/test_abstract.py:33-37 | Every registry value is a usable `HashIndex` subclass that was found, stored under its own name. A name is a key if and only if some usable `HashIndex` subclass of that name was found. |
| DummyHashIndex.BuildEmptyIsRefused | python/smqtk/tests/algorithms/nn_index/hash_index/test_abstract.py:39-48 | On a fresh `DummyHI`, `build_index([])` raises the empty-input error and records no call. |
| DummyHashIndex.BuildWithValuesForwardsThem | python/smqtk/tests/algorithms/nn_index/hash_index/test_abstract.py:50-59 | On a fresh `DummyHI`, `build_index([0, 1, 2])` succeeds and records one `_build_index` call whose element set is {0, 1, 2}. |
| DummyHashIndex.UpdateEmptyIsRefused | python/smqtk/tests/algorithms/nn_index/hash_index/test_abstract.py:61-70 | On a fresh `DummyHI`, `update_index([])` raises the empty-input error and records no call. |
| DummyHashIndex.UpdateFreshWithValuesForwardsThem | python/smqtk/tests/algorithms/nn_index/hash_index/test_abstract.py:72-81 | A fresh `DummyHI` reports count 0, yet `update_index([0, 1, 2])` succeeds and records one `_update_index` call whose element set is {0, 1, 2}. |
| DummyHashIndex.NNOnEmptyIndexIsRefused | python/smqtk/tests/algorithms/nn_index/hash_index/test_abstract.py:83-91 | On a fresh `DummyHI`, `nn('something')` raises the empty-index error and records no call. |
| DummyHashIndex.NNWithCountForwardsQuery | python/smqtk/tests/algorithms/nn_index/hash_index/test_abstract.py:93-103 | With `count()` answering 10, `nn('dummy')` calls `_nn('dummy', 1)`, and then `nn('bar', 10)` calls `_nn('bar', 10)`. |
| DummyHashIndex.DummyIsNeverQueried | python/smqtk/tests/algorithms/nn_index/hash_index/test_abstract.py:18-19 | Because `DummyHI.count()` is always 0, no sequence of calls on it ever reaches `_nn`. |

## Left out

- The parallel batch pipeline in `bin/scripts/compute_classifications.py` is left out. It is concurrency over an unseen parallel-map utility, plus configuration, file and CSV I/O.
- `bin/remove_old_files.py` is left out. It is a filesystem walk driven by the clock and a sleep loop.
- `python/smqtk/tests/algorithms/classifier/test_libsvm.py` is left out. It is floating-point SVM training through an external library.
- Concrete hash-index algorithms are left out. What `_build_index` and `_update_index` do to the state, what `count()` reports after them, and what `_nn` returns are all parameters of the model (the `Impl` record). Nothing about distances or ranking is claimed.
- Lazy and one-pass iterables are modelled as finite sequences.
- HashIndexContract.Forward: peeking one element and chaining it back is how the model hands a batch on, not something the tests show. The contract states only that the forwarded collection has the same elements as the batch. It claims nothing about order or multiplicity, because the behaviour fixed by the tests is set equality only.
- Exact error-message text is left out. Only the kind of error is kept: an empty batch versus an empty index. All are `ValueError` in SMQTK's `HashIndex`.
- `get_config` and plugin discovery (module scanning in the plugin utility) are not part of this model. The discovered classes are an input to `GetHashIndexImpls`.
- HashIndexRegistry.GetHashIndexImpls: the `is_usable` filter and the completeness direction (every admitted class found has an entry) are assumptions about the discovery helper, which is not part of this model. `found` stands for the classes that helper keeps. The behaviour fixed by the tests is only that every value is a `HashIndex` subclass.
- HashIndexContract.NN: that `nn` passes back `_nn`'s answer unchanged is assumed. The tests never inspect what `nn` returns. `_nn` is also modelled as read-only: `Impl.nn` returns only an answer, so a concrete algorithm whose `_nn` changes its state (a cache, a lazy load) is not represented. The clause that `nn` leaves the state alone holds because of this modelling choice; the tests check only the arguments `_nn` receives.
- The primitives and `count` are total functions in the model. An exception raised by `count()`, `_build_index`, `_update_index` or `_nn` is not represented, and neither is any state such an exception leaves half-updated.
- Concurrency between queries and index mutation is left out. `HashIndex` does not guard against it.
