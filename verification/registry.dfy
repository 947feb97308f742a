/**
  `get_hash_index_impls`: the name-keyed registry of available hash-index
  algorithms.

  Plugin discovery itself (which modules are scanned and how classes are
  found in them) is not part of this model; the classes it finds are an
  input, in discovery order. The registry keeps those that are hash-index
  implementations and report themselves usable, keyed by class name.
 */
module HashIndexRegistry {

  /** The name of the interface every registered algorithm derives from. */
  const HashIndexInterface: string := "HashIndex"

  /** A class found by discovery: its name, the names of the classes it
      derives from (itself included), and what its `is_usable` reports. */
  datatype PluginClass = PluginClass(name: string, ancestors: set<string>, usable: bool)

  /** `issubclass(cls, HashIndex)`. */
  predicate IsHashIndexImpl(c: PluginClass) {
    HashIndexInterface in c.ancestors
  }

  /** A class the registry accepts. */
  predicate Admitted(c: PluginClass) {
    IsHashIndexImpl(c) && c.usable
  }

  /** Every value is a usable hash-index implementation registered under its
      own name, and every such class that was found has an entry. */
  function GetHashIndexImpls(found: seq<PluginClass>): (m: map<string, PluginClass>)
    ensures forall k :: k in m ==> IsHashIndexImpl(m[k]) && m[k].usable && m[k].name == k
    ensures forall k :: k in m ==> m[k] in found
    ensures forall k :: k in m <==> exists i :: 0 <= i < |found| && Admitted(found[i]) && found[i].name == k
    decreases |found|
  {
    if |found| == 0 then map[]
    else
      var m := GetHashIndexImpls(found[..|found| - 1]);
      var c := found[|found| - 1];
      if Admitted(c) then m[c.name := c] else m
  }
}
