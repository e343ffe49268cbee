/** The two public entry points.  Each builds a fresh context (no handled
    address, depth 0) and runs the traversal once on the root value. */
module Wib {
  import opened Values
  import opened Weigh
  import opened Traversal
  import opened WeighFacts

  /** weight_in_bytes: the traversal's byte count, without a collector. */
  method WeightInBytes(c: Config, v: Value) returns (bytes: nat)
    requires HeapClosed(c) && Closed(c, v)
    ensures bytes == Weight(c, v, State({}, None)).bytes
  {
    var context := new Context(c, false);
    bytes := context.Visit(v);
  }

  /** unknown_typeindexes: the types the traversal could not decompose, collected
      into a fresh empty set; the byte count is computed and discarded.  Every
      type returned is that of an unknown value or an unlisted std::any box inside
      the value or inside some value in the heap. */
  method UnknownTypeIndexes(c: Config, v: Value) returns (types: set<TypeId>)
    requires HeapClosed(c) && Closed(c, v)
    ensures Weight(c, v, State({}, Some({}))).state.unknown == Some(types)
    ensures types <= UnknownIds(c, v)
  {
    UnknownsBounded(c, v, State({}, Some({})));
    var context := new Context(c, true);
    var bytes := context.Visit(v);
    types := context.unknown.value;
  }
}
