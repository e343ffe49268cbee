/** The traversal as the source runs it: a context object (data_t) whose handled
    set, unknown-type collector and depth counter are updated in place while the
    recursion walks the value, with the byte counts accumulated in loops.  Every
    method is proved to compute what the specification in module Weigh says. */
module Traversal {
  import opened Values
  import opened WibUtil
  import opened Weigh

  /** data_t: the raw-pointer policy (with the rest of the fixed configuration), the
      set of handled addresses, the optional collector of unknown type identities
      and the current depth. */
  class Context {
    const cfg: Config
    var handled: set<Address>
    var unknown: Option<set<TypeId>>
    var depth: nat

    /** A fresh context, with or without a collector. */
    constructor (cfg: Config, collect: bool)
      ensures this.cfg == cfg && handled == {} && depth == 0
      ensures unknown == if collect then Some({}) else None
    {
      this.cfg := cfg;
      handled := {};
      unknown := if collect then Some({}) else None;
      depth := 0;
    }

    /** The mutable part of the context, as the specification sees it. */
    function Current(): State
      reads this
    {
      State(handled, unknown)
    }

    /** get_heap_allocated_bytes. */
    method Visit(v: Value) returns (bytes: nat)
      requires HeapClosed(cfg) && Closed(cfg, v)
      modifies this
      ensures bytes == Weight(cfg, v, old(Current())).bytes
      ensures Current() == Weight(cfg, v, old(Current())).state
      ensures depth == old(depth)
      decreases cfg.heap.Keys - handled, Size(v), 2
    {
      if v.shape.Scalar? {
        return 0;
      }
      depth := depth + 1;
      if v.shape.View? {
        bytes := 0;
      } else if v.shape.WeightHook? {
        bytes := v.shape.weight;
      } else if v.shape.AsTupleHook? {
        bytes := Visit(v.shape.result);
      } else if IsSmall(cfg, v) {
        bytes := 0;
      } else {
        bytes := VisitShape(v);
      }
      depth := depth - 1;
    }

    /** The branches of get_heap_allocated_bytes after the small-object rule. */
    method VisitShape(v: Value) returns (bytes: nat)
      requires HeapClosed(cfg) && Closed(cfg, v)
      requires !IsHookOrLeaf(v.shape) && v.size >= cfg.pointerSize
      modifies this
      ensures bytes == Dispatch(cfg, v, old(Current())).bytes
      ensures Current() == Dispatch(cfg, v, old(Current())).state
      ensures depth == old(depth)
      decreases cfg.heap.Keys - handled, Size(v), 1
    {
      match v.shape
      case Optional(o) =>
        if o.None? {
          bytes := 0;
        } else {
          bytes := Visit(o.value);
        }
      case SmartPtr(a) =>
        bytes := AccumulatePointer(a);
      case RawPtr(a) =>
        if cfg.followRawPointers {
          bytes := AccumulatePointer(a);
        } else {
          bytes := 0;
        }
      case Variant(o) =>
        if o.None? {
          bytes := 0;
        } else {
          bytes := Visit(o.value);
        }
      case Pair(x, y) =>
        var first := Visit(x);
        var second := Visit(y);
        bytes := first + second;
      case Tuple(es) =>
        bytes := AccumulateRange(es);
      case BoolVector(capacity) =>
        bytes := capacity / 8;
      case Contiguous(data, elementSize, capacity, es) =>
        var isStackAllocated := InsideSelf(v, data);
        var allocation := if data == NULL then 0 else if isStackAllocated then 0 else elementSize * capacity;
        var elements := AccumulateRange(es);
        bytes := allocation + elements;
      case Map(es) =>
        bytes := VisitMap(v);
      case Iterable(es) =>
        bytes := VisitIterable(v);
      case Any(h) =>
        bytes := VisitAny(v);
      case Members(es) =>
        bytes := AccumulateRange(es);
      case Unknown(t) =>
        if unknown.Some? {
          unknown := Some(unknown.value + {t});
        }
        bytes := 0;
    }

    /** accumulate_pointer_f. */
    method AccumulatePointer(a: Address) returns (bytes: nat)
      requires HeapClosed(cfg) && (a == NULL || a in cfg.heap)
      modifies this
      ensures bytes == PointerWeight(cfg, a, old(Current())).bytes
      ensures Current() == PointerWeight(cfg, a, old(Current())).state
      ensures depth == old(depth)
      decreases cfg.heap.Keys - handled, 0, 0
    {
      if a == NULL {
        return 0;
      }
      if a in handled {
        return 0;
      }
      handled := handled + {a};
      var pointee := cfg.heap[a];
      var inner := Visit(pointee);
      bytes := inner + pointee.size;
    }

    /** accumulate_range_f, and tuple_for_each with the weighing visitor: the
        elements' weights summed in index order. */
    method AccumulateRange(es: seq<Value>) returns (bytes: nat)
      requires HeapClosed(cfg) && ClosedAll(cfg, es)
      modifies this
      ensures bytes == WeighAll(cfg, es, old(Current())).bytes
      ensures Current() == WeighAll(cfg, es, old(Current())).state
      ensures depth == old(depth)
      decreases cfg.heap.Keys - handled, SizeAll(es), 0
    {
      ghost var st0 := Current();
      bytes := 0;
      var i := 0;
      while i < |es|
        invariant 0 <= i <= |es|
        invariant st0.handled <= handled && depth == old(depth)
        invariant ClosedAll(cfg, es[i..])
        invariant WeighAll(cfg, es, st0).bytes == bytes + WeighAll(cfg, es[i..], Current()).bytes
        invariant WeighAll(cfg, es, st0).state == WeighAll(cfg, es[i..], Current()).state
      {
        WeighAllStep(cfg, es, i, Current());
        SizeAllBound(es, i);
        assert cfg.heap.Keys - handled <= cfg.heap.Keys - st0.handled;
        var element := Visit(es[i]);
        bytes := bytes + element;
        i := i + 1;
      }
    }

    /** accumulate_range_f over a map's entries, each weighed as a std::pair. */
    method AccumulateEntries(es: seq<Entry>) returns (bytes: nat)
      requires HeapClosed(cfg) && ClosedEntries(cfg, es)
      modifies this
      ensures bytes == WeighEntries(cfg, es, old(Current())).bytes
      ensures Current() == WeighEntries(cfg, es, old(Current())).state
      ensures depth == old(depth)
      decreases cfg.heap.Keys - handled, SizeEntries(es), 0
    {
      ghost var st0 := Current();
      bytes := 0;
      var i := 0;
      while i < |es|
        invariant 0 <= i <= |es|
        invariant st0.handled <= handled && depth == old(depth)
        invariant ClosedEntries(cfg, es[i..])
        invariant WeighEntries(cfg, es, st0).bytes == bytes + WeighEntries(cfg, es[i..], Current()).bytes
        invariant WeighEntries(cfg, es, st0).state == WeighEntries(cfg, es[i..], Current()).state
      {
        WeighEntriesStep(cfg, es, i, Current());
        SizeEntriesBound(es, i);
        assert cfg.heap.Keys - handled <= cfg.heap.Keys - st0.handled;
        var entry := Visit(EntryValue(es[i]));
        bytes := bytes + entry;
        i := i + 1;
      }
    }

    /** The map branch: the key and mapped sizes of entries outside the map's own
        footprint, then the entries' weights. */
    method VisitMap(v: Value) returns (bytes: nat)
      requires HeapClosed(cfg) && Closed(cfg, v)
      requires v.shape.Map? && v.size >= cfg.pointerSize
      modifies this
      ensures bytes == Dispatch(cfg, v, old(Current())).bytes
      ensures Current() == Dispatch(cfg, v, old(Current())).state
      ensures depth == old(depth)
      decreases cfg.heap.Keys - handled, Size(v), 0
    {
      var es := v.shape.entries;
      var allocation := EntryBytesOutside(v, es);
      assert ClosedEntries(cfg, es) && SizeEntries(es) < Size(v);
      var entries := AccumulateEntries(es);
      bytes := allocation + entries;
    }

    /** The generic range branch: the sizes of elements outside the range's own
        footprint, then the elements' weights. */
    method VisitIterable(v: Value) returns (bytes: nat)
      requires HeapClosed(cfg) && Closed(cfg, v)
      requires v.shape.Iterable? && v.size >= cfg.pointerSize
      modifies this
      ensures bytes == Dispatch(cfg, v, old(Current())).bytes
      ensures Current() == Dispatch(cfg, v, old(Current())).state
      ensures depth == old(depth)
      decreases cfg.heap.Keys - handled, Size(v), 0
    {
      var es := v.shape.items;
      var allocation := ElementBytesOutside(v, es);
      assert ClosedAll(cfg, es) && SizeAll(es) < Size(v);
      var elements := AccumulateRange(es);
      bytes := allocation + elements;
    }

    /** The std::any branch: try the known types in order; on a match weigh the
        payload and add its size unless it sits in the box's own storage; with no
        match record the held type, if collecting. */
    method VisitAny(v: Value) returns (bytes: nat)
      requires HeapClosed(cfg) && Closed(cfg, v)
      requires v.shape.Any? && v.size >= cfg.pointerSize
      modifies this
      ensures bytes == Dispatch(cfg, v, old(Current())).bytes
      ensures Current() == Dispatch(cfg, v, old(Current())).state
      ensures depth == old(depth)
      decreases cfg.heap.Keys - handled, Size(v), 0
    {
      var box := v.shape.held;
      if box.None? {
        return 0;
      }
      bytes := 0;
      var payload := box.value.payload;
      var found := TryVisitAny(cfg.allowlist, box.value.typeId, 0);
      if found.Some? {
        var inner := Visit(payload);
        bytes := bytes + inner;
        if !InsideSelf(v, payload.addr) {
          bytes := bytes + payload.size;
        }
      }
      if found.None? && unknown.Some? {
        unknown := Some(unknown.value + {box.value.typeId});
      }
    }
  }

  /** The map branch's first loop: sizeof(key) and sizeof(mapped) of every entry
      whose key or mapped value lies outside the map's own footprint. */
  method EntryBytesOutside(self: Value, es: seq<Entry>) returns (allocation: nat)
    ensures allocation == EntrySizes(self, es)
  {
    allocation := 0;
    var i := 0;
    while i < |es|
      invariant 0 <= i <= |es|
      invariant allocation == EntrySizes(self, es[..i])
    {
      assert es[..i + 1][..i] == es[..i];
      if !InsideSelf(self, es[i].key.addr) {
        allocation := allocation + es[i].key.size;
      }
      if !InsideSelf(self, es[i].mapped.addr) {
        allocation := allocation + es[i].mapped.size;
      }
      i := i + 1;
    }
    assert es[..i] == es;
  }

  /** The generic range branch's first loop: sizeof(element) of every element
      lying outside the range's own footprint. */
  method ElementBytesOutside(self: Value, es: seq<Value>) returns (allocation: nat)
    ensures allocation == OutsideSizes(self, es)
  {
    allocation := 0;
    var i := 0;
    while i < |es|
      invariant 0 <= i <= |es|
      invariant allocation == OutsideSizes(self, es[..i])
    {
      assert es[..i + 1][..i] == es[..i];
      if !InsideSelf(self, es[i].addr) {
        allocation := allocation + es[i].size;
      }
      i := i + 1;
    }
    assert es[..i] == es;
  }
}
