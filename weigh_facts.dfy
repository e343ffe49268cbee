/** What the traversal promises, proved about its specification in module Weigh. */
module WeighFacts {
  import opened Values
  import opened WibUtil
  import opened Weigh

  // ---------------------------------------------------------------------------
  // Zero-weight shapes and the hooks

  /** Scalars, views, and small values without a hook weigh nothing and leave the
      context as it was. */
  lemma ZeroWeightShapes(c: Config, v: Value, st: State)
    requires HeapClosed(c) && Closed(c, v)
    requires v.shape.Scalar? || v.shape.View? || IsSmall(c, v)
    ensures Weight(c, v, st) == Nothing(st)
  {
  }

  /** A weight hook's answer is returned verbatim, whatever the value holds and
      however small it is, and nothing is traversed. */
  lemma HookIsVerbatim(c: Config, v: Value, st: State)
    requires HeapClosed(c) && v.shape.WeightHook?
    ensures Weight(c, v, st) == Outcome(v.shape.weight, st, [])
  {
  }

  /** A value with as_tuple() weighs exactly what the tuple it returns weighs. */
  lemma AsTupleWeighsItsTuple(c: Config, v: Value, st: State)
    requires HeapClosed(c) && Closed(c, v) && v.shape.AsTupleHook?
    ensures Weight(c, v, st) == Weight(c, v.shape.result, st)
  {
  }

  // ---------------------------------------------------------------------------
  // Pointers

  /** A null pointer, or one whose address is already handled, costs nothing; any
      other pointer is charged once: its address is the first one charged, the
      context afterwards has it handled, and the cost is the pointee's size on top
      of the pointee's weight weighed with the address already handled. */
  lemma PointerChargedOnce(c: Config, a: Address, st: State)
    requires HeapClosed(c) && (a == NULL || a in c.heap)
    ensures a == NULL || a in st.handled ==> PointerWeight(c, a, st) == Nothing(st)
    ensures a != NULL && a !in st.handled ==>
      var r := PointerWeight(c, a, st);
      var inner := Weight(c, c.heap[a], st.(handled := st.handled + {a}));
      && r.charged == [a] + inner.charged
      && r.bytes == c.heap[a].size + inner.bytes
      && a in r.state.handled
      && a !in inner.charged
  {
  }

  /** A raw pointer costs nothing unless raw pointers are followed, and then it is
      charged exactly as a smart pointer to the same address. */
  lemma RawPointerPolicy(c: Config, v: Value, st: State)
    requires HeapClosed(c) && Closed(c, v) && v.shape.RawPtr? && v.size >= c.pointerSize
    ensures !c.followRawPointers ==> Weight(c, v, st) == Nothing(st)
    ensures c.followRawPointers ==>
      Weight(c, v, st) == Weight(c, v.(shape := SmartPtr(v.shape.pointee)), st)
  {
  }

  /** Weighing a range of pointers that all lead to handled addresses costs
      nothing and changes nothing. */
  lemma {:induction false} HandledPointersAreFree(c: Config, es: seq<Value>, a: Address, st: State)
    requires HeapClosed(c) && a in c.heap && a in st.handled
    requires forall i | 0 <= i < |es| :: es[i].shape == SmartPtr(a) && es[i].size >= c.pointerSize
    ensures WeighAll(c, es, st) == Nothing(st)
    decreases |es|
  {
    if es != [] {
      assert Weight(c, es[0], st) == Dispatch(c, es[0], st) == PointerWeight(c, a, st) == Nothing(st);
      HandledPointersAreFree(c, es[1..], a, st);
    }
  }

  /** Shared ownership: a range of smart pointers that all point to one address
      charges that address once, whatever the number of pointers. */
  lemma {:induction false} SharedPointersChargedOnce(c: Config, es: seq<Value>, a: Address, st: State)
    requires HeapClosed(c) && a != NULL && a in c.heap && a !in st.handled
    requires |es| > 0
    requires forall i | 0 <= i < |es| :: es[i].shape == SmartPtr(a) && es[i].size >= c.pointerSize
    ensures
      var inner := Weight(c, c.heap[a], st.(handled := st.handled + {a}));
      WeighAll(c, es, st) == Outcome(c.heap[a].size + inner.bytes, inner.state, [a] + inner.charged)
  {
    var inner := Weight(c, c.heap[a], st.(handled := st.handled + {a}));
    var first := Weight(c, es[0], st);
    assert first == Dispatch(c, es[0], st) == PointerWeight(c, a, st);
    assert first == Outcome(inner.bytes + c.heap[a].size, inner.state, [a] + inner.charged);
    assert a in first.state.handled;
    HandledPointersAreFree(c, es[1..], a, first.state);
    assert first.charged + [] == first.charged;
  }

  /** A node whose one member is a smart pointer to an address that is handled by
      the time the node is weighed is charged its own size and nothing more. */
  lemma NodeOverHandledTarget(c: Config, a: Address, b: Address, st: State)
    requires HeapClosed(c) && a != NULL && a in c.heap && a !in st.handled
    requires b in c.heap && b in st.handled + {a}
    requires var node := c.heap[a];
      && node.size >= c.pointerSize && node.shape.Tuple? && |node.shape.elements| == 1
      && node.shape.elements[0].shape == SmartPtr(b) && node.shape.elements[0].size >= c.pointerSize
    ensures PointerWeight(c, a, st) == Outcome(c.heap[a].size, st.(handled := st.handled + {a}), [a])
  {
    var st' := st.(handled := st.handled + {a});
    var node := c.heap[a];
    var p := node.shape.elements[0];
    assert Weight(c, p, st') == Dispatch(c, p, st') == PointerWeight(c, b, st') == Nothing(st');
    TupleEdgeCases(c, p, st');
    assert node.shape == Tuple([p]);
    assert Weight(c, node, st') == Dispatch(c, node, st') == WeighAll(c, [p], st');
  }

  /** Cycles are cut: a node holding a smart pointer to itself is charged exactly
      once, and the pointer inside it costs nothing. */
  lemma SelfCycleChargedOnce(c: Config, a: Address, st: State)
    requires HeapClosed(c) && a != NULL && a in c.heap && a !in st.handled
    requires var node := c.heap[a];
      && node.size >= c.pointerSize && node.shape.Tuple? && |node.shape.elements| == 1
      && node.shape.elements[0].shape == SmartPtr(a) && node.shape.elements[0].size >= c.pointerSize
    ensures PointerWeight(c, a, st) == Outcome(c.heap[a].size, st.(handled := st.handled + {a}), [a])
  {
    NodeOverHandledTarget(c, a, a, st);
  }

  /** Two nodes pointing at each other are each charged exactly once, in the
      order they are reached. */
  lemma TwoNodeCycleChargedOnce(c: Config, a: Address, b: Address, st: State)
    requires HeapClosed(c) && a != NULL && b != NULL && a != b
    requires a in c.heap && b in c.heap && a !in st.handled && b !in st.handled
    requires var na := c.heap[a];
      && na.size >= c.pointerSize && na.shape.Tuple? && |na.shape.elements| == 1
      && na.shape.elements[0].shape == SmartPtr(b) && na.shape.elements[0].size >= c.pointerSize
    requires var nb := c.heap[b];
      && nb.size >= c.pointerSize && nb.shape.Tuple? && |nb.shape.elements| == 1
      && nb.shape.elements[0].shape == SmartPtr(a) && nb.shape.elements[0].size >= c.pointerSize
    ensures PointerWeight(c, a, st)
         == Outcome(c.heap[a].size + c.heap[b].size, st.(handled := st.handled + {a, b}), [a, b])
  {
    var na := c.heap[a];
    var pa := na.shape.elements[0];
    var sa := st.(handled := st.handled + {a});
    NodeOverHandledTarget(c, b, a, sa);
    assert sa.(handled := sa.handled + {b}) == st.(handled := st.handled + {a, b});
    assert Weight(c, pa, sa) == Dispatch(c, pa, sa) == PointerWeight(c, b, sa);
    TupleEdgeCases(c, pa, sa);
    assert na.shape == Tuple([pa]);
    assert Weight(c, na, sa) == Dispatch(c, na, sa) == WeighAll(c, [pa], sa);
  }

  /** Weighing the same value again from the context the first weighing left
      behind charges none of the addresses the first one charged. */
  lemma NoAddressChargedTwice(c: Config, v: Value, st: State)
    requires HeapClosed(c) && Closed(c, v)
    ensures
      var first := Weight(c, v, st);
      var again := Weight(c, v, first.state);
      forall a | a in first.charged :: a !in again.charged
  {
  }

  // ---------------------------------------------------------------------------
  // Products

  /** tuple_for_each visits in index order: weighing a concatenation is weighing
      the first part, then the second from the state the first left behind. */
  lemma {:induction false} WeighAllAppend(c: Config, xs: seq<Value>, ys: seq<Value>, st: State)
    requires HeapClosed(c) && ClosedAll(c, xs) && ClosedAll(c, ys)
    ensures ClosedAll(c, xs + ys)
    ensures
      var first := WeighAll(c, xs, st);
      WeighAll(c, xs + ys, st) == Then(first, WeighAll(c, ys, first.state))
    decreases |xs|
  {
    assert ClosedAll(c, xs + ys) by {
      forall i | 0 <= i < |xs + ys| ensures Closed(c, (xs + ys)[i]) {
        if i < |xs| {
          assert (xs + ys)[i] == xs[i];
        } else {
          assert (xs + ys)[i] == ys[i - |xs|];
        }
      }
    }
    if xs == [] {
      assert xs + ys == ys;
    } else {
      var r1 := Weight(c, xs[0], st);
      assert (xs + ys)[0] == xs[0] && (xs + ys)[1..] == xs[1..] + ys;
      WeighAllAppend(c, xs[1..], ys, r1.state);
      var rest := WeighAll(c, xs[1..], r1.state);
      var tail := WeighAll(c, ys, rest.state);
      assert WeighAll(c, xs + ys, st) == Then(r1, WeighAll(c, xs[1..] + ys, r1.state));
      assert WeighAll(c, xs[1..] + ys, r1.state) == Then(rest, tail);
      assert WeighAll(c, xs, st) == Then(r1, rest);
      ThenAssociative(r1, rest, tail);
    }
  }

  lemma ThenAssociative(r1: Outcome, r2: Outcome, r3: Outcome)
    ensures Then(r1, Then(r2, r3)) == Then(Then(r1, r2), r3)
  {
    assert r1.charged + (r2.charged + r3.charged) == (r1.charged + r2.charged) + r3.charged;
  }

  /** The empty tuple costs nothing, and a one-element tuple costs its element. */
  lemma TupleEdgeCases(c: Config, x: Value, st: State)
    requires HeapClosed(c) && Closed(c, x)
    ensures WeighAll(c, [], st) == Nothing(st)
    ensures WeighAll(c, [x], st) == Weight(c, x, st)
  {
    assert [x][1..] == [];
    assert Weight(c, x, st).charged + [] == Weight(c, x, st).charged;
  }

  /** An empty optional and a valueless variant cost nothing; otherwise they cost
      exactly what the contained or active value costs. */
  lemma WrappersWeighTheirContents(c: Config, v: Value, st: State)
    requires HeapClosed(c) && Closed(c, v) && v.size >= c.pointerSize
    requires v.shape.Optional? || v.shape.Variant?
    ensures
      var inner := if v.shape.Optional? then v.shape.contained else v.shape.active;
      Weight(c, v, st) == if inner.None? then Nothing(st) else Weight(c, inner.value, st)
  {
  }

  /** A pair costs the sum of its elements, the second weighed after the first. */
  lemma PairIsTwoElementTuple(c: Config, v: Value, st: State)
    requires HeapClosed(c) && Closed(c, v) && v.shape.Pair? && v.size >= c.pointerSize
    ensures ClosedAll(c, [v.shape.first, v.shape.second])
    ensures Weight(c, v, st) == WeighAll(c, [v.shape.first, v.shape.second], st)
  {
    var x, y := v.shape.first, v.shape.second;
    var r1 := Weight(c, x, st);
    var r2 := Weight(c, y, r1.state);
    assert Weight(c, v, st) == Dispatch(c, v, st) == Then(r1, r2);
    assert [x, y][1..] == [y];
    assert [y][1..] == [];
    assert WeighAll(c, [y], r1.state) == Then(r2, Nothing(r2.state));
    assert r2.charged + [] == r2.charged;
    assert WeighAll(c, [x, y], st) == Then(r1, WeighAll(c, [y], r1.state));
  }

  // ---------------------------------------------------------------------------
  // Containers

  /** Elements that cannot own heap memory weigh nothing together. */
  lemma {:induction false} ScalarsWeighNothing(c: Config, es: seq<Value>, st: State)
    requires HeapClosed(c)
    requires forall i | 0 <= i < |es| :: es[i].shape.Scalar?
    ensures ClosedAll(c, es)
    ensures WeighAll(c, es, st) == Nothing(st)
    decreases |es|
  {
    if es != [] {
      ScalarsWeighNothing(c, es[1..], st);
    }
  }

  /** A contiguous buffer of scalars weighs its capacity, not its length: any
      number of live elements, including none after clear(), gives the same
      weight; a null data() or an in-place buffer weighs nothing. */
  lemma ScalarBufferWeighsItsCapacity(c: Config, v: Value, st: State)
    requires HeapClosed(c) && v.shape.Contiguous? && v.size >= c.pointerSize
    requires forall i | 0 <= i < |v.shape.live| :: v.shape.live[i].shape.Scalar?
    ensures Closed(c, v)
    ensures
      var s := v.shape;
      Weight(c, v, st) ==
        Outcome(if s.data == NULL || InsideSelf(v, s.data) then 0 else s.elementSize * s.capacity, st, [])
  {
    ScalarsWeighNothing(c, v.shape.live, st);
  }

  /** vector<bool> weighs capacity / 8, whatever else it holds. */
  lemma BoolVectorWeighsCapacityEighth(c: Config, v: Value, st: State)
    requires HeapClosed(c) && v.shape.BoolVector? && v.size >= c.pointerSize
    ensures Weight(c, v, st) == Outcome(v.shape.capacity / 8, st, [])
  {
  }

  /** The sum of the sizes of a range's elements. */
  function SumSizes(es: seq<Value>): nat
  {
    if es == [] then 0 else SumSizes(es[..|es| - 1]) + es[|es| - 1].size
  }

  /** A range's element charge counts only elements outside its footprint: it is
      zero when all of them are in place (std::array, C arrays), the sum of their
      sizes when none is (node-based containers), and never more than that sum. */
  lemma {:induction false} OutsideSizesBounds(self: Value, es: seq<Value>)
    ensures OutsideSizes(self, es) <= SumSizes(es)
    ensures (forall i | 0 <= i < |es| :: InsideSelf(self, es[i].addr)) ==> OutsideSizes(self, es) == 0
    ensures (forall i | 0 <= i < |es| :: !InsideSelf(self, es[i].addr)) ==> OutsideSizes(self, es) == SumSizes(es)
    decreases |es|
  {
    if es != [] {
      OutsideSizesBounds(self, es[..|es| - 1]);
    }
  }

  /** The sum of the key and mapped sizes of a map's entries. */
  function SumEntrySizes(es: seq<Entry>): nat
  {
    if es == [] then 0
    else SumEntrySizes(es[..|es| - 1]) + es[|es| - 1].key.size + es[|es| - 1].mapped.size
  }

  /** A map charges sizeof(key) and sizeof(mapped) for every entry stored outside
      its own footprint, and nothing for entries stored inside it. */
  lemma {:induction false} EntrySizesBounds(self: Value, es: seq<Entry>)
    ensures EntrySizes(self, es) <= SumEntrySizes(es)
    ensures (forall i | 0 <= i < |es| :: InsideSelf(self, es[i].key.addr) && InsideSelf(self, es[i].mapped.addr))
      ==> EntrySizes(self, es) == 0
    ensures (forall i | 0 <= i < |es| :: !InsideSelf(self, es[i].key.addr) && !InsideSelf(self, es[i].mapped.addr))
      ==> EntrySizes(self, es) == SumEntrySizes(es)
    decreases |es|
  {
    if es != [] {
      EntrySizesBounds(self, es[..|es| - 1]);
    }
  }

  // ---------------------------------------------------------------------------
  // std::any

  /** An empty std::any costs nothing and records nothing. */
  lemma EmptyAnyIsFree(c: Config, v: Value, st: State)
    requires HeapClosed(c) && v.shape == Any(None) && v.size >= c.pointerSize
    ensures Closed(c, v)
    ensures Weight(c, v, st) == Nothing(st)
  {
  }

  /** A non-empty std::any whose held type is not listed costs nothing and records
      the held type when, and only when, there is a collector. */
  lemma UnlistedAnyIsUnknown(c: Config, v: Value, st: State)
    requires HeapClosed(c) && Closed(c, v) && v.size >= c.pointerSize
    requires v.shape.Any? && v.shape.held.Some? && v.shape.held.value.typeId !in c.allowlist
    ensures Weight(c, v, st).bytes == 0 && Weight(c, v, st).charged == []
    ensures Weight(c, v, st).state.handled == st.handled
    ensures Weight(c, v, st).state.unknown ==
      if st.unknown.Some? then Some(st.unknown.value + {v.shape.held.value.typeId}) else None
  {
  }

  /** A non-empty std::any whose held type is listed costs its payload's weight,
      plus the payload's size unless the payload sits in the box's own storage,
      and records nothing for the box itself. */
  lemma ListedAnyWeighsPayload(c: Config, v: Value, st: State)
    requires HeapClosed(c) && Closed(c, v) && v.size >= c.pointerSize
    requires v.shape.Any? && v.shape.held.Some? && v.shape.held.value.typeId in c.allowlist
    ensures
      var p := v.shape.held.value.payload;
      var inner := Weight(c, p, st);
      Weight(c, v, st) == inner.(bytes := inner.bytes + if InsideSelf(v, p.addr) then 0 else p.size)
  {
    var h := v.shape.held.value;
    var i :| 0 <= i < |c.allowlist| && c.allowlist[i] == h.typeId;
    assert TryVisitAny(c.allowlist, h.typeId, 0).Some?;
  }

  // ---------------------------------------------------------------------------
  // The collector

  /** The collector never influences the traversal: from two states with the same
      handled set, the byte count, the handled set afterwards and the charged
      addresses are the same whether or not unknown types are collected. */
  lemma {:induction false} CollectorIndependent(c: Config, v: Value, s1: State, s2: State)
    requires HeapClosed(c) && Closed(c, v) && s1.handled == s2.handled
    ensures Weight(c, v, s1).bytes == Weight(c, v, s2).bytes
    ensures Weight(c, v, s1).state.handled == Weight(c, v, s2).state.handled
    ensures Weight(c, v, s1).charged == Weight(c, v, s2).charged
    decreases c.heap.Keys - s1.handled, Size(v), 1
  {
    if v.shape.Scalar? || v.shape.View? || v.shape.WeightHook? {
    } else if v.shape.AsTupleHook? {
      CollectorIndependent(c, v.shape.result, s1, s2);
    } else if IsSmall(c, v) {
    } else {
      DispatchCollectorIndependent(c, v, s1, s2);
    }
  }

  lemma {:induction false} DispatchCollectorIndependent(c: Config, v: Value, s1: State, s2: State)
    requires HeapClosed(c) && Closed(c, v) && s1.handled == s2.handled
    requires !IsHookOrLeaf(v.shape) && v.size >= c.pointerSize
    ensures Dispatch(c, v, s1).bytes == Dispatch(c, v, s2).bytes
    ensures Dispatch(c, v, s1).state.handled == Dispatch(c, v, s2).state.handled
    ensures Dispatch(c, v, s1).charged == Dispatch(c, v, s2).charged
    decreases c.heap.Keys - s1.handled, Size(v), 0
  {
    match v.shape
    case Optional(o) =>
      if o.Some? {
        CollectorIndependent(c, o.value, s1, s2);
      }
    case SmartPtr(a) =>
      PointerCollectorIndependent(c, a, s1, s2);
    case RawPtr(a) =>
      if c.followRawPointers {
        PointerCollectorIndependent(c, a, s1, s2);
      }
    case Variant(o) =>
      if o.Some? {
        CollectorIndependent(c, o.value, s1, s2);
      }
    case Pair(x, y) =>
      CollectorIndependent(c, x, s1, s2);
      CollectorIndependent(c, y, Weight(c, x, s1).state, Weight(c, x, s2).state);
    case Tuple(es) =>
      AllCollectorIndependent(c, es, s1, s2);
    case BoolVector(_) =>
    case Contiguous(_, _, _, es) =>
      AllCollectorIndependent(c, es, s1, s2);
    case Map(es) =>
      EntriesCollectorIndependent(c, es, s1, s2);
    case Iterable(es) =>
      AllCollectorIndependent(c, es, s1, s2);
    case Any(h) =>
      if h.Some? && TryVisitAny(c.allowlist, h.value.typeId, 0).Some? {
        CollectorIndependent(c, h.value.payload, s1, s2);
      }
    case Members(es) =>
      AllCollectorIndependent(c, es, s1, s2);
    case Unknown(_) =>
  }

  lemma {:induction false} PointerCollectorIndependent(c: Config, a: Address, s1: State, s2: State)
    requires HeapClosed(c) && (a == NULL || a in c.heap) && s1.handled == s2.handled
    ensures PointerWeight(c, a, s1).bytes == PointerWeight(c, a, s2).bytes
    ensures PointerWeight(c, a, s1).state.handled == PointerWeight(c, a, s2).state.handled
    ensures PointerWeight(c, a, s1).charged == PointerWeight(c, a, s2).charged
    decreases c.heap.Keys - s1.handled, 0, 0
  {
    if a != NULL && a !in s1.handled {
      CollectorIndependent(c, c.heap[a], s1.(handled := s1.handled + {a}), s2.(handled := s2.handled + {a}));
    }
  }

  lemma {:induction false} AllCollectorIndependent(c: Config, es: seq<Value>, s1: State, s2: State)
    requires HeapClosed(c) && ClosedAll(c, es) && s1.handled == s2.handled
    ensures WeighAll(c, es, s1).bytes == WeighAll(c, es, s2).bytes
    ensures WeighAll(c, es, s1).state.handled == WeighAll(c, es, s2).state.handled
    ensures WeighAll(c, es, s1).charged == WeighAll(c, es, s2).charged
    decreases c.heap.Keys - s1.handled, SizeAll(es), 0
  {
    if es != [] {
      CollectorIndependent(c, es[0], s1, s2);
      AllCollectorIndependent(c, es[1..], Weight(c, es[0], s1).state, Weight(c, es[0], s2).state);
    }
  }

  lemma {:induction false} EntriesCollectorIndependent(c: Config, es: seq<Entry>, s1: State, s2: State)
    requires HeapClosed(c) && ClosedEntries(c, es) && s1.handled == s2.handled
    ensures WeighEntries(c, es, s1).bytes == WeighEntries(c, es, s2).bytes
    ensures WeighEntries(c, es, s1).state.handled == WeighEntries(c, es, s2).state.handled
    ensures WeighEntries(c, es, s1).charged == WeighEntries(c, es, s2).charged
    decreases c.heap.Keys - s1.handled, SizeEntries(es), 0
  {
    if es != [] {
      assert ClosedEntry(c, es[0]);
      SizeEntriesBound(es, 0);
      CollectorIndependent(c, EntryValue(es[0]), s1, s2);
      EntriesCollectorIndependent(c, es[1..], Weight(c, EntryValue(es[0]), s1).state,
        Weight(c, EntryValue(es[0]), s2).state);
    }
  }

  /** The fallback branch: a value no strategy applies to costs nothing, charges
      nothing, and records its type identity when, and only when, there is a
      collector. */
  lemma UnknownIsRecorded(c: Config, v: Value, st: State)
    requires HeapClosed(c) && v.shape.Unknown? && v.size >= c.pointerSize
    ensures Closed(c, v)
    ensures Weight(c, v, st) == Outcome(0, Record(st, v.shape.typeId), [])
  {
  }

  /** The type identities the traversal of v could record, found without following
      pointers: those of values no strategy applies to, and those of std::any
      boxes whose held type is not listed, anywhere inside v. */
  ghost function LocalUnknowns(c: Config, v: Value): set<TypeId>
    decreases Size(v)
  {
    match v.shape
    case AsTupleHook(t) => LocalUnknowns(c, t)
    case Optional(o) => if o.Some? then LocalUnknowns(c, o.value) else {}
    case Variant(o) => if o.Some? then LocalUnknowns(c, o.value) else {}
    case Pair(x, y) => LocalUnknowns(c, x) + LocalUnknowns(c, y)
    case Tuple(es) => LocalUnknownsAll(c, es)
    case Contiguous(_, _, _, es) => LocalUnknownsAll(c, es)
    case Map(es) => LocalUnknownsEntries(c, es)
    case Iterable(es) => LocalUnknownsAll(c, es)
    case Any(h) =>
      if h.None? then {}
      else if h.value.typeId in c.allowlist then LocalUnknowns(c, h.value.payload)
      else {h.value.typeId}
    case Members(es) => LocalUnknownsAll(c, es)
    case Unknown(t) => {t}
    case _ => {}
  }

  ghost function LocalUnknownsAll(c: Config, es: seq<Value>): set<TypeId>
    decreases SizeAll(es)
  {
    if es == [] then {} else LocalUnknowns(c, es[0]) + LocalUnknownsAll(c, es[1..])
  }

  ghost function LocalUnknownsEntries(c: Config, es: seq<Entry>): set<TypeId>
    decreases SizeEntries(es)
  {
    if es == [] then {}
    else
      SizeEntriesBound(es, 0);
      LocalUnknowns(c, EntryValue(es[0])) + LocalUnknownsEntries(c, es[1..])
  }

  /** The type identities any heap value could record. */
  ghost function HeapUnknowns(c: Config): set<TypeId>
  {
    set a, t | a in c.heap && t in LocalUnknowns(c, c.heap[a]) :: t
  }

  /** Everything weighing v could ever record, pointers followed. */
  ghost function UnknownIds(c: Config, v: Value): set<TypeId>
  {
    LocalUnknowns(c, v) + HeapUnknowns(c)
  }

  /** unknown_typeindexes records nothing spurious: the collector afterwards holds
      only what it held before and the type identities of unknown values and
      unlisted std::any boxes inside v or inside some heap value. */
  lemma {:induction false} UnknownsBounded(c: Config, v: Value, st: State)
    requires HeapClosed(c) && Closed(c, v) && st.unknown.Some?
    ensures Weight(c, v, st).state.unknown.Some?
    ensures Weight(c, v, st).state.unknown.value <= st.unknown.value + UnknownIds(c, v)
    decreases c.heap.Keys - st.handled, Size(v), 1
  {
    if v.shape.Scalar? || v.shape.View? || v.shape.WeightHook? {
    } else if v.shape.AsTupleHook? {
      UnknownsBounded(c, v.shape.result, st);
    } else if IsSmall(c, v) {
    } else {
      DispatchUnknownsBounded(c, v, st);
    }
  }

  lemma {:induction false} DispatchUnknownsBounded(c: Config, v: Value, st: State)
    requires HeapClosed(c) && Closed(c, v) && st.unknown.Some?
    requires !IsHookOrLeaf(v.shape) && v.size >= c.pointerSize
    ensures Dispatch(c, v, st).state.unknown.value <= st.unknown.value + UnknownIds(c, v)
    decreases c.heap.Keys - st.handled, Size(v), 0
  {
    match v.shape
    case Optional(o) =>
      if o.Some? {
        UnknownsBounded(c, o.value, st);
      }
    case SmartPtr(a) =>
      PointerUnknownsBounded(c, a, st);
    case RawPtr(a) =>
      if c.followRawPointers {
        PointerUnknownsBounded(c, a, st);
      }
    case Variant(o) =>
      if o.Some? {
        UnknownsBounded(c, o.value, st);
      }
    case Pair(x, y) =>
      UnknownsBounded(c, x, st);
      UnknownsBounded(c, y, Weight(c, x, st).state);
    case Tuple(es) =>
      AllUnknownsBounded(c, es, st);
    case BoolVector(_) =>
    case Contiguous(_, _, _, es) =>
      AllUnknownsBounded(c, es, st);
    case Map(es) =>
      EntriesUnknownsBounded(c, es, st);
    case Iterable(es) =>
      AllUnknownsBounded(c, es, st);
    case Any(h) =>
      if h.Some? && TryVisitAny(c.allowlist, h.value.typeId, 0).Some? {
        assert h.value.typeId in c.allowlist;
        UnknownsBounded(c, h.value.payload, st);
      }
    case Members(es) =>
      AllUnknownsBounded(c, es, st);
    case Unknown(_) =>
  }

  lemma {:induction false} PointerUnknownsBounded(c: Config, a: Address, st: State)
    requires HeapClosed(c) && (a == NULL || a in c.heap) && st.unknown.Some?
    ensures PointerWeight(c, a, st).state.unknown.value <= st.unknown.value + HeapUnknowns(c)
    decreases c.heap.Keys - st.handled, 0, 0
  {
    if a != NULL && a !in st.handled {
      var pointee := c.heap[a];
      UnknownsBounded(c, pointee, st.(handled := st.handled + {a}));
      assert LocalUnknowns(c, pointee) <= HeapUnknowns(c);
    }
  }

  lemma {:induction false} AllUnknownsBounded(c: Config, es: seq<Value>, st: State)
    requires HeapClosed(c) && ClosedAll(c, es) && st.unknown.Some?
    ensures WeighAll(c, es, st).state.unknown.value <= st.unknown.value + LocalUnknownsAll(c, es) + HeapUnknowns(c)
    decreases c.heap.Keys - st.handled, SizeAll(es), 0
  {
    if es != [] {
      UnknownsBounded(c, es[0], st);
      AllUnknownsBounded(c, es[1..], Weight(c, es[0], st).state);
    }
  }

  lemma {:induction false} EntriesUnknownsBounded(c: Config, es: seq<Entry>, st: State)
    requires HeapClosed(c) && ClosedEntries(c, es) && st.unknown.Some?
    ensures WeighEntries(c, es, st).state.unknown.value
         <= st.unknown.value + LocalUnknownsEntries(c, es) + HeapUnknowns(c)
    decreases c.heap.Keys - st.handled, SizeEntries(es), 0
  {
    if es != [] {
      assert ClosedEntry(c, es[0]);
      SizeEntriesBound(es, 0);
      UnknownsBounded(c, EntryValue(es[0]), st);
      EntriesUnknownsBounded(c, es[1..], Weight(c, EntryValue(es[0]), st).state);
    }
  }

  /** The local part of the bound is reached: weighing a range of values no
      strategy applies to records exactly the type identities of the range's own
      values, and nothing else changes. */
  lemma {:induction false} UnknownRangeRecordsAll(c: Config, es: seq<Value>, st: State)
    requires HeapClosed(c) && st.unknown.Some?
    requires forall i | 0 <= i < |es| :: es[i].shape.Unknown? && es[i].size >= c.pointerSize
    ensures ClosedAll(c, es)
    ensures WeighAll(c, es, st) == Outcome(0, st.(unknown := Some(st.unknown.value + LocalUnknownsAll(c, es))), [])
    decreases |es|
  {
    if es == [] {
      assert st.unknown.value + {} == st.unknown.value;
    } else {
      var st1 := Record(st, es[0].shape.typeId);
      assert Weight(c, es[0], st) == Dispatch(c, es[0], st) == Outcome(0, st1, []);
      UnknownRangeRecordsAll(c, es[1..], st1);
      var rest := WeighAll(c, es[1..], st1);
      assert WeighAll(c, es, st) == Then(Outcome(0, st1, []), rest);
      assert LocalUnknownsAll(c, es) == {es[0].shape.typeId} + LocalUnknownsAll(c, es[1..]);
      assert st1.unknown.value + LocalUnknownsAll(c, es[1..]) == st.unknown.value + LocalUnknownsAll(c, es);
      assert [] + rest.charged == rest.charged;
    }
  }

  /** weight_in_bytes and unknown_typeindexes run the same traversal: the byte
      count the second computes and discards is the one the first returns. */
  lemma EntryPointsAgree(c: Config, v: Value)
    requires HeapClosed(c) && Closed(c, v)
    ensures Weight(c, v, State({}, None)).bytes == Weight(c, v, State({}, Some({}))).bytes
    ensures Weight(c, v, State({}, None)).state.unknown == None
    ensures Weight(c, v, State({}, Some({}))).state.unknown.Some?
  {
    CollectorIndependent(c, v, State({}, None), State({}, Some({})));
  }
}
