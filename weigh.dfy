/** The heap-weight traversal as a function of the value, the fixed configuration
    and the mutable part of the traversal context.  This is the specification the
    imperative traversal in module Traversal is proved against. */
module Weigh {
  import opened Values
  import opened WibUtil

  /** The part of the traversal context that the traversal changes: the addresses
      already charged and, when the caller asked for it, the collector of type
      identities the traversal could not decompose (None models a null collector). */
  datatype State = State(handled: set<Address>, unknown: Option<set<TypeId>>)

  /** What weighing one value yields: the byte count, the state afterwards, and the
      addresses whose pointee was charged, in the order they were charged. */
  datatype Outcome = Outcome(bytes: nat, state: State, charged: seq<Address>)

  function Nothing(st: State): Outcome
  {
    Outcome(0, st, [])
  }

  /** Weighing one thing and then another, the second starting from the first's state. */
  function Then(r1: Outcome, r2: Outcome): Outcome
  {
    Outcome(r1.bytes + r2.bytes, r2.state, r1.charged + r2.charged)
  }

  function Plus(extra: nat, r: Outcome): Outcome
  {
    r.(bytes := extra + r.bytes)
  }

  /** Adds a type identity to the collector, if there is one: the handled set is
      untouched, a null collector stays null, and a present one gains exactly t. */
  function Record(st: State, t: TypeId): (r: State)
    ensures r.handled == st.handled
    ensures r.unknown.Some? <==> st.unknown.Some?
    ensures st.unknown.Some? ==> t in r.unknown.value && r.unknown.value - {t} == st.unknown.value - {t}
  {
    if st.unknown.Some? then st.(unknown := Some(st.unknown.value + {t})) else st
  }

  ghost function Elems(s: seq<Address>): set<Address>
  {
    set a | a in s
  }

  ghost predicate Distinct(s: seq<Address>)
  {
    forall i, j | 0 <= i < j < |s| :: s[i] != s[j]
  }

  /** The sum of the pointee sizes of the given heap addresses. */
  ghost function PointeeBytes(c: Config, s: seq<Address>): nat
  {
    if s == [] then 0
    else (if s[0] in c.heap then c.heap[s[0]].size else 0) + PointeeBytes(c, s[1..])
  }

  /** The invariant every step of the traversal keeps: the handled set only grows,
      and only by the addresses charged in this step; those are heap addresses that
      were not handled before, each charged once; the byte count includes every
      charged pointee's size; and the collector stays absent or only grows. */
  ghost predicate Extends(c: Config, st: State, r: Outcome)
  {
    && r.state.handled == st.handled + Elems(r.charged)
    && (forall a | a in r.charged :: a in c.heap && a !in st.handled)
    && Distinct(r.charged)
    && r.bytes >= PointeeBytes(c, r.charged)
    && (st.unknown.None? <==> r.state.unknown.None?)
    && (st.unknown.Some? ==> st.unknown.value <= r.state.unknown.value)
  }

  lemma {:induction false} PointeeBytesAppend(c: Config, s: seq<Address>, t: seq<Address>)
    ensures PointeeBytes(c, s + t) == PointeeBytes(c, s) + PointeeBytes(c, t)
  {
    if s != [] {
      assert (s + t)[1..] == s[1..] + t;
      PointeeBytesAppend(c, s[1..], t);
    } else {
      assert s + t == t;
    }
  }

  lemma ExtendsThen(c: Config, st: State, r1: Outcome, r2: Outcome)
    requires Extends(c, st, r1) && Extends(c, r1.state, r2)
    ensures Extends(c, st, Then(r1, r2))
  {
    var s := r1.charged + r2.charged;
    assert Elems(s) == Elems(r1.charged) + Elems(r2.charged) by {
      forall a ensures a in s <==> a in r1.charged || a in r2.charged {
        assert a in s <==> a in r1.charged || a in r2.charged;
      }
    }
    forall i, j | 0 <= i < j < |s| ensures s[i] != s[j] {
      if j < |r1.charged| {
      } else if i >= |r1.charged| {
        assert s[i] == r2.charged[i - |r1.charged|];
        assert s[j] == r2.charged[j - |r1.charged|];
      } else {
        assert s[i] in r1.charged;
        assert s[j] == r2.charged[j - |r1.charged|];
        assert s[j] in r2.charged;
      }
    }
    PointeeBytesAppend(c, r1.charged, r2.charged);
  }

  /** The buffer a contiguous container charges: nothing when data() is null or
      points into the container's own footprint, else element size times capacity. */
  function BufferCharge(v: Value): nat
    requires v.shape.Contiguous?
  {
    var s := v.shape;
    if s.data == NULL || InsideSelf(v, s.data) then 0 else s.elementSize * s.capacity
  }

  /** sizeof(x), unless x lies inside self's footprint: all of x's size or none of it. */
  function OutsideSize(self: Value, x: Value): nat
  {
    if InsideSelf(self, x.addr) then 0 else x.size
  }

  /** The element sizes a generic range charges: those of elements outside itself.
      Every element's own charge is part of the total. */
  function OutsideSizes(self: Value, es: seq<Value>): (r: nat)
    ensures es == [] ==> r == 0
    ensures forall i | 0 <= i < |es| :: OutsideSize(self, es[i]) <= r
  {
    if es == [] then 0
    else OutsideSizes(self, es[..|es| - 1]) + OutsideSize(self, es[|es| - 1])
  }

  /** The key and mapped sizes a map charges, each only when outside the map itself.
      Every entry's own charge is part of the total. */
  function EntrySizes(self: Value, es: seq<Entry>): (r: nat)
    ensures es == [] ==> r == 0
    ensures forall i | 0 <= i < |es| :: OutsideSize(self, es[i].key) + OutsideSize(self, es[i].mapped) <= r
  {
    if es == [] then 0
    else
      var e := es[|es| - 1];
      EntrySizes(self, es[..|es| - 1]) + OutsideSize(self, e.key) + OutsideSize(self, e.mapped)
  }

  /** get_heap_allocated_bytes: the bytes v owns on the heap, starting from state st. */
  function Weight(c: Config, v: Value, st: State): (r: Outcome)
    requires HeapClosed(c) && Closed(c, v)
    ensures Extends(c, st, r)
    decreases c.heap.Keys - st.handled, Size(v), 1
  {
    if v.shape.Scalar? || v.shape.View? then Nothing(st)
    else if v.shape.WeightHook? then Outcome(v.shape.weight, st, [])
    else if v.shape.AsTupleHook? then Weight(c, v.shape.result, st)
    else if IsSmall(c, v) then Nothing(st)
    else Dispatch(c, v, st)
  }

  /** The strategies tried after the small-object rule, in the source's order. */
  function Dispatch(c: Config, v: Value, st: State): (r: Outcome)
    requires HeapClosed(c) && Closed(c, v)
    requires !IsHookOrLeaf(v.shape) && v.size >= c.pointerSize
    ensures Extends(c, st, r)
    decreases c.heap.Keys - st.handled, Size(v), 0
  {
    match v.shape
    case Optional(o) => if o.None? then Nothing(st) else Weight(c, o.value, st)
    case SmartPtr(a) => PointerWeight(c, a, st)
    case RawPtr(a) => if c.followRawPointers then PointerWeight(c, a, st) else Nothing(st)
    case Variant(o) => if o.None? then Nothing(st) else Weight(c, o.value, st)
    case Pair(x, y) =>
      var r1 := Weight(c, x, st);
      var r2 := Weight(c, y, r1.state);
      ExtendsThen(c, st, r1, r2);
      Then(r1, r2)
    case Tuple(es) => WeighAll(c, es, st)
    case BoolVector(capacity) => Outcome(capacity / 8, st, [])
    case Contiguous(_, _, _, es) => Plus(BufferCharge(v), WeighAll(c, es, st))
    case Map(es) => Plus(EntrySizes(v, es), WeighEntries(c, es, st))
    case Iterable(es) => Plus(OutsideSizes(v, es), WeighAll(c, es, st))
    case Any(h) =>
      if h.None? then Nothing(st)
      else if TryVisitAny(c.allowlist, h.value.typeId, 0).Some? then
        Plus(OutsideSize(v, h.value.payload), Weight(c, h.value.payload, st))
      else Outcome(0, Record(st, h.value.typeId), [])
    case Members(es) => WeighAll(c, es, st)
    case Unknown(t) => Outcome(0, Record(st, t), [])
  }

  /** accumulate_pointer_f: a null or already handled address costs nothing; any
      other address is marked handled before its pointee is weighed, and costs the
      pointee's size plus the pointee's own weight. */
  function PointerWeight(c: Config, a: Address, st: State): (r: Outcome)
    requires HeapClosed(c) && (a == NULL || a in c.heap)
    ensures Extends(c, st, r)
    decreases c.heap.Keys - st.handled, 0, 0
  {
    if a == NULL || a in st.handled then Nothing(st)
    else
      var pointee := c.heap[a];
      var r := Weight(c, pointee, st.(handled := st.handled + {a}));
      assert Elems([a] + r.charged) == {a} + Elems(r.charged) by {
        forall x ensures x in [a] + r.charged <==> x == a || x in r.charged {
          assert x in [a] + r.charged <==> x == a || x in r.charged;
        }
      }
      assert ([a] + r.charged)[1..] == r.charged;
      Outcome(r.bytes + pointee.size, r.state, [a] + r.charged)
  }

  /** tuple_for_each and accumulate_range_f with the weighing visitor: the sum over
      the elements, weighed in index order, each starting from the previous state. */
  function WeighAll(c: Config, es: seq<Value>, st: State): (r: Outcome)
    requires HeapClosed(c) && ClosedAll(c, es)
    ensures Extends(c, st, r)
    decreases c.heap.Keys - st.handled, SizeAll(es), 0
  {
    if es == [] then Nothing(st)
    else
      var r1 := Weight(c, es[0], st);
      var r2 := WeighAll(c, es[1..], r1.state);
      ExtendsThen(c, st, r1, r2);
      Then(r1, r2)
  }

  /** accumulate_range_f over a map: every entry is a std::pair and is weighed as one. */
  function WeighEntries(c: Config, es: seq<Entry>, st: State): (r: Outcome)
    requires HeapClosed(c) && ClosedEntries(c, es)
    ensures Extends(c, st, r)
    decreases c.heap.Keys - st.handled, SizeEntries(es), 0
  {
    if es == [] then Nothing(st)
    else
      assert ClosedEntry(c, es[0]);
      SizeEntriesBound(es, 0);
      var r1 := Weight(c, EntryValue(es[0]), st);
      var r2 := WeighEntries(c, es[1..], r1.state);
      ExtendsThen(c, st, r1, r2);
      Then(r1, r2)
  }

  /** One step of the loop that weighs a range: the remaining suffix is its first
      element, then the rest. */
  lemma WeighAllStep(c: Config, es: seq<Value>, i: nat, st: State)
    requires HeapClosed(c) && i < |es| && ClosedAll(c, es[i..])
    ensures Closed(c, es[i]) && ClosedAll(c, es[i + 1..])
    ensures WeighAll(c, es[i..], st)
         == Then(Weight(c, es[i], st), WeighAll(c, es[i + 1..], Weight(c, es[i], st).state))
  {
    assert es[i..][0] == es[i] && es[i..][1..] == es[i + 1..];
  }

  /** The same step for the loop over a map's entries. */
  lemma WeighEntriesStep(c: Config, es: seq<Entry>, i: nat, st: State)
    requires HeapClosed(c) && i < |es| && ClosedEntries(c, es[i..])
    ensures ClosedEntry(c, es[i]) && ClosedEntries(c, es[i + 1..])
    ensures WeighEntries(c, es[i..], st)
         == Then(Weight(c, EntryValue(es[i]), st), WeighEntries(c, es[i + 1..], Weight(c, EntryValue(es[i]), st).state))
  {
    assert es[i..][0] == es[i] && es[i..][1..] == es[i + 1..];
    assert ClosedEntry(c, es[i..][0]);
  }
}
