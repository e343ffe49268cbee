/** The values the traversal inspects.

    The C++ library decides at compile time, by probing the type of each value,
    which handling strategy applies.  Here that probing is replaced by a closed
    datatype: every value carries its own address range and one shape tag, and
    the tags are listed in the order in which the traversal tries them.  The one
    strategy that is not a shape is the small-object rule, which depends only on
    the value's size; it is applied by the traversal between the hooks and the
    remaining shapes, exactly where the source checks it. */
module Values {

  datatype Option<T> = None | Some(value: T)

  /** Byte addresses and type identities are abstract numbers. */
  type Address = nat
  type TypeId = nat

  /** The null pointer. */
  const NULL: Address := 0

  /** A value under inspection: it occupies [addr, addr + size), where size is its sizeof. */
  datatype Value = Value(addr: Address, size: nat, shape: Shape)

  /** One constructor per handling strategy, in the traversal's priority order. */
  datatype Shape =
    | Scalar                                  // arithmetic or enumeration type
    | View                                    // std::string_view or std::weak_ptr: never owns its referent
    | WeightHook(weight: nat)                 // the value answers weight_in_bytes() itself
    | AsTupleHook(result: Value)              // the value answers as_tuple(); result is the returned tuple
    | Optional(contained: Option<Value>)      // std::optional
    | SmartPtr(target: Address)               // std::unique_ptr or std::shared_ptr: the address get() returns
    | RawPtr(pointee: Address)                // a raw pointer
    | Variant(active: Option<Value>)          // std::variant; None when valueless by exception
    | Pair(first: Value, second: Value)       // std::pair
    | Tuple(elements: seq<Value>)             // std::tuple, of any arity
    | BoolVector(capacity: nat)               // std::vector<bool>
    | Contiguous(data: Address, elementSize: nat, capacity: nat, live: seq<Value>)
                                              // a range with data() and capacity(): data() may be NULL
    | Map(entries: seq<Entry>)                // a range with key_type and mapped_type
    | Iterable(items: seq<Value>)             // any other range with begin() and end()
    | Any(held: Option<Held>)                 // std::any; None when it holds nothing
    | Members(members: seq<Value>)            // a value whose members can be enumerated
    | Unknown(typeId: TypeId)                 // nothing above applies

  /** A map entry: the key/mapped pair object, living at [addr, addr + size). */
  datatype Entry = Entry(addr: Address, size: nat, key: Value, mapped: Value)

  /** What a non-empty std::any holds: the held type and the payload object. */
  datatype Held = Held(typeId: TypeId, payload: Value)

  /** The fixed parameters of one traversal: the memory the pointers lead into, the
      caller's ordered list of known types for std::any, the raw-pointer policy and
      the platform's pointer width. */
  datatype Config = Config(
    heap: map<Address, Value>,
    allowlist: seq<TypeId>,
    followRawPointers: bool,
    pointerSize: nat)

  /** The std::pair object a map entry is, as a value in its own right. */
  function EntryValue(e: Entry): Value
  {
    Value(e.addr, e.size, Pair(e.key, e.mapped))
  }

  /** is_inside_self_f: whether an address lies in the half-open footprint
      [self.addr, self.addr + self.size).  A zero-size value contains no address,
      and the one-past-the-end address is outside. */
  function InsideSelf(self: Value, address: Address): (r: bool)
    ensures r ==> self.size > 0
    ensures r <==> self.addr <= address && address - self.addr < self.size
    ensures address == self.addr + self.size ==> !r
  {
    self.addr <= address < self.addr + self.size
  }

  /** The shapes that are tried before the small-object rule. */
  predicate IsHookOrLeaf(s: Shape)
  {
    s.Scalar? || s.View? || s.WeightHook? || s.AsTupleHook?
  }

  /** Whether the small-object rule makes v weigh nothing: v is narrower than a
      pointer and is not one of the shapes decided before the rule, so the rule
      never overrides a hook. */
  predicate IsSmall(c: Config, v: Value)
  {
    !IsHookOrLeaf(v.shape) && v.size < c.pointerSize
  }

  /** A structural measure: every value is larger than all of its parts. */
  function Size(v: Value): nat
  {
    match v.shape
    case AsTupleHook(t) => 1 + Size(t)
    case Optional(o) => if o.Some? then 1 + Size(o.value) else 1
    case Variant(o) => if o.Some? then 1 + Size(o.value) else 1
    case Pair(x, y) => 1 + Size(x) + Size(y)
    case Tuple(es) => 1 + SizeAll(es)
    case Contiguous(_, _, _, es) => 1 + SizeAll(es)
    case Map(es) => 1 + SizeEntries(es)
    case Iterable(es) => 1 + SizeAll(es)
    case Any(h) => if h.Some? then 1 + Size(h.value.payload) else 1
    case Members(es) => 1 + SizeAll(es)
    case _ => 1
  }

  function SizeAll(es: seq<Value>): nat
  {
    if es == [] then 0 else Size(es[0]) + 1 + SizeAll(es[1..])
  }

  function SizeEntries(es: seq<Entry>): nat
  {
    if es == [] then 0 else SizeEntry(es[0]) + 1 + SizeEntries(es[1..])
  }

  function SizeEntry(e: Entry): nat
  {
    Size(e.key) + Size(e.mapped) + 1
  }

  lemma {:induction false} SizeAllBound(es: seq<Value>, i: nat)
    requires i < |es|
    ensures Size(es[i]) < SizeAll(es)
  {
    if i > 0 {
      SizeAllBound(es[1..], i - 1);
    }
  }

  lemma {:induction false} SizeEntriesBound(es: seq<Entry>, i: nat)
    requires i < |es|
    ensures Size(EntryValue(es[i])) < SizeEntries(es)
  {
    if i > 0 {
      SizeEntriesBound(es[1..], i - 1);
    }
  }

  /** Every pointer the traversal of v would dereference is NULL or leads into the
      heap.  The source dereferences such pointers; a dangling one is undefined
      behaviour there, so this is what callers must guarantee.  Raw pointers only
      matter when they are followed, and the payload of a std::any only when its
      held type is listed. */
  ghost predicate Closed(c: Config, v: Value)
  {
    if v.shape.Scalar? || v.shape.View? || v.shape.WeightHook? then true
    else if v.shape.AsTupleHook? then Closed(c, v.shape.result)
    else if IsSmall(c, v) then true
    else match v.shape
      case Optional(o) => o.Some? ==> Closed(c, o.value)
      case SmartPtr(a) => a == NULL || a in c.heap
      case RawPtr(a) => c.followRawPointers ==> a == NULL || a in c.heap
      case Variant(o) => o.Some? ==> Closed(c, o.value)
      case Pair(x, y) => Closed(c, x) && Closed(c, y)
      case Tuple(es) => ClosedAll(c, es)
      case Contiguous(_, _, _, es) => ClosedAll(c, es)
      case Map(es) => ClosedEntries(c, es)
      case Iterable(es) => ClosedAll(c, es)
      case Any(h) => h.Some? && h.value.typeId in c.allowlist ==> Closed(c, h.value.payload)
      case Members(es) => ClosedAll(c, es)
      case _ => true
  }

  ghost predicate ClosedEntry(c: Config, e: Entry)
  {
    Closed(c, e.key) && Closed(c, e.mapped)
  }

  ghost predicate ClosedEntries(c: Config, es: seq<Entry>)
  {
    forall i | 0 <= i < |es| :: ClosedEntry(c, es[i])
  }

  ghost predicate ClosedAll(c: Config, es: seq<Value>)
  {
    forall i | 0 <= i < |es| :: Closed(c, es[i])
  }

  /** Every value stored in the heap lives at the address it is stored under (the
      address a pointer holds is the address of its pointee), and is itself closed. */
  ghost predicate HeapClosed(c: Config)
  {
    forall a | a in c.heap :: c.heap[a].addr == a && Closed(c, c.heap[a])
  }
}
