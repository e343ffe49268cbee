# weight_in_bytes, modelled in Dafny

The weight_in_bytes library estimates how many bytes a C++ value owns on the
heap: memory reachable from the value but not part of its own `sizeof`. Its core is
one recursive function, `wib::detail::get_heap_allocated_bytes`. For each value it
picks one strategy in a fixed priority order and returns a byte count. While it
runs it updates a traversal context, `data_t`, which holds:

- the raw-pointer policy;
- the set of addresses already charged;
- an optional collector of type identities it could not decompose;
- a depth counter.

This project models that function, its helpers `tuple_for_each` and
`try_visit_any`, and the two public entry points `weight_in_bytes` and
`unknown_typeindexes`.

The C++ code picks the strategy at compile time by probing types. The model
replaces this with a closed datatype of value shapes (`Values.Shape`). Its
constructors come in the traversal's priority order:

- scalar and view;
- the two hooks;
- optional, smart pointer, raw pointer, variant, pair, tuple;
- `vector<bool>`, contiguous buffer, map, generic range;
- `std::any`, member-enumerable and unknown.

Every value has an abstract address range `[addr, addr + size)`, so "inside its own
footprint" can be stated. The small-object rule depends only on a value's size, so
it is not a shape. It is applied after the hooks and before everything else, as in
the source. Pointers lead into a heap `map<Address, Value>`. The list of known
types for `std::any` is a sequence of type identities.

The project has two layers. Each Dafny file is one module.

- `Weigh.Weight` is the specification. It is a function of the value, the fixed
  configuration (`Values.Config`: heap, allowlist, raw-pointer policy, pointer
  width) and the changing part of the context (`Weigh.State`). It also returns the
  addresses it charged, in order. It terminates on cyclic graphs under the measure
  (heap addresses not yet handled, structural size). This works because an address
  is marked handled before its pointee is weighed.
- `Traversal.Context` is the source's form of the traversal: a class holding
  `data_t`'s fields, whose methods update them in place and add up byte counts in
  loops. Each method is proved to compute what the specification computes. The
  module `Wib` holds the entry points, built on it.

The lemmas in the module `WeighFacts` state what the library promises.

## Model

| member | source | states |
|---|---|---|
| `Values.InsideSelf` | include/weight_in_bytes.h:324-331 | an address is inside a value exactly when it lies in the half-open range from the value's address to one past its end; a zero-size value contains nothing and the one-past-the-end address is outside |
| `WibUtil.TryVisitAny` | include/weight_in_bytes.h:220-235 | the position found is the first listed type equal to the held type; None exactly when no listed type from the start position on is the held type |
| `Weigh.Record` | include/weight_in_bytes.h:466-468 | recording leaves the handled set alone, keeps a null collector null, and adds exactly the given type identity to a present one |
| `Weigh.OutsideSizes` | include/weight_in_bytes.h:441-446 | the element-size charge of a generic range is 0 for an empty range and includes the charge of every element |
| `Weigh.EntrySizes` | include/weight_in_bytes.h:428-437 | the key and mapped charge of a map is 0 for an empty map and includes the key and mapped charge of every entry |
| `Weigh.Weight` | include/weight_in_bytes.h:288-523 | the handled set only grows; it grows by exactly the charged addresses; each charged address is a heap address not handled before and is charged once; the byte count includes every charged pointee's size; a null collector stays null and a present one only grows |
| `Weigh.Dispatch` | include/weight_in_bytes.h:352-522 | the same invariant for the strategies after the small-object rule |
| `Weigh.PointerWeight` | include/weight_in_bytes.h:308-322 | the same invariant for one pointer charge |
| `Weigh.WeighAll` | include/weight_in_bytes.h:206-216 | the same invariant for weighing a sequence of elements in index order |
| `Weigh.WeighEntries` | include/weight_in_bytes.h:401-407 | the same invariant for weighing each map entry as a `std::pair` |
| `Traversal.Context.constructor` | include/weight_in_bytes.h:280-285 | a fresh context: nothing handled, depth 0, and an empty collector exactly when one is asked for |
| `Traversal.Context.Visit` | include/weight_in_bytes.h:288-351 | returns the specified byte count; leaves the handled set and collector as specified; the depth is back to its entry value on every path |
| `Traversal.Context.VisitShape` | include/weight_in_bytes.h:352-522 | the same, for every strategy after the small-object rule |
| `Traversal.Context.AccumulatePointer` | include/weight_in_bytes.h:308-322 | the same, for the pointer rule; the address is inserted before the pointee is visited |
| `Traversal.Context.AccumulateRange` | include/weight_in_bytes.h:401-407 | the loop adds the elements' weights in order and ends with the specified total and state |
| `Traversal.Context.AccumulateEntries` | include/weight_in_bytes.h:438 | the same loop over a map's entries |
| `Traversal.EntryBytesOutside` | include/weight_in_bytes.h:428-437 | the loop over a map's entries returns exactly the key and mapped charge `Weigh.EntrySizes` specifies |
| `Traversal.ElementBytesOutside` | include/weight_in_bytes.h:441-446 | the loop over a range's elements returns exactly the element charge `Weigh.OutsideSizes` specifies |
| `Traversal.Context.VisitMap` | include/weight_in_bytes.h:427-439 | the loop's key and mapped charge equals the specified charge, and the total and state are as specified |
| `Traversal.Context.VisitIterable` | include/weight_in_bytes.h:440-448 | the loop's element charge equals the specified charge, and the total and state are as specified |
| `Traversal.Context.VisitAny` | include/weight_in_bytes.h:451-470 | the `std::any` branch computes the specified bytes and records the held type as specified |
| `Wib.WeightInBytes` | include/weight_in_bytes.h:568-583 | returns the traversal's byte count from a fresh handled set, with no collector |
| `Wib.UnknownTypeIndexes` | include/weight_in_bytes.h:585-605 | returns the collector's contents after the traversal from a fresh handled set and an empty collector; every type returned belongs to an unknown value or an unlisted `std::any` box inside the value or some heap value |
| `WeighFacts.ZeroWeightShapes` | include/weight_in_bytes.h:294-351 | arithmetic and enum values, string views, weak pointers, and values smaller than a pointer without a hook weigh 0 and change nothing |
| `WeighFacts.HookIsVerbatim` | include/weight_in_bytes.h:341-343 | a weight hook's answer is returned exactly, whatever the value's size; nothing is traversed or recorded |
| `WeighFacts.AsTupleWeighsItsTuple` | include/weight_in_bytes.h:345-347 | a value with `as_tuple()` weighs exactly what its returned tuple weighs, with the same effect on the context |
| `WeighFacts.PointerChargedOnce` | include/weight_in_bytes.h:308-322 | a null or already handled pointer costs 0 and changes nothing; otherwise it is charged first and once, and costs the pointee's size plus the pointee's weight, weighed with the address already handled |
| `WeighFacts.RawPointerPolicy` | include/weight_in_bytes.h:363-367 | a raw pointer costs 0 when raw pointers are not followed, and is charged like a smart pointer when they are |
| `WeighFacts.HandledPointersAreFree` | include/weight_in_bytes.h:313-318 | any number of pointers to an already handled address cost 0 and change nothing |
| `WeighFacts.SharedPointersChargedOnce` | include/weight_in_bytes.h:308-322 | a non-empty range of smart pointers to one address charges that address exactly once, whatever the number of pointers |
| `WeighFacts.NodeOverHandledTarget` | include/weight_in_bytes.h:308-322 | a node whose one member points to an address already handled when the node is weighed costs its own size and charges only itself |
| `WeighFacts.SelfCycleChargedOnce` | include/weight_in_bytes.h:308-322 | a node holding a smart pointer to itself is charged exactly once: the pointer costs its size, and the pointer inside it costs nothing |
| `WeighFacts.TwoNodeCycleChargedOnce` | include/weight_in_bytes.h:308-322 | two nodes pointing at each other are each charged once, in the order reached, and the pointer back costs nothing |
| `WeighFacts.NoAddressChargedTwice` | include/weight_in_bytes.h:313-321 | weighing again from the context the first run left behind charges none of the addresses the first run charged |
| `WeighFacts.WeighAllAppend` | include/weight_in_bytes.h:206-216 | elements are weighed in index order: weighing a concatenation means weighing the first part, then the second from the state the first left |
| `WeighFacts.TupleEdgeCases` | include/weight_in_bytes.h:389-395 | the empty tuple costs 0; a one-element tuple costs exactly its element |
| `WeighFacts.WrappersWeighTheirContents` | include/weight_in_bytes.h:353-380 | an empty optional or a valueless variant costs 0; otherwise it costs exactly the contained or active value |
| `WeighFacts.PairIsTwoElementTuple` | include/weight_in_bytes.h:382-387 | a pair costs what the two-element sequence of its first and second element costs |
| `WeighFacts.ScalarsWeighNothing` | include/weight_in_bytes.h:294-299 | any number of scalar elements together weigh 0 and change nothing |
| `WeighFacts.ScalarBufferWeighsItsCapacity` | include/weight_in_bytes.h:418-426 | a contiguous buffer of scalars weighs element size times capacity, whatever its length, and 0 when `data()` is null or inside its own footprint |
| `WeighFacts.BoolVectorWeighsCapacityEighth` | include/weight_in_bytes.h:415-417 | `vector<bool>` weighs capacity / 8 and nothing is traversed |
| `WeighFacts.OutsideSizesBounds` | include/weight_in_bytes.h:440-447 | a range's element charge is at most the sum of the element sizes; it is 0 when every element is in place and the full sum when none is |
| `WeighFacts.EntrySizesBounds` | include/weight_in_bytes.h:427-437 | a map's key and mapped charge is at most the sum of those sizes; it is 0 when every entry is in place and the full sum when none is |
| `WeighFacts.EmptyAnyIsFree` | include/weight_in_bytes.h:452-454 | an empty `std::any` costs 0, charges nothing and records nothing |
| `WeighFacts.UnlistedAnyIsUnknown` | include/weight_in_bytes.h:463-469 | a non-empty `std::any` whose type is not listed costs 0, charges nothing, and adds its held type to the collector exactly when there is one |
| `WeighFacts.ListedAnyWeighsPayload` | include/weight_in_bytes.h:455-465 | a non-empty `std::any` whose type is listed costs its payload's weight, plus the payload's size unless the payload is inside the box |
| `WeighFacts.UnknownIsRecorded` | include/weight_in_bytes.h:515-522 | a value no strategy applies to costs 0, charges nothing, and records its type identity exactly when there is a collector |
| `WeighFacts.UnknownsBounded` | include/weight_in_bytes.h:463-468 | with a collector, the collector afterwards holds only what it held before plus type identities of unknown values and unlisted `std::any` boxes inside the value or inside some heap value |
| `WeighFacts.UnknownRangeRecordsAll` | include/weight_in_bytes.h:515-519 | a range of values no strategy applies to costs 0, charges nothing, and records exactly the type identities of the range's own values (the local part of the bound) |
| `WeighFacts.CollectorIndependent` | include/weight_in_bytes.h:306 | whether unknown types are collected never changes the byte count, the handled set or the charged addresses |
| `WeighFacts.EntryPointsAgree` | include/weight_in_bytes.h:568-605 | `weight_in_bytes` returns exactly the byte count that `unknown_typeindexes` computes and discards; only the second has a collector afterwards |

## Left out

- Compile-time detection of a type's capabilities (the trait machinery at include/weight_in_bytes.h:74-165) is replaced by the shape tag. Only the priority order is modelled.
- `sizeof` values, the pointer width and standard-library layouts (string small-buffer thresholds, vector growth) are inputs: `Value.size`, `Config.pointerSize`, and the capacities and element sizes in shapes.
- The reflection back-ends (cereal `serialize`/`save`, boost::pfr, cista) appear only as the `Members` shape: an abstract sequence of members, weighed in order. The `const_cast` needed for cereal `serialize` has no counterpart here.
- Without a reflection back-end, the source's aggregate branch is empty and falls through to the unknown-type recording. Such an aggregate is represented as `Unknown(typeId)`.
- `std::type_index`, `std::unordered_set` and byte-pointer arithmetic become natural numbers and Dafny sets.
- The `scope_exit_t` guard is modelled only by its effect: every path through `Visit` after the scalar early return decrements the depth it incremented.
- Weigh.Weight: its own contract says only that a present collector grows. What the collector may gain is stated separately, by `WeighFacts.UnknownsBounded` (an upper bound) and `WeighFacts.UnknownIsRecorded` (the fallback branch). No single lemma states that the collector gains exactly the types of the values actually reached.
- Weigh.Weight: byte counts are unbounded naturals. Wrap-around of `size_t` sums modulo 2^64 is not modelled, because no real heap gets near it.
- Weigh.Dispatch: C++ leaves the evaluation order of the two operands of `+` in the pair branch unspecified. The model weighs `first` before `second`.
- Pointers of different types to one address (an object and its first member, a base and a derived object) are not modelled. The source keys its handled set by the byte address alone, so the first such pointer reached is charged and weighed as its own type, and the others cost 0. The model's heap holds one value per address, so this conflation cannot arise.
- Values.HeapClosed: every heap value lives at the address it is stored under. Besides that, the traversal requires every pointer it dereferences to be null or to lead into the heap, as the source does, where a dangling pointer is undefined behaviour. Closedness is demanded of every heap entry, including entries the root cannot reach. The payload of a `std::any` must be closed only when its held type is listed, since only then is it traversed.
- `std::any_cast` matches only the exact held type. It is modelled as equality of type identities.
- Concurrency, I/O and allocator metadata play no part in the core and are not modelled.
