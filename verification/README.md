# Pipit, modelled and proved in Dafny

Pipit compiles Go to register bytecode and runs it. This project models five of its parts and proves what
they promise, for every input and, where state is involved, for every run.

1. **Type descriptors on disk** (`Descriptors`, `StructuralKey`, `TableGraph`, `DescriptorPacker`,
   `DescriptorDecoder`, `DescriptorPipeline`, `DescriptorCodec`, `DescriptorMemo`, `FirstPaths`). The packer writes each distinct subtree once,
   found again through a text key. The loader decodes an arbitrary, possibly cyclic table graph through a cache
   keyed by offset, and the codec converts the result through a second memo. The key is shown to be injective, each
   memo to agree with the plain recursion it replaces within its depth bound, the table count to equal the number of distinct subtrees,
   and the whole chain export, pack, decode, import, with every memo on, to return what went in.
2. **Preflight** (`TypePreflight`, `FunctionTables`, `FunctionPreflight`). The budgeted walks that run before anything is rebuilt:
   what acceptance guarantees, that reconstruction afterwards cannot hit its own function-level checks, and
   conversely which payloads are never refused.
3. **The restricted session** (`RestrictedSession`, `RestrictedRuns`). A mutex-guarded object with admission, lock-free evaluation,
   generation-stamped idle timers, cancellation and deferred release, as a transition system; the invariant is
   proved for every interleaving of every run.
4. **Assignments** (`GoAssign`, `AssignLowering`, `ShortVarLowering`, `ShortVarSequential`, `AssignTrace`,
   `AssignHistory`, `ShortVarHarmless`, `ShortVarLate`, `FreeWorld`, `ShortVarNecessary`, `ShortVarStores`,
   `ShortVarAliased`, `ShortVarExact`, `ShortVarExamples`, `TupleHeld`, `TupleLowering`, `TupleSettled`,
   `TupleUnsettled`, `TupleExact`, `TupleExamples`, `AssignCompiler`). The meaning
   of `:=` and of tuple assignment as the Go language specification gives it in "Assignment statements", "Short variable
   declarations", "Selectors" and "Order of evaluation", the register code the compiler emits, and when running that
   code has that meaning. Calls, dereferences, indexing and partial operators may panic; a variable lives in a register
   or, once its address was taken, in a box that pointers may point to; a named result outlives a panic, since a
   function that recovers returns it; and a selector through a pointer reads a part of what it points to. Right sides are described
   by their traces: the term each stands for, its checks and its calls. The condition on traces is proved sufficient
   by following evaluation through a history of memories, and necessary by worlds in which every value spells out
   the term it stands for.
5. **The interactive session and its helpers** (`ReplModel`, `ReplLinking`, `ReplHistory`, `ReplInvariant`,
   `ReplFile`, `ReplCode`, `ReplBuild`, `ReplReplay`, `ReplLeftovers`, `ReplExamples`, `ReplSession`, `SessionExecution`, `ReplExecution`,
   `TopoSort`, `ImportOrder`, `ProcessEnvironment`, `StringOrder`; `Wrappers` is shared).
   Transactional submissions, compared after any history with a replay of the successes alone; one cost budget over
   several machine runs, import ordering, and the environment overlay. Compiling a body appends the functions nested in
   it and, on demand, instances of generic functions, which an index recorded on the generic function finds again.

Objects whose methods update fields are classes; their methods are proved equal to step functions, and the laws
are lemmas about those functions. Recursive and loop-driven algorithms that write to a builder, a cache, a budget
or a compiler are methods with loops. Pure conversions are functions.

What the parser, the type checker, the machine, calls and operators do is a parameter everywhere: a theorem
quantifies over it. `dafny verify dfyconfig.toml` checks the project.

## Where the code and its promises part

- **A blank name loses its right side.** The sequential form of `:=` skips a blank target without compiling its
  right side (internal/compile/compiler_assign_decl.go:386), so `_, y := f(), 2` never calls `f`, and `_, y := *p, 2`
  does not panic for a nil `p`, although the two-phase form evaluates both. `ShortVarExamples.SkipsCheck` is the
  second input.
- **A variable whose address was taken is written too early.** `&x` moves `x` to a heap cell
  (internal/compile/compiler_unary.go:249-266). The sequential form writes that cell as soon as `x` is redeclared
  (internal/compile/compiler_assign_decl.go:815-831, internal/compile/compiler_statements_helpers.go:681-685), and the
  test for the two-phase form looks only at names. So after `x := 1; p := &x` the statement `x, y := 2, *p` gives `y`
  the value 2 where Go gives it 1: `ShortVarExamples.ReadsTooLate` and `ShortVarExamples.CodeReadsTooLate`.
  A selector through a pointer reads that cell too: after `x := T{1, 2}; p := &x; q := &T{5, 6}` the statement
  `z, x, y := p.g, *q, p.f` gives `y` the value 5 where Go gives it 1: `ShortVarExamples.FieldReadTooLate`.
- **A named result is written too early.** It is in a register (internal/compile/compiler_statements.go:529-551) that a
  recovered panic returns (internal/engine/defer.go:130-149). In
  `func f(p *int) (x int) { defer func() { recover() }(); x, y := 2, *p; ... }` with `p` nil the sequential form has
  written `x` when `*p` panics, so `f` returns 2 where Go returns 0: `ShortVarExamples.RecoveredTooLate` and
  `ShortVarExamples.CodeRecoversTooLate`.
- All are covered by one exact condition. `ShortVarExact.LowerExact`: the emitted code has Go's meaning, in every
  world and state, if and only if the two-phase form was chosen or the statement is `Harmless`. That is a property of
  its text and of which variables are boxed or named results: the right side of a blank name calls nothing and makes no
  check that another right side does not make in time; after a boxed name or a named result no right side calls or makes
  a check not yet made; and after a boxed name none follows a pointer to that variable's type, unless what it reads
  there is what was just bound. `ShortVarExamples.CalmIsHarmless` gives a simpler sufficient test, and
  `ShortVarExamples.SameReadHarmless` shows why it is not necessary.
- **A tuple assignment does not copy all it evaluates first.** `pinOperand`
  (internal/compile/compiler_assign_prepared.go:162-180) leaves a key of struct or array type where it is, and copies a
  slice, map or pointer by a move that keeps an addressable value addressable
  (internal/engine/vm_handler_ops.go:355-376, internal/engine/vm_handler_data_dispatch_arena.go:453-463). A key that is
  a variable in a register stays in that register. What is read through a box, a pointer or from an element of a slice
  is a view of that place (internal/compile/compiler_statements_helpers.go:133-143,
  internal/engine/vm_handler_data_dispatch.go:367-396), and a store changes the place under it
  (internal/engine/vm_handler_data_elements.go:681-682). So `k, m[k] = k2, v` stores under `k2` where Go stores under the
  old `k`, whether `k` is in a register or, after `p := &k`, in a box: `TupleExamples.StoredUnderNewKey` and
  `TupleExamples.StoredUnderNewBoxedKey`; so does `*p, m[*p] = k2, v`: `TupleExamples.StoredUnderNewPointee`. After `&xs`
  the statement `xs, xs[0] = ys, 1` stores into `ys`: `TupleExamples.StoredIntoNewSlice`.
- **Nor does it copy references among the values.** Only a bare boxed variable is copied
  (internal/compile/compiler_assign_decl.go:228-242, 795-804); a slice, map, pointer, channel or function read through a
  pointer or from an element is a view like that. So `*p, *q = *q, *p` with references at `p` and `q` does not swap them:
  `TupleExamples.ReferencesNotSwapped`.
- Both are covered by one exact condition. `TupleLowering.LowerMeans` says what the code does for every statement: each
  store uses what is held as it is by then. `TupleExact.LowerExact`: where no value is such a reference, that has Go's meaning, for every
  right side, world and state, if and only if no target may store where an operand of a later one is kept or viewed.
  `TupleExact.BeginningsExact` adds the references: a statement and each of its beginnings have Go's meaning, for all
  values that come about in the given manner, if and only if besides no target may store where a later value is viewed.
  The condition is a property of the text, of which variables are boxed and of types: two pointees or elements of one type
  may be the same unless pointer or index are different numbers. Go leaves open whether such reads come before or after calls; its
  meaning here reads them last (`TupleHeld.ReadLast`), and `TupleHeld.ReadLastIsGo` and `TupleHeld.UnviewedIsGo` say that
  without calls, or without views, this is evaluation from left to right.
- **Rollback is not complete.** `restore` (internal/app/session_submit.go:68-75) puts back neither the slot counters of
  the service's store, nor the method table of the root function, nor the instances recorded on generic functions that
  stay (internal/engine/program/bytecode_builder.go:118-152). An instance that a failed submission was the first to make
  keeps an index that was truncated away and is given out again. `ReplReplay.FailuresLeaveNoTrace`: after any history
  the session is, up to slots, methods, instances and code, that of replaying only the successes, if and only if no
  success needed such a stale instance. `ReplExamples.StaleInstance` is a history, `func Max[T ...]`, a failing
  `Max[int](1, 2)`, then `func g() int { return Max[int](3, 4) }`, after which `g` calls itself; and
  `ReplExamples.StaleCrash` and `ReplExamples.StaleCrashInFunction` are histories in which the compiler then indexes past
  its function list (internal/compile/compiler_calls.go:197). `ReplReplay.CrashNeedsStale` says only such a submission can.
- For the other two: `ReplLeftovers.SlotsExact` says, bank by bank, exactly when slot numbers differ from the replay's,
  and `ReplLeftovers.MethodsExact` exactly which method entries stay behind. Compiled code holds slot numbers
  (internal/compile/compiler_globals.go:331-338) and function indices; `ReplLeftovers.CodeExact` says when code, table
  and counts are the replay's. `ReplExamples.SlotsCanDiffer`, `ReplExamples.CodeCanDiffer` and
  `ReplExamples.MethodsCanDiffer` are concrete histories.
- **The import memo outlasts the depth bound.** A pointer already imported is answered from the memo before the
  depth is checked (internal/codec/bytecode_export.go:961-971). `DescriptorCodec.ImportTypeDescriptor` equals plain
  import on every tree below the bound, and `DescriptorCodec.MemoOutlastsPlain` gives a shared graph beyond it that
  the memoised import accepts and the plain one refuses. `DescriptorMemo.MemoAccepts` says which graphs it accepts: those
  in which every table is within the bound on the first path that leads to it, children taken in order.
- **Environment names are not checked.** `setenv` accepts a name holding `=`, which `environ` then lists
  ambiguously; `ProcessEnvironment.ListingReadsBack` shows a listing reads back as the bindings if and only if no
  name holds one.
- `FreeTemp` is documented as last-in first-out (internal/compile/scope/scope.go:131-137) and a tuple assignment
  frees in the order of allocation; the register argument is ignored, so the mark ends in the same place.

## Model

| member | source | states |
|---|---|---|
| StructuralKey.DecimalInjective | internal/adapters/bytecode_descriptor_sharing.go:148-161 | the decimal text of a length or number determines it |
| StructuralKey.KeyPartSplits | internal/adapters/bytecode_descriptor_sharing.go:148-152 | a length-prefixed part can be read off any text that begins with it: equal texts have equal parts and equal rests |
| StructuralKey.KeyIntSplits | internal/adapters/bytecode_descriptor_sharing.go:158-161 | the same for a number part, negative numbers included |
| StructuralKey.PartsInjective | internal/adapters/driven_bytecode_store.go:830-851 | a run of length-prefixed child keys spells exactly one sequence of keys |
| StructuralKey.NodeKeyInjective | internal/adapters/driven_bytecode_store.go:785-805 | equal node keys have equal scalar attributes and equal child keys, part by part |
| StructuralKey.DescKeyInjective | internal/adapters/driven_bytecode_store.go:714-805 | two descriptors with one key are the same descriptor |
| StructuralKey.ListKeyInjective | internal/adapters/driven_bytecode_store.go:830-842 | two descriptor lists with one key are the same list |
| StructuralKey.FieldsKeyInjective | internal/adapters/driven_bytecode_store.go:863-881 | two field lists with one key are the same list, names, tags and package paths included |
| StructuralKey.KeyOfInjective | internal/adapters/bytecode_descriptor_sharing.go:50-67 | in the one memo map, keys of descriptors, fields, vectors and field vectors are equal exactly when the things keyed are: no collision within or across kinds |
| TableGraph.UnfoldsUnique | internal/adapters/driven_bytecode_store_unpack.go:1295-1335 | a table of any graph unfolds to at most one tree |
| TableGraph.UnfoldingIsAcyclic | internal/adapters/driven_bytecode_store_unpack.go:1295-1335 | if a table unfolds at all, no walk from it repeats a table, and walks are no longer than the tree is high |
| DescriptorPacker.Builder.constructor | internal/adapters/bytecode_descriptor_sharing.go:120-141 | an empty payload, with a memo exactly when a sharing scope is open |
| DescriptorPacker.Builder.Lookup | internal/adapters/bytecode_descriptor_sharing.go:50-56 | a hit is an offset already standing for exactly the thing asked for; a miss means its key is not in the memo |
| DescriptorPacker.Builder.Write | internal/adapters/bytecode_descriptor_sharing.go:62-67 | a new node is appended and remembered, older nodes keep their meaning, and the set of things written grows by this one |
| DescriptorPacker.Builder.PackDesc | internal/adapters/driven_bytecode_store.go:714-770 | packs if and only if every kind in the tree fits a signed byte; the offset stands for the descriptor, the key is its key, and the things written grow by exactly its subtrees |
| DescriptorPacker.Builder.PackPointers | internal/adapters/driven_bytecode_store.go:715-725 | the same for the element, key and value children |
| DescriptorPacker.Builder.Place | internal/adapters/driven_bytecode_store.go:731-770 | with the children packed, one table stands for the descriptor, found or written |
| DescriptorPacker.Builder.PackOpt | internal/adapters/driven_bytecode_store.go:715-725 | a nil child is the zero offset, any other is packed |
| DescriptorPacker.Builder.PackList | internal/adapters/driven_bytecode_store.go:830-851 | an empty list is the zero offset, any other one vector of the packed items in order |
| DescriptorPacker.Builder.PlaceVector | internal/adapters/driven_bytecode_store.go:836-851 | a vector of packed items is found or written, and stands for the list |
| DescriptorPacker.Builder.PackField | internal/adapters/driven_bytecode_store.go:863-906 | a field record stands for its name, tag, package path and packed type |
| DescriptorPacker.Builder.PackFields | internal/adapters/driven_bytecode_store.go:863-906 | a field vector stands for the fields in order |
| DescriptorPipeline.MeaningUnfolds | internal/adapters/driven_bytecode_store.go:714-770 | a written table unfolds to exactly the descriptor it stands for, with the memo on or off |
| DescriptorPipeline.SharesMaximally | internal/adapters/bytecode_descriptor_sharing.go:50-67 | with the memo on, nodes and things written correspond one to one, and descriptor tables number the distinct descriptor subtrees |
| DescriptorPipeline.PackedDecodes | internal/adapters/driven_bytecode_store_unpack.go:1295-1335 | a packed descriptor decodes to itself if and only if its height is at most 256 and its lists fit the payload |
| DescriptorPipeline.DecodeOfTree | internal/adapters/driven_bytecode_store_unpack.go:1295-1460 | on any graph without nil slots, plain decoding at a depth returns the tree if and only if the tree is low enough and its lists fit |
| DescriptorPipeline.PackAll | internal/adapters/driven_bytecode_store.go:695-851 | any sequence of descriptors goes into one scope, each offset stands for its descriptor, exactly the subtrees of the sequence were written, and with the memo on there are as many tables as distinct descriptor subtrees |
| DescriptorPipeline.DecodeAll | internal/adapters/driven_bytecode_store_unpack.go:1271-1335 | with one cache for all offsets, each result agrees with plain decoding wherever that succeeds, every success is a full unfolding, every error has a walk that explains it, and as long as all before it decoded, an offset is accepted exactly as the rule for a cache that holds everything below them says |
| DescriptorPipeline.WriteAndRead | internal/adapters/driven_bytecode_store.go:714-906 | packing and decoding through one payload, as long as what was written or longer: the offsets stand for the descriptors, and each of height at most 256 is read back |
| DescriptorPipeline.RoundTrip | internal/adapters/driven_bytecode_store.go:714-906 | packing a sequence and decoding every offset with one shared cache returns each descriptor of height at most 256, and never returns a different one; packing is refused exactly for a kind beyond a signed byte |
| DescriptorPipeline.PayloadHolds | internal/adapters/driven_bytecode_store_unpack.go:1295-1335 | the tables of a payload hold the descriptors packed, as one way for data in memory to be shared |
| DescriptorPipeline.PlaceOne | internal/adapters/driven_bytecode_store_unpack.go:1295-1335 | for everything that can be packed there is data in memory that holds it |
| DescriptorPipeline.ImportData | internal/codec/bytecode_export.go:932-971 | importing an exported descriptor with a memo returns it with Length and Dir clamped, however decoding shared its data |
| DescriptorPipeline.StorableExactly | internal/codec/bytecode_export.go:1029-1052 | a descriptor can be stored if and only if the data that holds it is lower than 1024 and its kinds fit a signed byte |
| DescriptorPipeline.ImportAll | internal/codec/bytecode_export.go:981-990 | the same for everything that decoded: what is imported is the decoded value, put in memory |
| DescriptorPipeline.StoreAndLoad | internal/codec/bytecode_export.go:862-1099 | export, pack, decode and import through one payload, each step fed with what the one before returned, memos on throughout and however decoding shares data in memory: refused exactly for a descriptor that cannot be stored; whatever comes back holds, field by field and child by child, what went in, with Length and Dir clamped to 32 bits, and up to height 256 it does come back, unchanged when those fit |
| DescriptorDecoder.DecodeExact | internal/adapters/driven_bytecode_store_unpack.go:1295-1460 | on any closed graph, plain decoding succeeds if and only if every walk from the table is short enough and ends in a table with a legal kind and lists that fit, and then returns the unfolding |
| DescriptorDecoder.DecodeSound | internal/adapters/driven_bytecode_store_unpack.go:1295-1335 | a decoded value is the table's unfolding, whatever the graph |
| DescriptorDecoder.DecodeCache.DecodeShared | internal/adapters/driven_bytecode_store_unpack.go:1295-1335 | on arbitrary graphs: whatever plain decoding accepts at this depth is returned unchanged; a success is the table's full unfolding and is remembered; the cache only grows and holds only full unfoldings; a table is accepted if and only if it is not too deep and, on the first path to each table not cached, that table is not too deep and passes its checks, and what it refers to is not too deep, cached or not; an error has a walk that explains it |
| DescriptorDecoder.VisitAccepts | internal/adapters/driven_bytecode_store_unpack.go:1295-1303 | the depth-first visit that decoding makes goes through exactly under that rule, and then has met everything below the table |
| DescriptorDecoder.DecodeCache.DecodeTable | internal/adapters/driven_bytecode_store_unpack.go:1304-1335 | the same for a table that is not cached, which is remembered once its children decoded |
| DescriptorDecoder.DecodeCache.DecodeSharedPointers | internal/adapters/driven_bytecode_store_unpack.go:1295-1355 | the same for the three pointer children |
| DescriptorDecoder.DecodeCache.DecodeSharedOpt | internal/adapters/driven_bytecode_store_unpack.go:1350-1355 | the same for one optional child |
| DescriptorDecoder.DecodeCache.DecodeSharedLists | internal/adapters/driven_bytecode_store_unpack.go:1323-1333 | the same for fields, params and results in order |
| DescriptorDecoder.DecodeCache.DecodeSharedSlot | internal/adapters/driven_bytecode_store_unpack.go:1418-1426 | the same for one list slot |
| DescriptorDecoder.DecodeCache.DecodeSharedList | internal/adapters/driven_bytecode_store_unpack.go:1408-1428 | the same for a list, with nil slots as zero descriptors and the declared count bounded by the payload |
| DescriptorDecoder.DecodeCache.DecodeSharedFields | internal/adapters/driven_bytecode_store_unpack.go:1369-1460 | the same for a field list |
| DescriptorDecoder.UnfoldingRefines | internal/adapters/bytecode_descriptor_sharing.go:96-113 | a remembered unfolding equals what plain decoding would return at any depth at which it succeeds |
| DescriptorDecoder.RememberedIsAcyclic | internal/adapters/bytecode_descriptor_sharing.go:96-113 | below a remembered table no walk repeats a table, walks are bounded by the tree's height, and every table reached passes its checks |
| DescriptorCodec.ImportOfExport | internal/codec/bytecode_export.go:932-1099 | import accepts at a depth whatever export produced at that depth, and returns it with Length and Dir clamped |
| DescriptorCodec.ImportUndoesExport | internal/codec/bytecode_export.go:932-1099 | import after export is the identity if and only if every Length and Dir fits 32 bits |
| DescriptorCodec.ExportUndoesImport | internal/codec/bytecode_export.go:932-1099 | export accepts whatever import produced, and returns the data it came from |
| DescriptorCodec.ImportExact | internal/codec/bytecode_export.go:932-1014 | plain import panics exactly on trees that reach the depth bound |
| DescriptorCodec.ImportCopies | internal/codec/bytecode_export.go:932-1014 | an imported descriptor has the data's kind, basic kind, length, direction, variadic mark, package path and name, and its children and field texts in their places |
| DescriptorCodec.ExportExact | internal/codec/bytecode_export.go:1029-1099 | export panics exactly on trees that reach the depth bound, and otherwise returns the data that holds the descriptor's fields and children in their places, with lengths and directions that do not fit 32 bits at the nearest end |
| DescriptorCodec.ExportStores | internal/codec/bytecode_export.go:1029-1099 | whatever export returns holds the descriptor so |
| DescriptorCodec.Importer.ImportAtDepth | internal/codec/bytecode_export.go:932-951 | over a shared pointer graph: exactly the outcome and memo of the recursion with a memo; a result is the conversion of the pointer's unfolding, and a panic means plain import of every unfolding panics at this depth |
| DescriptorCodec.Importer.ImportPointer | internal/codec/bytecode_export.go:961-971 | the same through the memo, which holds only such conversions |
| DescriptorCodec.Importer.ImportChild | internal/codec/bytecode_export.go:932-971 | the same for an optional child one level down |
| DescriptorCodec.Importer.ImportItems | internal/codec/bytecode_export.go:981-990 | the same for a list |
| DescriptorCodec.Importer.ImportSlots | internal/codec/bytecode_export.go:1000-1014 | the same for fields |
| DescriptorCodec.ImportedEqualsPlain | internal/codec/bytecode_export.go:932-971 | a memoised import is what the plain recursion makes of the same pointer, wherever that recursion succeeds |
| DescriptorCodec.ImportTypeDescriptor | internal/codec/bytecode_export.go:862-971 | on any shared graph the outcome is that of plain import for every unfolding below the depth bound, and a value copies the unfolding field by field and child by child always |
| DescriptorCodec.MemoOutlastsPlain | internal/codec/bytecode_export.go:961-971 | beyond the bound they differ: a graph that the memoised import accepts and the plain one refuses |
| DescriptorMemo.TableLeaves | internal/codec/bytecode_export.go:932-971 | an import with a memo goes through, and leaves tables in the memo, exactly as a depth-first visit in child order does |
| FirstPaths.VisitExact | internal/codec/bytecode_export.go:955-971 | a depth-first visit with a memory goes through if and only if every table not seen before is allowed on the first path to it, and then has seen everything below |
| DescriptorMemo.MemoAccepts | internal/codec/bytecode_export.go:932-971 | so the memoised import accepts a graph, shared or cyclic, if and only if every table below is within the bound on the first path to it |
| TypePreflight.Budget.ValidateTree | internal/adapters/bytecode_type_expansion.go:139-174 | on any graph: success charges every unvisited table below exactly once and leaves it finished; failure comes with a walk that explains it or with an overspent budget |
| TypePreflight.Budget.Enter | internal/adapters/bytecode_type_expansion.go:139-174 | an unvisited table is marked, charged one unit and all its children are validated |
| TypePreflight.Budget.EnterPointers | internal/adapters/bytecode_type_expansion.go:203-232 | the element, key and value children are validated one level deeper |
| TypePreflight.Budget.EnterLists | internal/adapters/bytecode_type_expansion.go:203-232 | the three lists are bounded, charged one unit a slot and validated |
| TypePreflight.Budget.EnterList | internal/adapters/bytecode_type_expansion.go:109-128 | the same for one list |
| TypePreflight.Budget.ValidateEntries | internal/adapters/bytecode_type_expansion.go:109-128 | a declared list is bounded by the payload, charged and walked |
| TypePreflight.Preflight | internal/adapters/bytecode_type_expansion.go:44-232 | acceptance means the tables visited are exactly those reachable, each once, the units spent are one per root slot plus one per table and per list slot, and no edge leads to a nil or illegal kind; conversely a well-formed, shallow, affordable graph is accepted |
| TypePreflight.CostTold | internal/adapters/bytecode_type_expansion.go:109-174 | the cost of tables is one unit for each and one for each slot of its fields, params and results |
| TypePreflight.AllowanceTold | internal/adapters/bytecode_type_expansion.go:59-61 | the allowance is 65536 units, or one for every whole 32 bytes of the payload if that is more |
| TypePreflight.WalkCoversPath | internal/adapters/bytecode_function_expansion.go:63-72 | the end of every walk from a root was visited and passed its checks |
| FunctionPreflight.ChargeVectors | internal/adapters/bytecode_vector_expansion.go:37-49 | succeeds if and only if every length fits the payload and their sum fits the budget, and then spends exactly the sum |
| FunctionPreflight.ValidateFunctionVectors | internal/adapters/bytecode_vector_expansion.go:60-76 | the same over all vectors of a function, its call sites and its method sets |
| FunctionPreflight.ValidateCallVectors | internal/adapters/bytecode_vector_expansion.go:86-99 | the same over the call sites |
| FunctionPreflight.ValidateMethodVectors | internal/adapters/bytecode_vector_expansion.go:109-122 | the same over the interface method sets |
| FunctionPreflight.ValidateFunctionTypes | internal/adapters/bytecode_type_expansion.go:70-96 | walks the function's type table, general constants and type names: on success each of the three fits and everything in them was charged and has a legal kind; otherwise names what refused them |
| FunctionPreflight.ValidateFunctionTree | internal/adapters/bytecode_function_expansion.go:117-153 | charges exactly the occurrences below a reference with their vectors and types, or explains the refusal by depth, count, vectors or types |
| FunctionPreflight.ValidateFunctionExpansion | internal/adapters/bytecode_function_expansion.go:80-106 | acceptance implies, told by the fields of the tables: every path of children and variable initialisers from the two roots is at most 256 long and ends in a function whose every declared length fits; every path of types from a type table, general constant or type name of such a function, or from a package variable, ends in a table of a legal kind with lists that fit; exactly those tables were charged, once each, within the allowance; and at most 2^16 occurrences and 2^20 vector elements; conversely such a payload whose type tables are shallow and affordable is accepted |
| FunctionPreflight.AcceptedExactly | internal/adapters/bytecode_function_expansion.go:80-153 | the condition for acceptance but for depth and cost of types, told by paths of functions and types, fields and the two limits |
| FunctionTables.VisitsExact | internal/adapters/bytecode_function_expansion.go:117-153 | the functions visited pass their checks if and only if every path of functions from a root does |
| FunctionTables.PathVisited | internal/adapters/bytecode_function_expansion.go:117-153 | the end of every path of functions within the bound, or one past it, is visited at its depth |
| FunctionTables.VisitedPath | internal/adapters/bytecode_function_expansion.go:117-153 | every visit is the end of such a path |
| FunctionTables.LengthsExact | internal/adapters/bytecode_vector_expansion.go:60-122 | what is charged and bounded for a function is every length it declares, its call sites' and its method sets', and nothing else |
| FunctionTables.VectorsSnoc | internal/adapters/bytecode_vector_expansion.go:60-76 | with each visit the elements charged grow by all the lengths the function declares |
| FunctionTables.EntriesExact | internal/adapters/bytecode_type_expansion.go:70-96 | the type entries walked are exactly those in the three lists of the functions on paths and among the package variables |
| FunctionPreflight.SameCounts | internal/adapters/driven_bytecode_store_unpack.go:357-408 | reconstruction bounds exactly the lengths the preflight charged, in another order |
| FunctionPreflight.Reconstruction.ReadVectors | internal/adapters/driven_bytecode_store_unpack.go:127-132 | reads succeed if and only if every declared length fits the payload, and read exactly their sum |
| FunctionPreflight.Reconstruction.UnpackFunction | internal/adapters/driven_bytecode_store_unpack.go:357-408 | succeeds if and only if every occurrence below is within depth and fits, and visits exactly those occurrences at those depths |
| FunctionPreflight.Reconstruction.UnpackChildren | internal/adapters/driven_bytecode_store_unpack.go:705-725 | the same for a child list |
| FunctionPreflight.UnpackFileSet | internal/adapters/driven_bytecode_store_unpack.go:198-241 | the same for both roots of a file set and its own vectors, with exact counts |
| FunctionPreflight.LoadFunctions | internal/adapters/driven_bytecode_store_unpack.go:198-408 | once the preflight accepts, with all it guarantees, reconstruction cannot fail a nesting or count check, rebuilds at most 2^16 functions and reads at most 2^20 vector elements |
| RestrictedSession.DefaultLimits | internal/app/restricted.go:206-246 | refuses exactly when some limit is negative; otherwise every limit is positive and only zeroes were replaced |
| RestrictedSession.ValidateConfig | internal/app/restricted_session.go:399-433 | the same for the session's limits: positive ones are kept, a zero becomes 1 MiB of source, 64 KiB of output and 10,000,000 cost units a submission, 4 MiB, 1 MiB, 1,024 submissions and 100,000,000 units in all |
| RestrictedSession.Session.constructor | internal/app/restricted_session.go:159-183 | a session with full quotas and one idle timer of the current generation |
| RestrictedSession.Session.Cancel | internal/app/restricted_session.go:187-193 | the first cause of cancellation is kept |
| RestrictedSession.Session.ArmIdle | internal/app/restricted_session.go:226-240 | a new generation and a timer that carries it |
| RestrictedSession.Session.Admit | internal/app/restricted_session.go:249-269 | refuses a cancelled session, then a busy one, then one over a limit, which it cancels; otherwise takes the quota and invalidates the timer |
| RestrictedSession.Session.Finish | internal/app/restricted_session.go:278-293 | an error cancels; a cancelled session is dropped, a live one is armed again |
| RestrictedSession.Session.ReleaseClosed | internal/app/restricted_session.go:207-221 | a cancelled session stops its timer, and drops its state unless a submission is active |
| RestrictedSession.Session.IdleFired | internal/app/restricted_session.go:226-240 | a timer of an older generation, or one that meets a submission or a cancelled session, does nothing |
| RestrictedSession.Session.Begin | internal/app/restricted_session.go:305-312 | a capture bound and a cost budget, each the smaller of the submission's limit and what is left |
| RestrictedSession.Session.Write | internal/app/restricted.go:426-436 | captures exactly what fits, says how much, and marks what did not fit |
| RestrictedSession.Session.Charge | internal/app/restricted_session.go:328-342 | captured bytes and metered cost leave the quotas, cost saturating at zero |
| RestrictedSession.RunInv | internal/app/restricted_session.go:187-342 | every state of every interleaving keeps ownership, timers, quotas and in-flight bounds |
| RestrictedSession.RunLater | internal/app/restricted_session.go:187-293 | along any run the cause of cancellation is permanent, dropped state stays dropped and nothing recorded is lost |
| RestrictedSession.OneSubmission | internal/app/restricted_session.go:249-342 | at most one submission is in flight, and its session and output are present until it finishes |
| RestrictedSession.DroppedOnlyWhenCancelled | internal/app/restricted_session.go:207-293 | state is dropped only after cancellation, and never under an active submission |
| RestrictedSession.TimersAreNeverStale | internal/app/restricted_session.go:226-240 | a timer that ends the session was armed after the last admission, and nothing was running |
| RestrictedSession.CurrentTimer | internal/app/restricted_session.go:226-293 | a live idle session has exactly one timer of the current generation; while a submission runs there is none |
| RestrictedSession.GenerationFits | internal/app/restricted_session.go:226-265 | the generation counter never exceeds a 64-bit word |
| RestrictedSession.QuotasAreConserved | internal/app/restricted_session.go:249-342 | spent plus remaining is the limit for source, submissions and output at every moment, cost remaining is the saturating difference, and a running submission has a positive budget |
| RestrictedSession.FailureCloses | internal/app/restricted_session.go:278-293 | a submission that finishes with an error leaves the session cancelled and dropped; one that does not leaves a live session live |
| RestrictedSession.TruncationFails | internal/app/restricted_session.go:302-342 | output beyond the capture bound makes the submission fail, and never more than the bound is captured |
| RestrictedSession.EvaluationCommutes | internal/app/restricted_session.go:302-342 | the output, quotas and budget an active evaluation writes outside the mutex commute with every step of others, which leave them alone |
| RestrictedSession.ReleaseDrops | internal/app/restricted_session.go:207-221 | once cancelled and idle, the next release drops the retained state |
| RestrictedRuns.AdmittedExactly | internal/app/restricted_session.go:249-269 | over any run: a submission is admitted if and only if the session is live and idle, its source is within the limit for one and with that admitted before within the limit for all, fewer submissions than allowed were admitted and less cost than allowed was reported; one that fails a bound ends a live idle session with the limit error; any other changes nothing; and what is answered |
| RestrictedRuns.EvaluationSeen | internal/app/restricted_session.go:302-342 | over any run: the capture is the beginning of what was printed since the evaluation began, as much as the smaller of both output limits leaves room for, truncated if and only if more was printed; the cost budget is the smaller of both limits; and the evaluation ends with its own error, else with the limit error exactly if output was lost |
| RestrictedRuns.StartsExactly | internal/app/restricted_session.go:226-293 | a timer starts exactly with the session and whenever a submission leaves it live, each of a new generation |
| RestrictedRuns.ExpiresExactly | internal/app/restricted_session.go:226-240 | a timer that runs ends the session if and only if it is live and idle and no submission was admitted since the timer started; else it changes nothing |
| RestrictedRuns.FinishedExactly | internal/app/restricted_session.go:278-293 | a finished submission hands its error to a live session, and state is kept exactly while the session is live |
| RestrictedRuns.EndsExactly | internal/app/restricted_session.go:187-293 | which step ends a live session, and with which cause |
| RestrictedRuns.ReleasedExactly | internal/app/restricted_session.go:187-221 | cancelling sets the cause alone; a release of a cancelled session stops its timer and drops its state unless a submission runs |
| AssignLowering.CompileExprCorrect | internal/compile/compiler_expression.go:577-628 | code for an expression leaves its value in the result register, memory and panics as evaluation has them, and no register below the mark changed, panic or not; a variable compiles to its own register, or to a read of its box |
| AssignLowering.LookupAgrees | internal/compile/scope/scope.go:427-434 | the innermost place of a name holds the innermost variable's value, or the reference to its box |
| ShortVarLowering.PinCorrect | internal/compile/compiler_assign_decl.go:228-242 | evaluating a list into temporaries keeps every value while later ones are computed, in order and with the same panics |
| ShortVarLowering.BindStep | internal/compile/compiler_assign_decl.go:502-523 | declaring or redeclaring one name from a register binds it in the innermost scope, in its box if it has one, and disturbs no temporary |
| ShortVarLowering.DeclareFromCorrect | internal/compile/compiler_assign_decl.go:471-490 | declaring every name from its temporary has the effect of declaring all values at once |
| ShortVarLowering.TwoPhaseCorrect | internal/compile/compiler_assign_decl.go:439-490 | the two-phase form has Go's meaning for every statement, world and state, shadowing, redeclaration, boxes and named results included, and if it panics every variable is as it was |
| ShortVarSequential.SequentialCorrect | internal/compile/compiler_assign_decl.go:379-398 | the sequential form means evaluating and binding in turns, blanks left out, for every statement, world and state; if it panics the named results are as bound by then |
| AssignHistory.EvalTraced | internal/compile/compiler_expression.go:577-628 | evaluation follows the trace read off the expression: it stops at the first epoch with a failing check or a panicking call, with the memory of that epoch, or yields the value of its term |
| ShortVarHarmless.BlanksSkipped | internal/compile/compiler_assign_decl.go:384-388 | if the right sides of blanks call nothing and check nothing new, leaving them out changes no value, no memory and no panic |
| ShortVarLate.EvalFrame | internal/compile/compiler_assign_decl.go:400-426 | in one memory, evaluation depends on the names the syntactic test collects, and on no others |
| ShortVarLate.EvalLate | internal/compile/compiler_assign_decl.go:815-831 | an expression without calls evaluates to the same in a memory that agrees with the old one on the boxes of its variables, on elements, and where its pointers point |
| ShortVarLate.HarmlessSuffices | internal/compile/compiler_assign_decl.go:379-398 | evaluating and binding a harmless statement in turns is evaluating everything first, in every world and state, what a panic leaves in named results included |
| ShortVarNecessary.BlankCall | internal/compile/compiler_assign_decl.go:384-388 | a call left out with a blank is seen in a world that counts calls |
| ShortVarNecessary.BlankCheck | internal/compile/compiler_assign_decl.go:384-388 | a check left out with a blank, and made by no other right side in time, is seen in a world where it fails |
| ShortVarStores.CallAfterStore | internal/compile/compiler_assign_decl.go:815-831 | a call after a box or a named result was written is seen in a world where it panics |
| ShortVarStores.CheckAfterStore | internal/compile/compiler_assign_decl.go:815-831 | a new check after a box or a named result was written is seen in a world where it fails |
| ShortVarAliased.PointerAfterStore | internal/compile/compiler_assign_decl.go:815-831 | a pointer followed after a box was written, and not just read, is seen where it points to the box |
| ShortVarExact.LowerCorrect | internal/compile/compiler_assign_decl.go:379-460 | the form chosen has Go's meaning, in every world and state, whenever it is two-phase or the statement is harmless |
| ShortVarExact.HarmfulTold | internal/compile/compiler_assign_decl.go:379-398 | every statement that is not harmless has a world and a state in which the sequential form and Go's meaning differ |
| ShortVarExact.LowerExact | internal/compile/compiler_assign_decl.go:379-426 | the emitted code has Go's meaning in every world and state if and only if the two-phase form is chosen or the statement is harmless |
| ShortVarExamples.CalmIsHarmless | internal/compile/compiler_assign_decl.go:379-398 | statements are harmless whose blanks, and whose right sides after a boxed name or a named result, call nothing, follow no pointer and cannot fail |
| ShortVarExamples.SameReadHarmless | internal/compile/compiler_assign_decl.go:379-398 | `x, y := *p, *p` is harmless, for any calm p, though it reads memory after a boxed name |
| ShortVarExamples.ReadsTooLate | internal/compile/compiler_assign_decl.go:815-831 | after `x := 1; p := &x`, `x, y := 2, *p` gives y the value 1 in Go and 2 in turns, and the test does not catch it |
| ShortVarExamples.CodeReadsTooLate | internal/compile/compiler_assign_decl.go:815-831 | so the code emitted for it does not have Go's meaning, from any registers that hold that state |
| ShortVarExamples.FieldReadTooLate | internal/compile/compiler_assign_decl.go:815-831 | after `p := &x`, `z, x, y := p.g, *q, p.f` gives y the field of the old x in Go and of the new x in turns, and the test does not catch it |
| ShortVarExamples.RecoveredTooLate | internal/compile/compiler_statements.go:529-551 | with p nil and x a named result, `x, y := 2, *p` panics with x as it was in Go, and with x 2 in turns; the test does not catch it |
| ShortVarExamples.CodeRecoversTooLate | internal/engine/defer.go:130-149 | so the code emitted for it does not have Go's meaning, from any registers that hold that state |
| ShortVarExamples.SkipsCheck | internal/compile/compiler_assign_decl.go:384-388 | with p nil, `_, y := *p, 2` panics in Go and gives y the value 2 in turns |
| ShortVarExamples.TestNeeded | internal/compile/compiler_assign_decl.go:400-426 | why the test exists: `x, y := v, x` in turns is wrong in every state where x is not v, boxed or not, and the test catches it |
| TupleHeld.HoldConcat | internal/compile/compiler_assign_decl.go:206-242 | holding operands and then values is holding them together |
| TupleHeld.ReadLastIsGo | internal/compile/compiler_assign_decl.go:165-196 | without calls, reading what is not copied when everything has been evaluated is Go's evaluation from left to right |
| TupleHeld.UnviewedIsGo | internal/compile/compiler_assign_decl.go:165-196 | so it is, calls or not, if nothing is a view |
| TupleLowering.PrepareCorrect | internal/compile/compiler_assign_prepared.go:120-180 | operands and values are evaluated in order, with the same panics, and stay where they are held: copies in temporaries of their own, kept keys in the register of the variable, views as their address in temporaries of its own |
| TupleLowering.AssignAgrees | internal/compile/compiler.go:1129-1160 | writing a variable's register, or its box, assigns the innermost variable of that name and no other |
| TupleLowering.LoadAllCorrect | internal/engine/vm_handler_data_dispatch.go:367-396 | using what is held shows each copy as it was and each view as its place is by then, cannot fail, and disturbs nothing held |
| TupleLowering.StoreCodeCorrect | internal/compile/compiler_assign_decl.go:253-271 | stores through prepared operands are the assignments, left to right, up to one that panics, each with what is held as it is by then, and disturb nothing held |
| TupleLowering.StoreCodeDefined | internal/compile/compiler.go:1129-1160 | the stores are refused exactly when some plain name is undeclared, and name the first |
| TupleLowering.GeneralCorrect | internal/compile/compiler_assign_decl.go:174-271 | operands, then values, then stores, each with what is held as it is by then, aliased targets, boxed variables, swaps and panics in any phase included; if evaluation panics every variable is as it was, and the registers given back are free |
| TupleLowering.SwapCorrect | internal/compile/compiler_assign_decl.go:105-129 | the field-swap instruction does what Go makes of the two assignments through one pointer, a nil pointer included |
| TupleLowering.LowerMeans | internal/compile/compiler_assign_decl.go:174-196 | refused exactly for unequal counts or an undeclared name; otherwise the code does the assignments with what is held as it is by then, or the swap |
| TupleSettled.HoldFits | internal/compile/compiler_assign_prepared.go:162-180 | what is held in a state is what the text says: a value, a variable's register, or a view of that box, of a pointee or of an element |
| TupleSettled.KeptThrough | internal/compile/compiler_assign_decl.go:253-271 | stores leave what is held as it was if none of their targets may store where it is kept or viewed, in every state in which variables have boxes of their own |
| TupleSettled.CurrentIsFirst | internal/compile/compiler_assign_decl.go:253-271 | if that is so for all that is held, storing with what is held as it is by then is storing with what it was at first |
| TupleSettled.SettledIsGo | internal/compile/compiler_assign_prepared.go:162-180 | under that condition what the code does is Go's meaning |
| TupleSettled.LowerCorrect | internal/compile/compiler_assign_decl.go:174-196 | refused exactly for unequal counts or an undeclared name; otherwise, under that condition, the code has a meaning Go allows in every world and state |
| TupleSettled.QuietCorrect | internal/compile/compiler_assign_decl.go:165-196 | without calls it has the one meaning Go allows |
| TupleUnsettled.HitStays | internal/compile/compiler_assign_decl.go:253-271 | what a target may store to it does store to in some world, and there it is seen changed by every later target |
| TupleExact.ChangedOperand | internal/compile/compiler_assign_prepared.go:162-180 | an operand that an earlier target may change leads the code, in some world, to store to a cell that Go leaves alone |
| TupleExact.OperandsMatter | internal/compile/compiler_assign_prepared.go:120-180 | a list of targets for which the code always has Go's meaning has no such operand, whatever the manner of the values |
| TupleExact.ReferenceMatters | internal/compile/compiler_assign_decl.go:228-242 | a reference stored last that an earlier target may change is, in some world, stored changed |
| TupleExact.LowerExact | internal/compile/compiler_assign_prepared.go:120-180 | where values are copied, the code has Go's meaning, for all right sides, worlds and states, if and only if no target may store where an operand of a later one is kept or viewed |
| TupleExact.BeginningsExact | internal/compile/compiler_assign_decl.go:228-271 | a statement and each beginning of it have Go's meaning, for all right sides of the given manners, worlds and states, if and only if besides no target may store where a later value is viewed |
| TupleExamples.StoredUnderNewKey | internal/compile/compiler_assign_prepared.go:162-180 | `k, m[k] = k2, v` with k a struct stores under the old k in Go and under k2 in the code |
| TupleExamples.StoredUnderNewBoxedKey | internal/compile/compiler_statements_helpers.go:133-143 | the same with k in a box |
| TupleExamples.StoredUnderNewPointee | internal/engine/vm_handler_data_dispatch.go:367-396 | `*p, m[*p] = k2, v` with a struct at p stores under the old struct in Go and under k2 in the code |
| TupleExamples.StoredIntoNewSlice | internal/engine/vm_handler_data_dispatch_arena.go:453-463 | `xs, xs[0] = ys, 1` with xs in a box stores into the old xs in Go and into ys in the code |
| TupleExamples.ReferencesNotSwapped | internal/compile/compiler_assign_decl.go:228-242 | `*p, *q = *q, *p` with references at p and q swaps them in Go, and in the code leaves both as the one at q |
| AssignCompiler.Compiler.NeedsTwoPhase | internal/compile/compiler_assign_decl.go:412-426 | true exactly for several names one of which some right side mentions |
| AssignCompiler.Compiler.CompileShortVar | internal/compile/compiler_assign_decl.go:379-398 | the loop emits exactly the code, scopes and mark of the form chosen |
| AssignCompiler.Compiler.CompileSequential | internal/compile/compiler_assign_decl.go:547-588 | the sequential loop, with the mark restored after each right side, emits the sequential form |
| AssignCompiler.Compiler.CompileTwoPhase | internal/compile/compiler_assign_decl.go:439-460 | the two loops emit the two-phase form |
| AssignCompiler.Compiler.DeclareTwoPhase | internal/compile/compiler_assign_decl.go:471-490 | the declare loop emits the declare phase |
| AssignCompiler.Compiler.DeclareFromValue | internal/compile/compiler_assign_decl.go:502-523 | a new name takes the next register, an existing one is written in its register or its box |
| AssignCompiler.Compiler.PinOperand | internal/compile/compiler_assign_prepared.go:162-180 | an operand or value where it is held: copied to a temporary, kept in a variable's register, or as a view |
| AssignCompiler.Compiler.PrepareTargets | internal/compile/compiler_assign_prepared.go:120-180 | the operands of all targets, in order, prepared so |
| AssignCompiler.Compiler.PinEach | internal/compile/compiler_assign_decl.go:228-242 | each expression in a temporary of its own |
| AssignCompiler.Compiler.CompileValues | internal/compile/compiler_assign_decl.go:228-242 | every value, in order, held so before any is stored |
| AssignCompiler.Compiler.StoreValues | internal/compile/compiler_assign_decl.go:253-271 | the stores in order, or the first undeclared name |
| AssignCompiler.Compiler.CompileGeneral | internal/compile/compiler_assign_decl.go:174-196 | the general lowering, with as many registers given back as there are values |
| AssignCompiler.Compiler.CompileTupleAssign | internal/compile/compiler_assign_decl.go:174-196 | emits exactly the lowering, or reports unequal counts with nothing emitted, or the undeclared name |
| ReplHistory.FirstClashExact | internal/app/session_submit.go:260-279 | no clash if and only if the names are new and distinct; otherwise the first clashing name, with where it was declared |
| ReplHistory.RestoreUndoes | internal/app/session_submit.go:68-75 | restoring a snapshot undoes everything compilation and execution may have done, except method entries, reserved slots and new instances of functions that stay |
| ReplHistory.FailureKeeps | internal/app/session_submit.go:111-171 | a submission that does not succeed, at whatever stage, leaves the session equal to what it was up to those three, and of instances exactly those it made |
| ReplLinking.NeedsClosed | internal/compile/compiler_calls.go:321-350 | the instances a body leads to contain those it uses and are closed under use |
| ReplLinking.ItemsComplete | internal/compile/compiler_calls.go:321-350 | a compilation that goes through has every instance it uses; each new one is good, has all it uses in turn, and exactly the functions those and the literals take were appended |
| ReplLinking.ItemsGuided | internal/compile/compiler_calls.go:321-350 | compilation makes no instance that is not needed; where every index is in range it never breaks the compiler, and goes through if all that is needed is good |
| ReplLinking.ItemsBeside | internal/compile/compiler_calls.go:321-350 | with the same instances up to stale ones, and no stale one needed, two sessions compile a body in step |
| ReplCode.ItemsLinked | internal/compile/compiler_calls.go:321-350 | what a body meets is compiled so that every new function is the code of its body, linked to the indices at which its literals were compiled, in order, and to its instances: an older one where it was entered, a new one where its body was compiled |
| ReplCode.BodyLinked | internal/compile/compiler_statements.go:231-262 | the same for a body, whose own code stands at the index reserved before |
| ReplCode.UseLinked | internal/compile/compiler_calls.go:321-350 | the same for an instance, which may use itself |
| ReplCode.FuncsLinked | internal/compile/compiler_eval_body.go:44-55 | each function declaration is compiled from its own body, against a table that holds the functions up to it, and is entered at that index; init functions are listed in order |
| ReplBuild.NewWhole | internal/app/session_submit.go:379-422 | a submission that compiles has made everything it needs, and entered exactly its functions |
| ReplBuild.NewGoesOn | internal/app/session_submit.go:379-422 | in a session without leftovers a submission compiles if and only if its bodies do and every instance it needs is good where it is needed; the compiler never breaks |
| ReplReplay.SubmitLevel | internal/app/session_submit.go:111-171 | a submission that succeeds and needs no stale instance cannot tell apart sessions that differ only in methods, slot numbers, code and stale instances; with the same slots it adds the same code |
| ReplReplay.TrailsStep | internal/app/session_submit.go:111-171 | a success succeeds in the replay if and only if every instance it needs is good there, and by how many functions the sessions differ is the size of the instances one has and the other has not |
| ReplReplay.FailuresLeaveNoTrace | internal/app/session_submit.go:97-171 | after any history of submissions and resets, imports, declarations, names, counts, the number of functions, function table, init marks and the bank of every variable equal those of replaying only the successes, if and only if no success needed an instance that a failure since the session was last empty was the first to make |
| ReplReplay.SuccessesSucceed | internal/app/session_submit.go:97-171 | all successes since the session was last empty succeed in the replay if and only if every instance they need compiles where it is needed; the condition above implies it |
| ReplReplay.CrashNeedsStale | internal/compile/compiler_calls.go:188-200 | while no success needed a stale instance, the compiler panics only on a submission that needs one |
| ReplInvariant.RetainedOnce | internal/app/session_submit.go:301-308 | with distinct names, the text emitted is each named declaration once and in order, and reading it again gives the same records |
| ReplInvariant.OnlyNewDeclarations | internal/app/session_submit.go:503-538 | of the combined file exactly declarations of the submission are compiled, none retained |
| ReplInvariant.CompileWell | internal/app/session_submit.go:379-422 | compiling a submission, successful or not, only appends functions, keeps every older table entry, gives distinct slots within each bank, and confines new entries to the submission's names |
| ReplInvariant.SubmitSound | internal/app/session_submit.go:111-171 | any submission keeps: names distinct and consistent, imports listed once, table indices in range, method entries present, slots of one bank distinct and below its count |
| ReplInvariant.AlwaysSound | internal/app/session_submit.go:97-171 | so does every history |
| ReplFile.HistoryTold | internal/app/session_submit.go:345-361 | after any history the imports, records and count are those of the submissions that succeeded since the session was last empty: each path once, with the alias it was first given, in that order |
| ReplFile.FileTold | internal/app/session_submit.go:292-323 | the file of a submission after any history, line by line: the package, each path that those successes or the submission import, once and as first imported, their declarations that introduce names, the submission's declarations, and between the evaluation function's braces exactly its statements, all in order |
| ReplFile.RefusedExactly | internal/app/session_submit.go:111-150 | a submission is refused before compilation exactly if it does not parse, repeats a name of its own or of those successes, or that file is ill typed, in this order, and then nothing changes |
| ReplFile.NamesInExact | internal/app/session_compile.go:91-131 | the names a declaration introduces: a function's, none for an init function, and those that are not blank of any other |
| ReplLeftovers.RetainedIsRecorded | internal/app/session_submit.go:292-323 | after any history the retained text introduces exactly the recorded names and no text is emitted twice |
| ReplLeftovers.CombinedDeclaresOnce | internal/app/session_submit.go:292-323 | the file of a submission that passes the redeclaration test declares every name exactly once |
| ReplLeftovers.SlotsExact | internal/compile/compiler_globals.go:38-72 | if the successes succeed again, each bank is ahead of the replay by exactly the variables of that bank failed submissions registered, and slots equal the replay's if and only if no success declared a variable of a bank in which one had been registered |
| ReplLeftovers.CodeExact | internal/compile/compiler_globals.go:331-338 | under the condition on slots, compiled functions, function table and the number of successes equal the replay's if and only if no success needed a stale instance |
| ReplLeftovers.MethodsExact | internal/compile/compiler_statements.go:151-160 | if the successes succeed again, the method entries are the replay's and exactly the keys that failed submissions entered since the session was last empty and no success declared later; with the same function table the indices are the same, and the tables equal if and only if there are none |
| ReplExamples.SlotsCanDiffer | internal/app/session_submit.go:68-75 | a failed `var x` moves the slot of a later `var y` |
| ReplExamples.CodeCanDiffer | internal/compile/compiler_globals.go:331-338 | and changes the code of a function that reads y |
| ReplExamples.MethodsCanDiffer | internal/app/session_submit.go:68-75 | a failed method declaration leaves exactly its entry behind |
| ReplExamples.StaleInstance | internal/compile/compiler_calls.go:321-350 | after a failed call of `Max[int]` a function that calls it calls itself, where the replay calls the instance |
| ReplExamples.StaleCrash | internal/compile/compiler_calls.go:188-200 | after a failed call of `Max[int]` in a statement, calling it in a statement again makes the compiler panic |
| ReplExamples.StaleCrashInFunction | internal/compile/compiler_calls.go:188-200 | after a failed declaration of a function that calls `Max[int]`, declaring another that does makes the compiler panic |
| ReplSession.Session.constructor | internal/app/session.go:260-277 | an empty session |
| ReplSession.Session.Reset | internal/app/session.go:191-204 | an empty session again, the service's store included |
| ReplSession.Session.Inspect | internal/app/session.go:221-236 | the import paths sorted, the declared names in declaration order, the number of successes; nothing changes |
| ReplSession.Session.CandidateImportPaths | internal/app/session_submit.go:201-225 | the imports not known to the session, each path once, in order |
| ReplSession.Session.DetectRedeclaration | internal/app/session_submit.go:260-279 | the first clash, if any |
| ReplSession.Session.EmitRetained | internal/app/session_submit.go:301-308 | the distinct declarations behind the records, in order of first occurrence |
| ReplSession.Session.BuildCombinedSource | internal/app/session_submit.go:292-323 | line by line: imports known with their aliases and new ones, retained declarations, the submission's, then its statements |
| ReplSession.Session.TakeSnapshot | internal/app/session_submit.go:329-338 | the tables rollback will put back |
| ReplSession.Session.TruncateFunctions | internal/engine/program/function.go:599-604 | the function list is cut, and with the functions go the instances recorded on them |
| ReplSession.Session.RestoreFrom | internal/app/session_submit.go:68-75 | the snapshot's tables are put back and the function list is cut to its old length |
| ReplSession.Session.CommitSubmission | internal/app/session_submit.go:345-359 | new imports and records are appended, names and compiled marks set, the count raised |
| ReplSession.Session.FilterDecls | internal/app/session_submit.go:503-538 | keeps init functions not compiled yet and declarations that introduce a new name |
| ReplSession.Session.RegisterVariables | internal/compile/compiler_globals.go:38-72 | each variable that is not blank takes the next slot of its bank |
| ReplSession.Session.Specialise | internal/compile/compiler_calls.go:321-350 | an instance on record is found; another is recorded, and then compiled; calling an index that is not there breaks the compiler |
| ReplSession.Session.EmitBody | internal/compile/compiler_statements.go:198-220 | a body takes the next index before anything in it is compiled |
| ReplSession.Session.EmitItems | internal/compile/compiler_closures.go:109-160 | literals and uses of instances, in order, up to the first that fails |
| ReplSession.Session.CompileFunctions | internal/compile/compiler_statements.go:75-140 | each function is entered and compiled, init functions are listed instead, and a failure stops there |
| ReplSession.Session.CompileSubmission | internal/app/session_submit.go:379-422 | variables, functions, initialiser and body of what is new, without running anything |
| ReplSession.Session.SubmitAttempt | internal/app/session_submit.go:97-171 | the whole submission does what the model of one submission says, on every path |
| SessionExecution.WithinBudget | internal/app/session_execution.go:50-102 | if each machine stays within its limit, the costs of all stages sum to at most the budget, and every stage started had what was left as its limit, which was positive |
| SessionExecution.Unmetered | internal/app/session_execution.go:87-102 | without a budget every stage keeps the service's limit and none is refused for cost |
| SessionExecution.RunEndsRightly | internal/app/session_execution.go:50-102 | stages run in plan order and stop at the first failure, cancellation or exhaustion, each for exactly its reason |
| SessionExecution.EntriesAreRuns | internal/app/session_execution.go:87-102 | every cost and outcome recorded is what the machine reported under that limit |
| SessionExecution.PlanIsSchedule | internal/app/session_execution.go:58-78 | the plan is the variable initialiser first if there is one, then each init function listed that has not run, once and in order of first occurrence, and last the body |
| SessionExecution.Execution.RunStage | internal/app/session_execution.go:87-102 | starts a stage with what is left, or refuses without starting it |
| SessionExecution.Execution.RunInits | internal/app/session_execution.go:65-75 | runs each pending init function once and marks exactly those that ended well |
| SessionExecution.Execution.Run | internal/app/session_execution.go:50-79 | runs such a schedule, or a beginning of it that ends for a reason: the stages started, their limits, costs and outcomes are what the machines reported within the budget; on every exit the service has its own limit again and reports the summed cost, and exactly the init functions that ended well are marked |
| ReplExecution.MarksAgree | internal/app/session_execution.go:65-75 | the init functions the model of a submission marks as run are those the metered execution marks |
| TopoSort.VisitCorrect | internal/app/service_compile.go:928-949 | visiting a package places it after everything it imports and nothing it cannot reach; an error is a real cycle or a walk that is too long |
| TopoSort.SortVerdict | internal/app/service_compile.go:917-965 | for any listing of the packages: success gives exactly the reachable packages, each once and after its imports, in a graph without cycles; a cycle error names a package on a cycle; a depth error ends a walk of 1025 edges from a package |
| TopoSort.SortSucceeds | internal/app/service_compile.go:917-965 | without a cycle and without such a walk sorting succeeds |
| ImportOrder.LocalImportsExact | internal/app/service_compile.go:875-893 | a package depends on exactly the local packages its files import |
| ImportOrder.BuildDependencyGraph | internal/app/service_compile.go:875-893 | an entry for every package, with its local imports in file order |
| ImportOrder.Sorter.VisitPackage | internal/app/service_compile.go:928-949 | the in-place visit does what the recursive definition says |
| ImportOrder.SortPackages | internal/app/service_compile.go:917-965 | the verdict above, and the result depends on the graph alone, not on the order a map yields its keys |
| StringOrder.AscendingUnique | internal/app/service_compile.go:951-955 | two ascending lists with the same elements are the same list |
| StringOrder.Sort | internal/app/service_eval.go:245-251 | an ascending permutation |
| ProcessEnvironment.StepRefines | internal/app/service_eval.go:261-292 | each operation on the overlay is the operation on a plain map |
| ProcessEnvironment.OverlayIsAMap | internal/app/service_eval.go:163-292 | over any sequence of operations the overlay, sealed or not, is indistinguishable from a plain map |
| ProcessEnvironment.CutEntry | internal/app/service_eval.go:236-241 | cutting an entry gives the binding back if and only if the name holds no `=` |
| ProcessEnvironment.ListingReadsBack | internal/app/service_eval.go:232-251 | a listing reads back as the bindings if and only if no name holds an `=` |
| ProcessEnvironment.Environment.constructor | internal/app/service_eval.go:187-189 | a sealed view is the given values, an open one the host's with those on top |
| ProcessEnvironment.Environment.Lookup | internal/app/service_eval.go:205-215 | finds exactly the bindings of the view |
| ProcessEnvironment.Environment.Getenv | internal/app/service_eval.go:222-225 | the value, or the empty text |
| ProcessEnvironment.Environment.Setenv | internal/app/service_eval.go:261-267 | the view gains or changes one binding |
| ProcessEnvironment.Environment.Unsetenv | internal/app/service_eval.go:276-282 | the view loses one binding, also one of the host's |
| ProcessEnvironment.Environment.Clearenv | internal/app/service_eval.go:287-292 | the view is empty |
| ProcessEnvironment.Environment.Environ | internal/app/service_eval.go:232-251 | one entry for each binding of the view, sorted |

## Left out

- Byte layout: the FlatBuffers format, vtables and alignment; a payload is an append-only heap of nodes, a zero offset reads as nil and every other offset leads to a node of the payload.
- The distinction between a nil and an empty list: both are the empty sequence, as the structural key treats them.
- Signature descriptors: they are not roots of the type preflight, and nothing here says an accepted preflight rules out a decoder's depth error.
- The string-byte budget (internal/adapters/bytecode_string_expansion.go): the same charging as the vector budget, so it would add only easy members.
- Context cancellation inside the preflight and the decoder.
- reflect.Type reconstruction, the symbol registry and general-constant values: they rest on host types.
- Wall-clock durations: timers and lifetime expiry are steps that may happen at any moment.
- RestrictedSession.Session.Write: requires room that is not negative, which every run keeps; bytes are characters.
- Restricted imports, symbol exports and result encoding of a restricted session.
- Register banks, spilled and recycled registers, typed-slice locals and value copies of structs and arrays: one register file whose allocator returns the next free register. Types appear where the meaning needs them: whether an index is checked, whether an operator can fail, what a pointer points to or a slice holds, whether a key is copied, and whether a value is a reference.
- Captured locals, package variables, pointers into a part of a variable, and `&x` inside a right side: a variable is in a register or in a box when the statement starts, and which it is does not change.
- Struct- and array-typed bases of assignment targets, which the compiler addresses instead of copying, and elements assigned through a pointer to an array: bases here are pointers to structs, slices and maps.
- A selector through a pointer is one instruction in the source; here it is a dereference and a selection.
- AssignLowering.CompileExprCorrect: expressions are literals, variables, operators, fields, elements, pointees and calls of one argument; a variable is read when evaluation reaches it, an order Go leaves open between variables and calls.
- Multi-value right sides of `:=` (multi-return calls, comma-ok forms) and single assignments.
- ShortVarLowering.TwoPhaseCorrect: a variable in a register that is bound to a reference (a slice, map, pointer, channel or function) read through a pointer or from an element may go on as a view of that place (internal/compile/compiler_statements_helpers.go:1326-1335), so that a later store there shows in the variable; here a register holds a value.
- ShortVarExact.LowerExact: the same; what is said is said of values that are copied when they are read.
- TupleLowering.GeneralCorrect: the same for a variable in a register that is assigned such a reference. A view is modelled by the registers of its address and a load at each use; in the source it is one addressable value.
- TupleExact.BeginningsExact: requires, for the same reason, that a target given such a reference is in memory or blank. A statement whose later stores happen to mend what an earlier one did wrong has Go's meaning although a beginning of it has not, so beginnings are part of the claim.
- TupleSettled.LowerCorrect: a struct- or array-typed key that is read through a field is taken as a copy. In the source a field of a view is a view too, so `p.k, m[p.k] = k2, v` with `k` a struct field belongs to the statements that store under the new key, and neither this condition nor that of TupleExact.LowerExact speaks of it. Slices, maps, pointers, channels and functions read through a field are copies in the source as well.
- TupleExact.LowerExact: the same for keys read through a field.
- TupleLowering.SwapCorrect: whether two field layouts allow the swap instruction is a parameter.
- The parser, the classification of lines, the type checker, import policy and source size limits: one verdict on the combined file, a function of that file alone.
- ReplSession.Session.CompileFunctions: the code of a body is a function of the slots and indices it embeds, and whether it compiles by itself and what is met in it do not depend on them; an instance's body is one for a generic function's text and type arguments, while the source compiles the retained syntax tree with the type information of the submission that needs the instance (internal/compile/compiler_statements.go:231-262); the 16-bit limit on function indices, the caps on instances and method entries, and instances that are not compiled because of them are not modelled.
- ReplSession.Session.SubmitAttempt: a panic of the compiler ends the process; a host that recovers it and goes on with the session is not modelled.
- Struct layouts and type names of the root function, and runtime values of variables: rollback leaves them alone, and nothing is said about them. Whether a submission runs is a given answer, the same in the replay.
- Inspection of a restricted session, debugging hooks, output writers and goroutines of a submission.
- SessionExecution.WithinBudget: that a machine stays within a positive limit is an assumption about the machine.
- TopoSort.SortSucceeds: goes one way; with a walk that is too long, success depends on whether an earlier package in sorted order has already visited its tail.
- Concurrent use of the environment: its methods hold a lock and are atomic here; the host's entries are fixed and each name occurs once among them.
- Module slot relocation, disk storage, isolated workers, command line and bindings.
