# Verification models of hegel-c

Dafny 4.11 models of the hegel-c property-testing runtime and of the schema engine and test
oracle built on it, with proofs of what they promise. `dafny verify dfyconfig.toml` checks
everything; the modules have no dependencies outside this directory.

What is modelled, in the system's own terms:

| file | what it models |
|---|---|
| `Schemas.dfy`, `Bags.dfy` | the schema tree; tables of heap addresses as multisets |
| `EngineLog.dfy` | what a draw asks of the engine, call by call, with the answers |
| `DrawEngine.dfy` | one top-level schema draw: the record chain of tracked blocks, open spans, SELF recursion, the jump out of any depth, and the shape that owns the result |
| `Layout.dfy` | the struct, case, union and variant builders, and where the writes of a draw land |
| `ShapeLookup.dfy` | `hegel_shape_get_offset` |
| `Views.dfy` | fields drawn in order, reads through `HEGEL_VIEW_FIELD`, `HEGEL_LEN_OF` and derived fields |
| `Buffers.dfy` | length-prefixed and sentinel-terminated buffers, byte by byte |
| `Bindings.dfy` | LET, LET_ARR, USE, USE_AT, USE_PATH and the scope chain |
| `Wire.dfy`, `Pipes.dfy` | frames, robust pipe reads and writes, the growable buffer, the serve loop |
| `Server.dfy`, `Handles.dfy`, `GenCache.dfy` | `hegel__serve_op`, the handle table, the string-generator cache |
| `Codecs.dfy` | the packed payloads: state machines, failures, unsigned 64-bit bounds |
| `Transport.dfy` | a test body run in-process and in a forked child over two pipes |
| `Isolated.dfy` | `HEGEL_ISOLATED` blocks with and without fork |
| `Stateful.dfy` | the stateful driver, as traces accepted by monitors |
| `ForkClean.dfy` | the re-executed child of fork-clean mode |
| `SplitOracle.dfy`, `Fdesc.dfy` | the scatterlist split oracle and its text form |

Modelling choices that run through all of it:

- The engine is an arbitrary answer stream. It is limited only where the engine itself promises
  something: a length within its bounds, also one it decides element by element; no branch at
  `max_depth`; at most 100 accepted leaves an attempt; finitely many attempts, the case being
  discarded after the last; an integer within the bounds it was given.
- Every call a draw makes is logged with its answer (`EngineLog.dfy`), and what a draw returns is
  stated of that log: which branch, leaf, finish, retry, length and span calls were made.
- `longjmp` and the other ways out of a draw are constructors of the result (`Unwound`, `Escaped`,
  `Aborted`). The heap is a multiset of block addresses, and an allocation may take any address
  that is not live, freed before or not. A block can be freed only while it is allocated, so a
  double free is a precondition no caller meets.
- A test body is a function from what it has seen so far to what it does next; the process running
  it over pipes takes its steps in any order, moving any number of bytes at a time, through pipes of
  any capacity: a write into a full pipe waits.
- Objects the source updates in place are classes with its fields; loops in the source are loops
  here, proved against a function or a relation about which the lemmas are proved.

Where a promise does not hold of the code, the code is modelled as it is, the exact condition is
proved, and an input at which it fails is shown by a lemma or named:

| condition | input |
|---|---|
| `Layout.TaggedIff` | `Layout.CountOnPointer` |
| `ShapeLookup.WrapperIff` | `ShapeLookup.WrapperComesBack` |
| `Views.CountReadIff` | any read wider than an int at a count slot |
| `Buffers.TerminatedBack` | `Buffers.ByteSentinel` |
| `Buffers.BuildCheckMisses` | `Buffers.WideSentinel` |
| `Bindings.LetThenUse` | `Bindings.WideLet` |
| `Bindings.NarrowIff` | `Bindings.ByteLength` |
| `GenCache.RegexGenExact` | `GenCache.NulPatternRun` |
| `Isolated.AgreesExactly`, `Isolated.VerdictsAgreeIff` | `Isolated.RuleBodyParts` |
| `Isolated.CrashOriginIff` | any site of 0 or more than 255 bytes |
| `ForkClean.ReplayExactly` | `ForkClean.FailureLost` |
| `Codecs.FailBack` | any origin of 512 bytes, any message of 1024 |
| `SplitOracle.AcceptedIff` | `SplitOracle.WrappedSum` |

Two of these inputs need a sender or a caller the repository does not have. A regex pattern with an
embedded NUL cannot come from `hegel_draw_regex`, which sends `strlen` bytes
(`core/hegel_runtime.c:384-394`); for the requests it does send, `GenCache.EveryRegexExact` proves
the cache exact over whole runs. Sizes that wrap are admitted by the request's type but never drawn
by the harness (`submissions/linux-sg-split-series/v3-agent/evidence/sgcase_x.h:117-137`).

## Where the code and its documentation differ

The models follow the code.

- `core/hegel_internal.h:210-211` says the cleanup hook runs on every exit path; a forked child that
  escapes sends its verdict and exits without running it (`core/hegel_runtime.c:119-123`).
- `experiments/schema-with-callbacks/hegel_gen.c:448-452` says every field position of a case is
  moved by the place of the body; the count of an ARRAY_INLINE is not (`Layout.CountMisplaced`).
- `experiments/schema-with-callbacks/hegel_gen.c:1746-1761` says a lookup ends at the leaf, not at
  the wrapper of an inline struct; if the slot at the start of the struct has no shape (a one-of
  used as a field) the wrapper comes back (`ShapeLookup.WrapperIff`).
- `core/hegel_server.c:153-154` promises one generator per distinct pattern; a pattern with an
  embedded NUL is compared only up to the NUL (`GenCache.NulPatternMisleads`), though no sender in
  the repository sends one.
- `core/hegel_runtime.c:610-626` describes one meaning of a block for both modes; an assume
  in a block inside a stateful rule leaves the forked case in the block (`Isolated.AssumeInRule`).
- `experiments/schema-with-callbacks/hegel_gen.c:1307-1311` calls the check at build time a best
  effort; `Buffers.BuildCheckMisses` says exactly what it leaves open for a bounded integer.
- `submissions/linux-sg-split-series/v3-agent/evidence/sgcase_x.h:262-264` says a request is valid
  if and only if its end is within the input; the sum wraps (`SplitOracle.WrappedSum`).

## Model

| member | source | states |
|---|---|---|
| `DrawEngine.DrawState.DrawAndRelease` | experiments/schema-with-callbacks/hegel_gen.c:3769-4033 | One value’s whole life. Whatever the schema and whatever the engine answers, drawing a value and releasing its shape, or abandoning it from any depth, leaves the heap exactly as it was: no leak, no double free (a block can only be freed while it is allocated). On a normal return the engine’s open spans are what they were |
| `DrawEngine.DrawState.DrawRoot` | experiments/schema-with-callbacks/hegel_gen.c:3769-3834 | However many attempts were abandoned or dropped, the heap grows by exactly the blocks the returned shape owns, the record chain is the caller’s again and the span depth is the one at entry; the value has at most 100 NULL SELF slots, its SELF nesting is below `max_depth`, and its shape mirrors the schema at that depth. The calls it made: no recursion handle, or one for `max_depth`, then finish calls answered nonzero and retries, then one finish call answered 0, then the free of the handle |
| `DrawEngine.DrawState.Settle` | experiments/schema-with-callbacks/hegel_gen.c:3791-3825 | The attempt loop: the value that comes back is the one after which the engine’s finish call answered 0; every earlier finish call of the draw answered nonzero, and every other attempt ended over its budget; without a handle finish is never called. Every span is closed and the record tracks exactly the value’s blocks; terminates because the engine grants finitely many attempts and discards the case after the last |
| `DrawEngine.DrawState.Attempt` | experiments/schema-with-callbacks/hegel_gen.c:3792-3804 | One attempt, ended in any of its four ways: the record chain above it, the caller’s blocks and `spans - open_spans` are untouched; the leaf-budget jump happens only after the recursion handle exists |
| `DrawEngine.DrawState.Retry` | experiments/schema-with-callbacks/hegel_gen.c:3816-3824 | After the jump: exactly the tracked blocks are freed, exactly as many spans as the attempt left open are closed, each with discard set, the retry call is made, and the next attempt starts empty |
| `DrawEngine.DrawState.DropValue` | experiments/schema-with-callbacks/hegel_gen.c:3809-3814 | A finished value the engine mispriced is freed completely through its shape, with none of its blocks left in the record |
| `DrawEngine.DrawState.AbandonAll` | experiments/schema-with-callbacks/hegel_gen.c:84-95 | Every record still set is freed with its table and every block it tracks; only the caller’s blocks are left |
| `DrawEngine.DrawState.ShapeFree` | experiments/schema-with-callbacks/hegel_gen.c:3995-4033 | Frees exactly the blocks a shape owns, each once, whether a record still tracks them or not |
| `DrawEngine.DrawState.Track` | experiments/schema-with-callbacks/hegel_gen.c:100-117 | A tracked block passes from the caller to the record, through the doubling of the table, and the heap does not otherwise change |
| `DrawEngine.DrawState.Untrack` | experiments/schema-with-callbacks/hegel_gen.c:119-131 | The newest entry with this address leaves the record (the last entry takes its place) and no other block does; an untracked address changes nothing |
| `DrawEngine.DrawState.SelfPresent` | experiments/schema-with-callbacks/hegel_gen.c:183-204 | The exact calls of a SELF slot: a handle for `max_depth` if there is none, a branch call one level down, and a leaf call when that was refused; a child comes back exactly when the branch call answered nonzero (below `max_depth`), NULL when the leaf call answered 0, and the jump is taken exactly when it did not |
| `DrawEngine.DrawState.DrawOptional` | experiments/schema-with-callbacks/hegel_gen.c:2852-2896 | A nullable slot: the child is there exactly when the deciding call (the branch call of a SELF, a drawn 0 / 1 otherwise) answered nonzero and the child’s schema has values of its own; blocks, leaves, nesting and spans agree with the shape, and no child other than a SELF is drawn at depth 0 |
| `DrawEngine.DrawState.DrawElems` | experiments/schema-with-callbacks/hegel_gen.c:2930-2966 | n elements; the record holds exactly the elements drawn so far, in the element schema’s form |
| `DrawEngine.DrawState.DrawElemInSpan` | experiments/schema-with-callbacks/hegel_gen.c:2933-2961 | An element is drawn between the start and the stop of a span of its own, which is kept |
| `DrawEngine.DrawState.DrawArrayInline` | experiments/schema-with-callbacks/hegel_gen.c:2898-2968 | The array has as many elements as the engine answered for its length, drawn within its bounds, the second call of the draw |
| `DrawEngine.DrawState.DrawEngineLen` | experiments/schema-with-callbacks/hegel_gen.c:3481-3522 | A list whose length the engine decides: the engine was asked for more exactly once for each element, answering yes, and once more, answering no; between `lo` and `hi` elements, and the two blocks that are outgrown are freed when the list doubles |
| `DrawEngine.DrawState.GrowList` | experiments/schema-with-callbacks/hegel_gen.c:3493-3507 | Doubling moves the buffer and the shape table to new blocks: the old two are freed, the new two tracked, nothing else changes |
| `DrawEngine.DrawState.DrawBuffer` | experiments/schema-with-callbacks/hegel_gen.c:3617-3752 | A self-delimiting buffer holds only scalar slots, at least one of them, and owns its buffer, its table and its slots |
| `DrawEngine.DrawState.DrawCase` | experiments/schema-with-callbacks/hegel_gen.c:2970-3041 | One of the cases is drawn in two spans, in place for a union and behind a pointer otherwise; the tag is the number the engine answered, and the case the shape mirrors |
| `DrawEngine.DrawState.DrawDepends` | experiments/schema-with-callbacks/hegel_gen.c:3569-3604 | The shape takes over the blocks of the schema the callback returned, and mirrors one of the schemas it can return |
| `DrawEngine.DrawState.DrawStruct` | experiments/schema-with-callbacks/hegel_gen.c:2689-2718 | A boxed struct owns its memory, its field table and its fields, and was drawn inside one span; the arrays its LET_ARRs bound and its drawn-flags are gone again |
| `DrawEngine.DrawState.DrawFields` | experiments/schema-with-callbacks/hegel_gen.c:2612-2655 | Every positional entry leaves the shape its schema calls for, every derived entry is filled by the first or the second pass, bindings leave none; what is held is exactly fields, flags and bound arrays |
| `DrawEngine.DrawState.FillLenOf` | experiments/schema-with-callbacks/hegel_gen.c:2588-2604 | Only undrawn LEN_OF entries naming this field are filled; positional entries and what is held otherwise stay |
| `DrawEngine.DrawState.DrawField` | experiments/schema-with-callbacks/hegel_gen.c:2815-3757 | Every kind of field: blocks, leaves, nesting and spans agree with its shape, which mirrors the schema at the depth that is left; a one-of in a struct leaves no shape |
| `DrawEngine.DrawState.DrawAlloc` | experiments/schema-with-callbacks/hegel_gen.c:2444-2512 | A value behind a pointer, for exactly the kinds that have one; SELF stands for the outermost struct and terminates because the engine refuses branches at `max_depth` |
| `DrawEngine.Then` | experiments/schema-with-callbacks/hegel_gen.c:133-170 | Two steps of an attempt compose: blocks, leaves and spans add, nesting is the larger |
| `DrawEngine.ThenFree` | experiments/schema-with-callbacks/hegel_gen.c:149-154 | Freeing what a step gained takes back exactly that |
| `DrawEngine.GainsFill` | experiments/schema-with-callbacks/hegel_gen.c:2637-2643 | Storing a drawn field in an empty slot adds exactly the field’s blocks, leaves and nesting to what the struct holds |
| `DrawEngine.HeapUntrack` | experiments/schema-with-callbacks/hegel_gen.c:126-130 | Overwriting an entry by the last one and shrinking the table removes that one block from what the record holds |
| `DrawEngine.PartlyAll` | experiments/schema-with-callbacks/hegel_gen.c:2612-2655 | When every entry was passed and every derived one is flagged, all fields mirror their schemas |
| `DrawEngine.MirrorsWith` | experiments/schema-with-callbacks/hegel_gen.c:3601-3603 | Taking over a callback’s schema does not change what a shape mirrors |
| `Bags.SwapRemove` | experiments/schema-with-callbacks/hegel_gen.c:126-130 | The table without entry i, as a multiset |
| `Layout.AlignUpIs` | experiments/schema-with-callbacks/hegel_gen.c:272-276 | `(x + a - 1) & ~(a - 1)` on 64-bit words, bit by bit, is the least multiple of the power of two that is not below x |
| `Layout.AlignedIs` | experiments/schema-with-callbacks/hegel_gen.c:272-276 | An aligned offset is a multiple of the power of two |
| `Layout.MultipleAligned` | experiments/schema-with-callbacks/hegel_gen.c:272-276 | ... and every multiple is aligned |
| `Layout.BlockTidy` | experiments/schema-with-callbacks/hegel_gen.c:2612-2718 | In the block of any built struct, every write of every possible draw lies inside, is aligned to its width and overlaps no other write |
| `Layout.NodeTidy` | experiments/schema-with-callbacks/hegel_gen.c:2815-3041 | The same for any entry in its slot: inline structs, tagged and untagged unions, variants, arrays, pointers, scalars |
| `Layout.UnionTidy` | experiments/schema-with-callbacks/hegel_gen.c:2970-3006 | The tag and the chosen case’s writes stay apart and inside the cluster |
| `Layout.CaseTidy` | experiments/schema-with-callbacks/hegel_gen.c:453-463 | The chosen case, moved by the place of the body, stays inside the body |
| `Layout.FieldsTidy` | experiments/schema-with-callbacks/hegel_gen.c:480-517 | Fields in declaration order write one after the other |
| `Layout.ElementsTidy` | experiments/schema-with-callbacks/hegel_gen.c:2898-2968 | The elements of an ARRAY_INLINE block write apart, aligned, and inside the block |
| `Layout.EveryElementWritten` | experiments/schema-with-callbacks/hegel_gen.c:2898-2968 | Element k of an ARRAY_INLINE block is written at k times the element size, and nothing else is |
| `Layout.CountMisplaced` | experiments/schema-with-callbacks/hegel_gen.c:453-463 | The count of an ARRAY_INLINE in a shifted case stays where the body started: it lands outside its field’s slot |
| `Layout.TaggedIff` | experiments/schema-with-callbacks/hegel_gen.c:453-463 | In a tagged union every field of every case stays in its slot if and only if no case has an ARRAY_INLINE of its own |
| `Layout.CountOnPointer` | experiments/schema-with-callbacks/hegel_gen.c:453-463 | At an input: a tagged union of one case that is one ARRAY_INLINE is built, and writes its count on its own pointer |
| `Layout.StructBuild` | experiments/schema-with-callbacks/hegel_gen.c:465-568 | Against the C layout: a struct is built exactly when the declared size is the least multiple of the layout’s alignment that is not below its end and the declared alignment is no less; its offsets and count offsets are the layout’s. None otherwise |
| `Layout.LayOut` | experiments/schema-with-callbacks/hegel_gen.c:480-517 | The loop over the entries computes the C layout: offsets, count offsets, end and alignment |
| `Layout.LayIsC` | experiments/schema-with-callbacks/hegel_gen.c:480-517 | The layout, without the loop: each entry with a place is at the least multiple of its alignment that is not below the end of the entries before it, an ARRAY_INLINE’s count at the first place for an int after its pointer; the end is that of the last entry, and the alignment is the largest of any entry |
| `Layout.OneLayout` | experiments/schema-with-callbacks/hegel_gen.c:480-517 | No other offsets, end and alignment have these properties |
| `Layout.UnionIsC` | experiments/schema-with-callbacks/hegel_gen.c:643-703 | What the union builder returns: the body at the start, or at its first aligned place after the tag; every case laid out as C does from there; body size and alignment those of the largest cases and no more; the size the least multiple of the alignment that holds tag and body |
| `Layout.EveryFieldWritten` | experiments/schema-with-callbacks/hegel_gen.c:2815-3041 | A draw writes every field at its own offset and in its own width: scalars, set pointers, both parts of an ARRAY_INLINE, tags, variants, and all that nested structs and the picked case write |
| `Layout.LayCase` | experiments/schema-with-callbacks/hegel_gen.c:584-640 | A case is laid out as C lays out a struct from 0, its size the least multiple of its alignment; None exactly when a union or variant is directly in it |
| `Layout.ShiftUnionCases` | experiments/schema-with-callbacks/hegel_gen.c:453-463 | In place: every offset of every case moves by the shift, and nothing else |
| `Layout.UnionMake` | experiments/schema-with-callbacks/hegel_gen.c:643-703 | The body is as large and as aligned as the largest case, after the tag if there is one; None exactly when a case cannot be laid out |
| `Layout.LayCases` | experiments/schema-with-callbacks/hegel_gen.c:662-673 | All cases, the largest size and the largest alignment |
| `Layout.VariantMake` | experiments/schema-with-callbacks/hegel_gen.c:710-745 | Tag at 0, pointer at 8, 16 bytes |
| `Layout.StructIsBuilt` | experiments/schema-with-callbacks/hegel_gen.c:465-568 | (corollary) What the struct builder accepts satisfies the premise of BlockTidy |
| `Layout.UnionIsBuilt` | experiments/schema-with-callbacks/hegel_gen.c:643-703 | What the union builder returns satisfies it too |
| `Layout.VariantIsBuilt` | experiments/schema-with-callbacks/hegel_gen.c:710-745 | (corollary) ... and what the variant builder returns |
| `ShapeLookup.GetOffset` | experiments/schema-with-callbacks/hegel_gen.c:1762-1797 | The two loops compute Lookup: first match wins and is returned even when it is missing, then the inline structs in order |
| `ShapeLookup.GetOffsetFinds` | experiments/schema-with-callbacks/hegel_gen.c:1762-1797 | On a drawn shape whose fields all have shapes: the unique leaf whose summed offset is the request, and NULL exactly when there is none |
| `ShapeLookup.LookupRight` | experiments/schema-with-callbacks/hegel_gen.c:1762-1797 | The same for every drawn shape, with missing slots: leaf, wrapper or NULL, whichever the paths say |
| `ShapeLookup.WrapperIff` | experiments/schema-with-callbacks/hegel_gen.c:1771-1781 | With missing slots: the wrapper struct comes back if and only if an inline struct starts there and no leaf does |
| `ShapeLookup.WrapperComesBack` | experiments/schema-with-callbacks/hegel_gen.c:1771-1781 | At an input: a struct that starts with an inline struct whose only slot is a one-of |
| `ShapeLookup.UniquePath` | experiments/schema-with-callbacks/hegel_gen.c:1738-1742 | Two paths to leaves with the same summed offset are the same path |
| `ShapeLookup.PathInside` | experiments/schema-with-callbacks/hegel_gen.c:1738-1742 | A leaf lies inside the field, and the struct, it is reached through |
| `ShapeLookup.LeafAtZero` | experiments/schema-with-callbacks/hegel_gen.c:1776-1779 | A struct of positive size has a leaf at offset 0, if every field has a shape |
| `Views.StructDraw.DrawStructFields` | experiments/schema-with-callbacks/hegel_gen.c:2612-2655 | When the struct is finished every drawn field holds the bytes its draw put there last (or the zeros it had), every LEN_OF slot its array’s length, every field was drawn exactly once, and every read a callback made through the view still holds. It fails exactly when a callback reads a field that is not drawn at that point, or a LEN_OF names an array without a length |
| `Views.StructDraw.ViewField` | experiments/schema-with-callbacks/hegel_gen.c:2066-2100 | A read succeeds exactly when the first field it fits is drawn, and gives the bytes now at that place, all of them in that field; otherwise it aborts |
| `Views.StructDraw.DrawOne` | experiments/schema-with-callbacks/hegel_gen.c:2629-2646 | Drawing one field, with its writes and its callback’s reads in any order: the field ends with the bytes put last, no other field changes, every earlier read and every length stays in place; it fails exactly when a read finds no drawn field |
| `Views.StructDraw.FillLenOf` | experiments/schema-with-callbacks/hegel_gen.c:2588-2604 | Right after an array is drawn every LEN_OF naming it, declared before or after it, is an int that holds its length, and no other field changes; it fails exactly when one names it and it has no length |
| `Views.StructDraw.DrawLenOf` | experiments/schema-with-callbacks/hegel_gen.c:2557-2583 | A LEN_OF becomes, as an int, the length of the array it names |
| `Views.StructDraw.SecondPass` | experiments/schema-with-callbacks/hegel_gen.c:2648-2655 | The other derived fields, each once |
| `Views.Regions` | experiments/schema-with-callbacks/hegel_gen.c:465-568 | The bytes of distinct fields, count slots included, are apart and inside the struct |
| `Views.HitInside` | experiments/schema-with-callbacks/hegel_gen.c:2084-2090 | A typed read the lookup accepts lies inside the field it was accepted for |
| `Views.CountReadIff` | experiments/schema-with-callbacks/hegel_gen.c:2085-2087 | A read at a count slot is accepted at any width; it stays inside the field if and only if it is no wider than the count |
| `Views.ReadKept` | experiments/schema-with-callbacks/hegel_gen.c:2066-2100 | Writing an undrawn field leaves every accepted read as it was |
| `Views.LengthsKept` | experiments/schema-with-callbacks/hegel_gen.c:2588-2604 | ... and every length in place, as the value of its int |
| `Views.OnlyArraysNamed` | experiments/schema-with-callbacks/hegel_gen.c:534-556 | A LEN_OF the builder accepted names exactly one field, and that field can hold an array |
| `Buffers.DrawBuffer` | experiments/schema-with-callbacks/hegel_gen.c:3617-3752 | The bytes written: length slot and elements, or elements and sentinel; None exactly when the length is negative or does not fit, or an element equals the sentinel |
| `Buffers.PrefixedBack` | experiments/schema-with-callbacks/hegel_gen.c:3617-3752 | Reading a length-prefixed buffer by its first slot recovers exactly the drawn elements, at every width and signedness |
| `Buffers.TerminatedBack` | experiments/schema-with-callbacks/hegel_gen.c:3617-3752 | Scanning a terminated buffer recovers exactly the drawn elements if and only if the element type can hold the sentinel; otherwise the scan finds no end |
| `Buffers.RepresentableIff` | experiments/schema-with-callbacks/hegel_gen.c:1266-1306 | A sentinel is read back from its slot as itself exactly when the element type can hold it |
| `Buffers.WrittenBack` | experiments/schema-with-callbacks/hegel_gen.c:1266-1277 | A value in range of the type is read back as itself |
| `Buffers.BuildCheckMisses` | experiments/schema-with-callbacks/hegel_gen.c:1311-1345 | What the check at build time leaves to the one at draw time: a collision is still possible if and only if a negative sentinel is the int64 view of a drawable unsigned 64-bit value |
| `Buffers.ByteSentinel` | experiments/schema-with-callbacks/hegel_gen.c:3617-3752 | At an input: bytes with the sentinel -1 pass the check at build time, and the scan finds no end |
| `Buffers.WideSentinel` | experiments/schema-with-callbacks/hegel_gen.c:1311-1345 | At an input: full-range unsigned 64-bit elements with the sentinel -1 pass the check at build time, and a draw aborts |
| `Buffers.DrawnAsInt64` | experiments/schema-with-callbacks/hegel_gen.c:1281-1306 | The collision check reads a drawn element as its int64 view |
| `Bindings.CheckedNeverAborts` | experiments/schema-with-let/hegel_gen.c:1743-1838 | A struct that passes the static scope and kind check never aborts in a LET, USE, USE_AT or USE_PATH, whatever the engine answers |
| `Bindings.FieldSafe` | experiments/schema-with-let/hegel_gen.c:2389-3156 | ... entry by entry, with the scopes it leaves fitting their static description |
| `Bindings.LetThenUse` | experiments/schema-with-let/hegel_gen.c:1857-1948 | A USE after a LET, in its struct or below, writes the value the LET drew if and only if the binding is not an int or the value fits one (an unsigned 32-bit value above INT_MAX comes back negative) |
| `Bindings.LetUseWrites` | experiments/schema-with-let/hegel_gen.c:1857-1948 | ... on what is written: a USE after a LET appends exactly the value drawn, as the binding’s kind keeps it |
| `Bindings.LetArrThenUse` | experiments/schema-with-let/hegel_gen.c:2825-2935 | A LET_ARR and the array that reads it back: as many structs with a USE_AT write all the values drawn, in order |
| `Bindings.NameWrites` | experiments/schema-with-let/hegel_gen.c:2825-2935 | From any struct below that does not bind the name: USE writes the scalar, USE_AT the element at the index its scope is drawing, and the same names as lengths; a wrong kind, or an index outside the array, aborts |
| `Bindings.PathWrites` | experiments/schema-with-let/hegel_gen.c:2936-3013 | A path names the scope it skips to, whatever the skipped scopes bind |
| `Bindings.LetBinds` | experiments/schema-with-let/hegel_gen.c:1743-1784 | A LET is done exactly when the engine answers, the name is new in its struct and there is room; it binds what its kind keeps of the answer and changes nothing else |
| `Bindings.ArrayWrites` | experiments/schema-with-let/hegel_gen.c:3015-3156 | An array of ints writes the engine’s next answers, in order, each within its bounds |
| `Bindings.NestedWrites` | experiments/schema-with-let/hegel_gen.c:2389-2824 | Of several structs the one the engine answers is drawn, and only that one |
| `Bindings.FieldsInOrder` | experiments/schema-with-let/hegel_gen.c:2340-2383 | The entries of a struct are drawn in the order they are declared |
| `Bindings.StructScope` | experiments/schema-with-let/hegel_gen.c:2340-2383 | A struct has a scope of its own: whatever is bound around it, a LET in it is what a USE in it writes, and nothing around it changes |
| `Bindings.WideLet` | experiments/schema-with-let/hegel_gen.c:1857-1948 | At an input: an unsigned 32-bit LET that draws 2^31 is used as -2^31, and an array of that length aborts |
| `Bindings.NarrowIff` | experiments/schema-with-let/hegel_gen.c:2000-2022 | A drawn length, stored in the low bytes of a zeroed int, is read as the value drawn exactly when that is in range: never negative for one and two bytes |
| `Bindings.ByteLength` | experiments/schema-with-let/hegel_gen.c:1953-1990 | At an input: a signed byte that draws -1 for the length of a LET_ARR gives 255 elements |
| `Bindings.UseWritesLet` | experiments/schema-with-let/hegel_gen.c:1793-1815 | A bound name keeps its value while the rest of the struct is drawn, nested scopes included |
| `Bindings.FieldsExtend` | experiments/schema-with-let/hegel_gen.c:2340-2383 | Drawing more entries never changes a binding that is there |
| `Bindings.IndexSafe` | experiments/schema-with-let/hegel_gen.c:3069-3155 | (corollary) Inside an ARR_OF the index of its scope is below the length it iterates |
| `Bindings.PathFits` | experiments/schema-with-let/hegel_gen.c:2936-3013 | A checked USE_PATH finds its binding, of the right kind, in range |
| `Bindings.Ctx.Bind` | experiments/schema-with-let/hegel_gen.c:1743-1784 | Appends to the innermost table; refused exactly for a second binding of the name or a seventeenth |
| `Bindings.Lookup` | experiments/schema-with-let/hegel_gen.c:1793-1838 | The loops over the scope chain find the nearest enclosing binding and its scope’s index |
| `Bindings.Drawing.DrawTop` | experiments/schema-with-let/hegel_gen.c:2340-2383 | The drawing loops, over linked scopes with fixed tables, do what the meaning of the schema says, and never abort on a checked one |
| `Bindings.Drawing.DrawField` | experiments/schema-with-let/hegel_gen.c:2389-3156 | One entry: same values written, same answers used, same scopes, same abort |
| `Bindings.Drawing.DrawArray` | experiments/schema-with-let/hegel_gen.c:3015-3156 | The index is saved, set for each element and restored |
| `Bindings.Drawing.DrawLetArr` | experiments/schema-with-let/hegel_gen.c:1953-1990 | A bound array: its length as an int reads it, refused when that is negative, then its elements |
| `Bindings.Drawing.PathName` | experiments/schema-with-let/hegel_gen.c:2965-2981 | Skipping scopes outwards, and failing at the top |
| `Bindings.Drawing.ReadName` | experiments/schema-with-let/hegel_gen.c:2825-2935 | USE and USE_AT |
| `Wire.FramesSurvive` | core/hegel_runner.c:98-121 | Whatever prefix of a stream of frames arrives, exactly the frames that arrived whole are dispatched, in order, with their payloads; never a truncated one |
| `Wire.AllFramesArrive` | core/hegel_runner.c:98-121 | A stream that is not cut off delivers every frame |
| `Wire.DecodeEncode` | core/hegel_runtime.c:71-79 | A frame is decoded from its own bytes |
| `Wire.FrameBytes` | core/hegel_runtime.c:71-79 | The bytes of a frame: op, three zeros, the length lowest byte first, the payload |
| `Wire.NeedPrefix` | core/hegel_runner.c:98-112 | While a frame arrives the receiver asks for its missing bytes and no others |
| `Wire.LERoundTrip` | core/hegel_runtime.c:73-73 | Little-endian fields decode to what was encoded |
| `Wire.LEOnto` | core/hegel_runtime.c:73-73 | ... and encode to what was decoded |
| `Pipes.ReadFull` | core/hegel_runtime.c:40-54 | Through any interruptions and short reads: n bytes exactly when the stream still has n, in order |
| `Pipes.WriteFull` | core/hegel_runtime.c:56-69 | Through any interruptions and short writes: all bytes, or the prefix the reader took before it vanished |
| `Pipes.WriteFrame` | core/hegel_runtime.c:71-79 | A frame is written whole or the sender gives up |
| `Pipes.Buffer.Put` | core/hegel_server.c:36-48 | Appends, moving to a buffer of at least twice the size when it does not fit |
| `Pipes.Receiver.ReceiveFrame` | core/hegel_runner.c:98-112 | The first whole frame of the stream, or nothing at its end; the buffer is reused and read in chunks |
| `Pipes.Receiver.ReceivePayload` | core/hegel_runner.c:101-111 | The payload, in chunks of 4096 |
| `Pipes.Receiver.ServeLoop` | core/hegel_runner.c:98-121 | Dispatches exactly the whole frames of the stream up to the first terminal one |
| `Pipes.Transmit` | core/hegel_runner.c:92-125 | Both ends together: for every way reads and writes are cut short, the receiver dispatches a prefix of the frames sent, as long as the bytes that went through |
| `Handles.EveryHandleFreedOnce` | core/hegel_server.c:84-105 | Over any sequence of cases and requests: every engine object a handle was made for is freed exactly once, and no call ever names an object that is not live or is of another kind |
| `Handles.FreedAtMostOnce` | core/hegel_server.c:84-95 | In any sound log nothing is freed twice |
| `Handles.ServeKeeps` | core/hegel_server.c:318-623 | Every request keeps handles and live engine objects in step, ids are only added, and an id that was freed stays free |
| `Handles.RequestsKeep` | core/hegel_server.c:318-623 | ... over any sequence of requests |
| `Handles.CaseEnds` | core/hegel_server.c:97-105 | At the end of a case nothing made in it is live |
| `Handles.HandleKeeps` | core/hegel_server.c:145-149 | A stale, foreign or wrong-kind id is refused before the engine is called |
| `Handles.FreeCall` | core/hegel_server.c:84-95 | FREE releases the object and retires the id |
| `GenCache.EveryGeneratorFreedOnce` | core/hegel_server.c:221-233 | Over a whole run: each generator the engine built is freed exactly once, at the end of the run |
| `GenCache.TextGenExact` | core/hegel_server.c:186-196 | Hit or miss, a text draw uses a generator built for exactly its bounds |
| `GenCache.RegexGenExact` | core/hegel_server.c:198-219 | The exact condition: a regex request uses a generator built for exactly its pattern if and only if the entry it hits, if any, is of a pattern without a NUL |
| `GenCache.EveryRegexExact` | core/hegel_runtime.c:384-394 | Over a whole run whose regex requests carry no NUL, as none that hegel_draw_regex sends does: at any point of any case a served regex request draws from a generator built for exactly its pattern |
| `GenCache.NulPatternRun` | core/hegel_server.c:200-203 | At an input: after a draw of the three-byte pattern a, NUL, b a request for a gets the longer pattern’s generator |
| `GenCache.NulPatternMisleads` | core/hegel_server.c:200-203 | When a pattern with an embedded NUL is the first hit for its part before the NUL, a request for that part gets the generator of the longer one |
| `GenCache.ServeKeepsCache` | core/hegel_server.c:318-623 | Every request keeps the cache true to the engine log |
| `GenCache.CasesKeepCache` | core/hegel_server.c:221-233 | ... over any sequence of cases |
| `Transport.TransportsAgree` | core/hegel_runtime.c:113-207 | For every body without HEGEL_ISOLATED, every engine and every pipe capacity: whatever the schedule of parent and child and however reads and writes are split, a piped run that ends has the status, health flag, origin, message, engine calls and captured lines of the in-process run |
| `Transport.OneVerdict` | core/hegel_runner.c:92-125 | No two schedules, and no schedule and the in-process run, can disagree |
| `Transport.RunMeans` | core/hegel_runtime.c:113-207 | What a body sees and how its case ends, from the engine’s answers alone: each thing it has seen is what its own action at that point asked for (the value the server answered, a retry, a caught assume, a note or rule mark), and a case that is over was decided by its last action: stop is Overrun, an error a health failure with the engine’s text, an assume outside every rule Invalid, a failure Interesting with origin and text, a return Valid |
| `Transport.PipedRunMeans` | core/hegel_runtime.c:113-207 | ... and so over the pipes, whatever the schedule |
| `Transport.StepMeans` | core/hegel_runtime.c:151-207 | ... step by step, captured lines included |
| `Transport.NeverStuck` | core/hegel_runner.c:92-125 | Until there is a verdict some process can move, whatever was scheduled before and however few bytes a pipe holds: a write into a full pipe waits, and no schedule deadlocks |
| `Transport.EveryScheduleEnds` | core/hegel_runner.c:92-125 | Every endless schedule of a body that ends in-process reaches its verdict |
| `Transport.Step` | core/hegel_runtime.c:139-207 | One move of either process keeps the piped run in step with the in-process one |
| `Transport.Simulates` | core/hegel_runtime.c:139-207 | ... so every schedule does |
| `Transport.NoDeadlock` | core/hegel_runtime.c:139-207 | In every state a schedule can reach without a verdict a move is enabled; where a pipe is full, its reader can move |
| `Transport.FlowFalls` | core/hegel_runtime.c:40-69 | (corollary) A move the in-process run does not follow brings the pipes nearer to rest |
| `Transport.SameOutcome` | core/hegel_server.c:580-612 | The verdict the parent unpacks from a terminal frame is the one the in-process run loop fills in |
| `Transport.RequestsAreAnswered` | core/hegel_server.c:318-623 | A request that is not a note is answered, and a stop is remembered exactly when it is reported |
| `Transport.AnswerRead` | core/hegel_runtime.c:170-200 | The response the child has read is the one the server gave |
| `Isolated.IsolatedAgrees` | core/hegel_runtime.c:651-741 | For sites of 1 to 255 bytes and any block that passes, asserts, assumes, misuses the engine, crashes or exits: the forked block without fork and the inline block in a forked case give the same case status, origin, health flag, engine calls and lines, and go on alike |
| `Isolated.IsolatedMeans` | core/hegel_runtime.c:628-741 | What a body with blocks sees and how its case ends, from its own actions alone: outside its blocks as in a run without any; a block that passes is passed, one that assumes is caught by a rule or ends the case Invalid, one that fails or dies ends it Interesting under the block’s origin with its line captured, one that misuses the engine or nests is a health failure |
| `Isolated.AgreesExactly` | core/hegel_runtime.c:113-130 | The two runs stay alike step by step if and only if no block assumes inside a stateful rule |
| `Isolated.VerdictsAgreeIff` | core/hegel_runtime.c:151-162 | When the verdicts differ: after such an assume status, health flag and origin still agree if and only if the body does nothing more that looks at the block it is in, or fails under the block’s own origin, or calls the engine or enters a block in a case that is a health failure anyway |
| `Isolated.RuleBodyParts` | core/hegel_runtime.c:151-162 | At an input: a body that enters a rule, assumes in a block there, draws and returns is valid without fork and a health failure in a forked case |
| `Isolated.AssumeInRule` | core/hegel_runtime.c:113-118 | Such an assume ends the block in one mode and leaves the runtime believing it is still in it in the other |
| `Isolated.NextCallRefused` | core/hegel_runtime.c:151-162 | ... so the body’s next engine call is a health failure there, without reaching the engine |
| `Isolated.CrashOriginIff` | core/hegel_runner.c:127-151 | A crash in a block gets the same origin in both modes exactly for sites of 1 to 255 bytes |
| `Isolated.DeathAlike` | core/hegel_runtime.c:628-649 | A block that dies is reported under the block’s origin in both modes |
| `Isolated.EndAlike` | core/hegel_runtime.c:682-728 | A block that leaves by an exit: the relayed verdict, raised again, is the exit itself |
| `Isolated.PassAlike` | core/hegel_runtime.c:731-741 | A block that passes |
| `Isolated.NoteAlike` | core/hegel_runtime.c:688-703 | A note in a block reaches the capture in both modes |
| `Stateful.Driver.RunOneCase` | core/hegel_stateful.c:180-243 | The nested loops make, on every run prefix and for every answer of engine and user functions, only traces the monitors accept; a run that returns restored the outer rule escape, closed its span and ran the last invariants; one that is left was left by its last event, or by a pick that is not a rule, or has no rules |
| `Stateful.Driver.Turn` | core/hegel_stateful.c:207-236 | One round and its invariants, or the end |
| `Stateful.Driver.Rules` | core/hegel_stateful.c:213-234 | The rules of one round: it returns only after the engine answered SM_DONE for its last pick; whether one was rejected is what the span is closed with; it is left only by an event that escaped, with that event’s code, or with a health failure right after a pick of something that is not a rule |
| `Stateful.Driver.Try` | core/hegel_stateful.c:219-233 | One pick to its end: its precondition, which may also escape and leave the case, its numbered step, its body, and REJECTED if it failed |
| `Stateful.Driver.RunRule` | core/hegel_stateful.c:165-178 | The outer rule escape is back after a finished and after a rejected rule; any other escape leaves the case |
| `Stateful.Driver.CheckInvariants` | core/hegel_stateful.c:154-159 | Every invariant in order, each asked for first unless unconditional |
| `Stateful.BodyAfterPick` | core/hegel_stateful.c:213-231 | A rule body runs only right after the engine picked that rule, with its precondition, if any, true of the very state the body gets |
| `Stateful.RejectedExactly` | core/hegel_stateful.c:219-233 | (corollary) REJECTED follows every failed precondition and every assumed rule at once, and nothing else |
| `Stateful.SpanDiscardedIff` | core/hegel_stateful.c:207-236 | Each round is one span, discarded if and only if a pick in it was rejected |
| `Stateful.SpanClosedIff` | core/hegel_stateful.c:205-236 | A span is closed right after the engine said that it has no more rules for the round, or no more groups, and never otherwise |
| `Stateful.EndsWithoutGroups` | core/hegel_stateful.c:205-212 | A run that came to its end closed its last span because the engine had no more groups |
| `Stateful.StrayIsLast` | core/hegel_stateful.c:215-218 | Nothing follows a pick of something that is not a rule |
| `Stateful.InvariantsFollow` | core/hegel_stateful.c:235-237 | Between two rounds lie exactly the invariant checks |
| `Stateful.InvariantsFirst` | core/hegel_stateful.c:198-202 | Before the first round every invariant runs, unasked |
| `Stateful.InvariantsLast` | core/hegel_stateful.c:239-240 | ... and after the last one, on the final state |
| `Stateful.StepsNumbered` | core/hegel_stateful.c:224-227 | Steps are numbered 1, 2, 3, … without a gap |
| `Stateful.LeavingIsLast` | core/hegel_runtime.c:113-130 | (corollary) Nothing follows an escape that left the case |
| `Codecs.SmCreate` | core/hegel_stateful.c:101-124 | The payload of a new machine |
| `Codecs.MachineBack` | core/hegel_server.c:499-532 | The server unpacks exactly the rule and invariant counts, the step budget and every name that were packed |
| `Codecs.NamesBack` | core/hegel_server.c:507-514 | Length-prefixed names come back whole, with nothing left over |
| `Codecs.FailBack` | core/hegel_server.c:590-602 | The origin and the message of a FAIL come back cut to the buffers: whole exactly below 512 and 1024 bytes |
| `Codecs.PackedBytes` | core/hegel_stateful.c:101-124 | The very bytes of a small machine request and of a small failure |
| `Codecs.DrawU64` | core/hegel_server.c:285-305 | The value is in [min, max]: from the 64-bit entry point when that can hold max, else from the big one, bytes decoded back |
| `Codecs.Bound` | core/hegel_server.c:293-298 | The nine bytes, read as two’s complement, denote the bound |
| `Codecs.EveryU64` | core/hegel_server.c:293-304 | Every unsigned 64-bit value has a 9-byte form that decodes back to it |
| `Codecs.Positive` | core/hegel_server.c:299-303 | A value that fits 64 bits is what its low eight bytes say, however many the engine wrote |
| `Codecs.ShiftsAreLE` | core/hegel_server.c:294-297 | Byte i by shifting is byte i of the little-endian form |
| `Server.CStrWhole` | core/hegel_server.c:573-578 | A string kept in a char buffer is whole exactly when it is shorter than the buffer, and its first cap - 1 bytes otherwise |
| `Server.TruncatedIff` | core/hegel_server.c:243-249 | Reading any fields one after the other: the request is marked bad exactly when it is shorter than its fields together; otherwise the fields are its first bytes, in order, and the rest is left |
| `Server.DrawServed` | core/hegel_server.c:331-401 | A draw, span or target request with all its fields: refused without an engine call exactly when min is above max (signed for an integer, unsigned for a u64), and otherwise one engine call with the request’s own bytes, whose return code and value are what is answered |
| `Server.DrawTruncated` | core/hegel_server.c:243-249 | A draw request shorter than its fields never succeeds |
| `Server.HandleTruncated` | core/hegel_server.c:243-249 | ... nor one on a handle |
| `Server.CreateTruncated` | core/hegel_server.c:243-249 | ... nor one that makes a collection or a recursion |
| `Server.TextServed` | core/hegel_server.c:360-379 | A text draw uses a generator of its own bounds: the one the run has, or one made now; a generator the engine refuses ends the request |
| `Server.RegexServed` | core/hegel_server.c:360-379 | A regex draw uses a cached generator whose pattern is the request’s as C strings, or makes one from all the request’s bytes over the alphabet without NUL, made once a run |
| `Server.CreateServed` | core/hegel_server.c:402-532 | A request that makes an object: refused without an engine call when malformed or with min above max; when the engine agrees, the answer is an id that was free and now stands for the new object, and no other id changes |
| `Server.HandleServed` | core/hegel_server.c:413-562 | A request on a handle: refused without an engine call unless the id stands for a live object of its kind; a free closes that id and no other; anything else is one call on that very object |
| `SplitOracle.SplitModel.ModelSplit` | submissions/linux-sg-split-series/v3-agent/evidence/sgcase_x.h:292-336 | For every list of entries and every request in range: neither no_first nor insufficient, and the splits are those of the specification; overshoot exactly as defined. For every request without a size of 2^63 or more: insufficient exactly when some split has an entry left to start in but not the bytes it needs |
| `SplitOracle.SpecValid` | submissions/linux-sg-split-series/v3-agent/evidence/sgcase_x.h:265-270 | True exactly when skip is not negative and the unsigned sum, which may wrap, is within the input |
| `SplitOracle.FindFirst` | submissions/linux-sg-split-series/v3-agent/evidence/sgcase_x.h:299-303 | The first entry that reaches skip, and the position in it; none exactly when skip is beyond the input |
| `SplitOracle.Cut` | submissions/linux-sg-split-series/v3-agent/evidence/sgcase_x.h:304-332 | One split: where it ends, whether inside an entry, and where the next one starts |
| `SplitOracle.SplitTiles` | submissions/linux-sg-split-series/v3-agent/evidence/sgcase_x.h:304-332 | The entries of a split supply exactly its bytes and no other entry has any of them |
| `SplitOracle.EndsContribute` | submissions/linux-sg-split-series/v3-agent/evidence/sgcase_x.h:338-355 | A split of positive size takes bytes from its first counted entry and from its last, and none from the entries skipped |
| `SplitOracle.ModelNentsV3` | submissions/linux-sg-split-series/v3-agent/evidence/sgcase_x.h:342-355 | The loop computes the v3 count of a split |
| `SplitOracle.CountBound` | submissions/linux-sg-split-series/v3-agent/evidence/sgcase_x.h:342-355 | v3 counts are at least 1 and sum to at most N + nb - 1 |
| `SplitOracle.SplitsUnique` | submissions/linux-sg-split-series/v3-agent/evidence/sgcase_x.h:292-336 | The splits of a request are determined by the specification |
| `SplitOracle.AcceptedIff` | submissions/linux-sg-split-series/v3-agent/evidence/sgcase_x.h:265-270 | What the validity check accepts can be split exactly when the unsigned sum did not wrap |
| `SplitOracle.WrappedSum` | submissions/linux-sg-split-series/v3-agent/evidence/sgcase_x.h:265-270 | At an input the interface admits and the harness never draws: two sizes of 2^63 wrap, and the request is accepted and not in range |
| `Fdesc.ScanPrint` | submissions/linux-sg-split-series/v3-agent/evidence/sgfake.h:59-84 | Scanning the printed text gives back every description whose counts are in range and whose unused slots are zero |
| `Fdesc.ScannedIsPrintable` | submissions/linux-sg-split-series/v3-agent/evidence/sgfake.h:72-84 | (corollary) Only such descriptions ever come back, from any text |
| `Fdesc.Print` | submissions/linux-sg-split-series/v3-agent/evidence/sgfake.h:59-70 | The loops write exactly the description’s text, into a buffer it fits |
| `Fdesc.TextSample` | submissions/linux-sg-split-series/v3-agent/evidence/sgfake.h:59-70 | The very text of a small description |
| `Fdesc.Desc.Scan` | submissions/linux-sg-split-series/v3-agent/evidence/sgfake.h:72-84 | The loops read, from any text, exactly what the token grammar says: 0 and all fields, or -1 |
| `Fdesc.ParseNumbers` | submissions/linux-sg-split-series/v3-agent/evidence/sgfake.h:72-84 | The four nested counts are read back together with the runs they govern |
| `Fdesc.TokensOfLine` | submissions/linux-sg-split-series/v3-agent/evidence/sgfake.h:59-70 | The numbers of a printed line are the numbers printed |
| `Fdesc.ReadBack` | submissions/linux-sg-split-series/v3-agent/evidence/sgfake.h:61-69 | A printed number is read back if no digit follows it, with or without a space before it |
| `ForkClean.Replay` | core/hegel_runner.c:237-252 | For a main() that is a function of its earlier results, skipped runs included: a re-executed child whose target is at most run 4096 sees the parent’s results and becomes the child at exactly that run |
| `ForkClean.ReplayExactly` | core/hegel_runner.c:513-515 | For any target: it sees what the parent saw if and only if no failure fell beyond the 4095 results kept |
| `ForkClean.SameResults` | core/hegel_runner.c:241-244 | The child’s results agree with the parent’s for as long as none it lacks is a failure |
| `ForkClean.OthersSkipped` | core/hegel_runner.c:494-516 | When run n is replayed every other run is a pass, whatever it would give |
| `ForkClean.Runner.RunProperty` | core/hegel_runner.c:494-516 | Each run is numbered and its result appended, in the string’s room |
| `ForkClean.CleanChild.RunMain` | core/hegel_runner.c:237-265 | main() from the top in the re-executed process: it sees the recorded results run by run, until it exits or this process becomes the child of the target run |
| `ForkClean.ForkAt` | core/hegel_runner.c:241-285 | Both executions: the parent runs main() up to run t and hands over its results; the re-executed process sees the parent’s results and becomes the child of that very run if and only if no failure fell beyond what is kept, and nothing can up to run 4096 |
| `ForkClean.FailureLost` | core/hegel_runner.c:513-515 | At an input: a failure at run 4096 is lost, and main() sees a pass in the child of run 4097 |
| `ForkClean.EnvRoundTrip` | core/hegel_runner.c:217-229 | What the parent puts in the environment is what the child starts from |
| `ForkClean.EnvSample` | core/hegel_runner.c:217-229 | The very text for a child of run 12 |

## Left out

Whole parts:

- libhegel and its loading: an oracle with the contract above.
- Real fork, exec, waitpid, signals, personality, dup2 and stdio; what is kept is that a child ends
  with a terminal frame or its stream ends.
- Floating-point draws, text and regex contents, span labels, report printing, the database and
  environment settings other than the fork-clean variable.
- The random drawing and output checks of the scatterlist harness, and the kernel's `sg_split`.
- `tools/`, `scripts/`, the MPI and bench programs.

Restrictions of the models, each one the source's own or a stated gap:

- Draws from inside callbacks, and shared schemas returned by them; a callback that builds a schema
  is the finite family of schemas it can return.
- SELF below a nested HEGEL_STRUCT, which the source points at the outermost struct; a SELF that is
  not behind an optional.
- Values are not part of `DrawEngine.dfy`: it proves ownership, spans, recursion and the form of
  the shape; what is written is in `Layout.dfy`, `Views.dfy`, `Buffers.dfy` and `Bindings.dfy`.
- The blocks of a callback's schema are freed first to last; the source frees them in tree order.
- DEPENDS and derived slots in the write layout of `Layout.dfy`; they are slots of a declared size
  and alignment, like scalars. The lookup of `ShapeLookup.dfy` leaves out a DEPENDS whose callback
  returns an inline struct, which puts a struct's shape in such a slot.
- A schema node shared between two parents, whose ARRAY_INLINE count would be laid out twice.
- Layout sums that wrap a 64-bit word: the builders' methods require that they do not.
- LEN_OF naming a field of another struct, and a struct with no bytes.
- LET inside a union case, and a length schema other than a constant, a drawn integer of up to four
  bytes or a USE.
- A FLOAT binding is an opaque value; its bytes are copied, never computed with.
- `hegel__serve_op` works on values; the buffer it answers into is in `Pipes.dfy`.
- The wording of engine diagnostics, and trace output.
- A break or return out of a HEGEL_ISOLATED block, a block nested in a block, and what a block does
  to the memory of the body.
- Notes and spans opened inside rule bodies, the draws-abandoned hook and the teardown hook.
- Transport.TransportsAgree: bodies that crash or run a HEGEL_ISOLATED block are left to
  `Isolated.dfy`, which works on whole frames.
- Transport.EveryScheduleEnds: a schedule is a list of enabled moves; fairness of the operating
  system is not modelled.
- Transport.NeverStuck: a write may take part of its bytes into what room is left; that a pipe
  write of up to PIPE_BUF bytes is all or nothing is not modelled.
- Isolated.IsolatedAgrees: what an outer body sees of a block is that it was passed; the frames of a
  block are whole, and their bytes are not composed with the pipes of `Transport.dfy`.
- Views.StructDraw.DrawStructFields: a callback's reads are typed reads; a read wider than the
  count slot is the subject of `Views.CountReadIff`. What a callback reads does not choose what it
  does next; every sequence of writes and reads is covered.
- ForkClean.EnvRoundTrip: the numbers in the environment variable are unbounded.
- Fdesc.ScanPrint: printed and scanned numbers are unbounded; scanning a number its type cannot
  hold is undefined (section 7.21.6.2 of ISO/IEC 9899:2011), and a printed one is within its type.
- Fdesc.Desc.Scan: numbers are unbounded, as above.
- Fdesc.Print: the buffer is large enough; snprintf past its end is not modelled.
- Bindings.CheckedNeverAborts: HEGEL_USE of an array binding is refused, as in the source; the
  check compares lengths by their bounds or by name, and refuses what it cannot compare.
