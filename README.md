# A Dafny model of the SAT-solving workspace core

This project models, in Dafny, the sequential core of a Rust workspace of SAT
tools. It states and proves properties of that model. The core has two halves.

**The `simple-sat` CDCL solver** (`lib/simple-sat`), with the containers it is
built from:

- literals `2 * var + negated` and the three-valued `LBool` (`SatLit`, `LBool`);
- the per-variable assignment (`Assignment`);
- the 1-based arena and the bit-trie of cubes (`Arena`, `SatTrie`);
- the clause allocator and the watch lists (`SatClause`, `Watch`);
- the index vector and the index-tracked binary heap (`IdxVec`, `IdxHeap`).
  `lib/simple-sat/src/index_map.rs` holds the same `IdxVec` and `IdxHeap` code
  as `lib/simple-sat/src/idx/idx_vec.rs` and `idx/idx_heap.rs`, so one model
  serves both, and the rows below cite whichever file states a property;
- the Luby restart sequence and the DIMACS clause tokeniser (`SatUtils`);
- the solver itself (`Solver`, with the trail kept as a value in `SolverTrail`
  and conflict analysis in `SolverAnalyze`). It is a class whose methods
  update the trail, the level markers, the propagation queue head, the watch
  lists, the clause store and the decision heap in place. Clause references
  (`Rc<Clause>`) become indices into the clause store.

**The CNF-encoding layer** (`lib/core`) and the examples built on it:

- literals, clauses and CNF sinks (`CoreLit`, `CoreClause`, `Cnf`);
- the clause-emitting logical operations (`Ops`);
- the lexicographic comparisons with a constant bit vector (`CoreRel`);
- the Bailleux–Boufkhad totalizer (`CoreTotalizer`);
- Boolean expressions, their NNF conversion, Tseytin reification and the
  rewriting simplifier (`CoreExpr`, `CoreNnf`, `CoreSimplify`);
- the one-hot `CnfEncoder` (`CoreEncoder`);
- clause derivation from the hard cubes of a backdoor (`BackdoorDerivation`);
- the interval-partitioning bit utilities, interval encodings and argument
  parsers (`PartUtils`, `PartInterval`, `PartParsers`);
- the formula-synthesis example (`BfCircuit`, `BfMap`, `BfTable`, `BfEncoder`,
  `BfEncodingFormula`). Its `new_direct` returns a `DomainVar`
  (`examples/bf/src/domainvar.rs`), which has the same keys/values shape as
  `examples/bf/src/map.rs`. Both are modelled by `BfMap.Map`;
- the IPASIR and MiniSat literal types (`IpasirTypes`, `MinisatLit`).

Shared helper modules:

- `Wrappers` holds `Option`/`Result`.
- `Semantics` reads a literal `v`/`-v` under a model `m: nat -> bool`, a
  clause as a disjunction and a clause list as a conjunction.
- `Text` models decimal `Display`, `str::parse` and splitting.
- `BitVec` holds powers of two and most-significant-bit-first numbers.
- `Seqs` holds sequence facts.

Code that mutates state becomes classes and methods with `modifies` clauses.
Each method is proved against a specification function of the old state, in
the form "new clauses = old clauses + F(inputs)". Its logical meaning is
then proved about `F`. For example, a model satisfies `F` exactly when
`x >= a`, or exactly when the node values compute the truth table. A panic in
the source is an explicit error outcome (`None`, `Aborted`), or a precondition
where the source documents its callers' obligation.

## Model

| member | source | states |
|---|---|---|
| SatLit.New | lib/simple-sat/src/lit.rs:11-13 | the literal decodes to the polarity and to `var` modulo 2^31: the top bit of `var` is shifted out of the 32-bit word |
| SatLit.Var | lib/simple-sat/src/lit.rs:19-21 | the variable is the code shifted right by one: `2*var <= code <= 2*var + 1` |
| SatLit.Negated | lib/simple-sat/src/lit.rs:24-26 | a literal is negated exactly when the low bit of its code is set |
| SatLit.Sign | lib/simple-sat/src/lit.rs:28-34 | the sign is -1 exactly for a negated literal and 1 otherwise |
| SatLit.Index | lib/simple-sat/src/lit.rs:36-38 | the index is `2*var + (1 if negated)`, i.e. the code |
| SatLit.Not | lib/simple-sat/src/lit.rs:52-67 | `!l` and `-l` keep the variable and flip only the polarity |
| SatLit.XorBool | lib/simple-sat/src/lit.rs:70-77 | `l ^ b` keeps the variable and flips the polarity exactly when `b` |
| SatLit.NewRoundTrip | lib/simple-sat/src/lit.rs:11-26 | for variables below 2^31, `var(new(v, n)) == v` and `negated(new(v, n)) == n` |
| SatLit.NewOfParts | lib/simple-sat/src/lit.rs:11-26 | every literal is rebuilt by `new` from its variable and polarity |
| SatLit.NotInvolutive | lib/simple-sat/src/lit.rs:52-58 | negation is an involution without fixed points |
| SatLit.ToExternal | lib/simple-sat/src/lit.rs:40-42 | the result is an `i32`; up to variable number `i32::MAX` it is non-zero, negative exactly for a negated literal, and its magnitude is the variable number; the last variable, number 2^31, wraps to `i32::MIN` |
| SatLit.WrapI32 | lib/simple-sat/src/lit.rs:40-42 | `as i32` keeps the value modulo 2^32 and lands in the `i32` range |
| SatLit.ExternalWraps | lib/simple-sat/src/lit.rs:40-48 | for the last variable both literals become `i32::MIN`, which `from_external` reads back as the negated literal |
| SatLit.FromExternal | lib/simple-sat/src/lit.rs:44-48 | the variable comes from the magnitude minus one, the polarity from the sign |
| SatLit.ExternalRoundTrip | lib/simple-sat/src/lit.rs:40-48 | `from_external(to_external(l)) == l` |
| SatLit.InternalRoundTrip | lib/simple-sat/src/lit.rs:40-48 | `to_external(from_external(e)) == e` for every non-zero `i32` other than `i32::MIN` |
| LBool.IsUndef | lib/simple-sat/src/lbool.rs:13-15 | `is_undef` holds only for Undef |
| LBool.FromBool | lib/simple-sat/src/lbool.rs:18-26 | true maps to True, false to False, never Undef |
| LBool.Xor | lib/simple-sat/src/lbool.rs:29-42 | Undef stays Undef; otherwise the result is True exactly when the value differs from the flag |
| LBool.XorTable | lib/simple-sat/src/lbool.rs:48-56 | the six cases of the unit test |
| LBool.XorInvolutive | lib/simple-sat/src/lbool.rs:29-42 | `(x ^ b) ^ b == x` |
| LBool.XorFalse | lib/simple-sat/src/lbool.rs:29-42 | `x ^ false == x` |
| Assignment.LitValue | lib/simple-sat/src/assignment.rs:39-41 | a literal is Undef exactly when its variable is; a positive literal reads the variable's value, a negated one swaps True and False |
| Assignment.LitValueNot | lib/simple-sat/src/assignment.rs:39-41 | the two literals of a variable read opposite values |
| Assignment.Assignment.constructor | lib/simple-sat/src/assignment.rs:14-16 | the assignment starts empty |
| Assignment.Assignment.Value | lib/simple-sat/src/assignment.rs:39-41 | `value(lit)` is `LitValue` of the stored values |
| Assignment.Assignment.Set | lib/simple-sat/src/assignment.rs:29-33 | a write through `index_mut` is read back for that variable; every other variable keeps its value |
| Arena.GetAfterAlloc | lib/simple-sat/src/arena.rs:20-36 | looking up the id just allocated returns the new item; older ids keep their items |
| Arena.Arena.constructor | lib/simple-sat/src/arena.rs:12-14 | a new arena is empty and its next id is 1 |
| Arena.Arena.NextId | lib/simple-sat/src/arena.rs:29-31 | the next id is the length plus one, and never 0 |
| Arena.Arena.Alloc | lib/simple-sat/src/arena.rs:16-27 | `alloc` returns the old next id, which is the new length; the item is stored under it and every earlier id is unchanged |
| Arena.Arena.Get | lib/simple-sat/src/arena.rs:33-36 | `get(id)` returns the item at 0-based position `id - 1`, for `0 < id <= len` |
| ClauseAllocator.ClauseAllocator.constructor | lib/simple-sat/src/clause_allocator.rs:24-29 | no clauses and no learnt references |
| ClauseAllocator.ClauseAllocator.Alloc | lib/simple-sat/src/clause_allocator.rs:55-67 | the reference is the old number of clauses; the clause is appended with its literals and flag; a learnt clause's reference is appended to `learnts`, which is otherwise unchanged |
| IdxVec.Grown | lib/simple-sat/src/idx/idx_vec.rs:51-59 | `init_by(k, f)` grows the vector to at least `k + 1` entries with new entries `f()`, and keeps every existing entry |
| IdxVec.IdxVec.constructor | lib/simple-sat/src/idx/idx_vec.rs:14-20 | a new vector is empty |
| IdxVec.IdxVec.InitBy | lib/simple-sat/src/idx/idx_vec.rs:51-59 | the vector becomes `Grown(old, k, d)`, and `contains_key(k)` holds afterwards |
| IdxVec.IdxVec.Clear | lib/simple-sat/src/idx/idx_vec.rs:65-67 | the vector is empty and no key is contained |
| IdxVec.IdxVec.Get | lib/simple-sat/src/idx/idx_vec.rs:69-71 | `get` is None exactly when the key is out of range, else the stored entry |
| IdxVec.IdxVec.Push | lib/simple-sat/src/idx/idx_vec.rs:76-78 | the value is appended, so the old length becomes a contained key |
| Watch.Pushed | lib/simple-sat/src/watch.rs:33-35 | after `insert(lit, w)`, `lit`'s list ends with `w` and every other list is unchanged |
| Watch.WatchList.constructor | lib/simple-sat/src/watch.rs:20-22 | no lists |
| Watch.WatchList.Init | lib/simple-sat/src/watch.rs:24-27 | both literals of the variable get a list, existing lists are kept |
| Watch.WatchList.Lookup | lib/simple-sat/src/watch.rs:29-31 | `lookup(lit)` is exactly `lit`'s list |
| Watch.WatchList.Insert | lib/simple-sat/src/watch.rs:33-35 | the lists become `Pushed(old, lit, w)` |
| SatUtils.BitsBounds | lib/simple-sat/src/utils.rs:68-74 | `Bits(i)` is the length of the binary form of `i`: `2^(Bits(i)-1) <= i < 2^Bits(i)` |
| SatUtils.LubyCanonical | lib/simple-sat/src/utils.rs:65-83 | every complete subsequence of size `2^k - 1` that holds index `i` gives the same Luby exponent |
| SatUtils.LubyHalve | lib/simple-sat/src/utils.rs:76-80 | one round of the second loop halves the subsequence, keeps the index inside it, and keeps the exponent |
| SatUtils.LubyDescent | lib/simple-sat/src/utils.rs:76-80 | the second loop ends with `seq` equal to the exponent of index `x` in the subsequence it started in |
| SatUtils.Luby | lib/simple-sat/src/utils.rs:65-83 | `luby(y, x)` is `y` to the Luby exponent of the 1-based index `x + 1`, provided `x + 1` fits in `u32` |
| SatUtils.LubyPrefix | lib/simple-sat/src/utils.rs:65-83 | the sequence starts 1, 1, 2, 1, 1, 2, 4, 1, 1, 2 |
| SatUtils.ParseTokens | lib/simple-sat/src/utils.rs:56-59 | every token parses as an `i32`, in order; otherwise there is a token that does not (the `expect` panic) |
| SatUtils.FromExternals | lib/simple-sat/src/utils.rs:62 | each number becomes `Lit::from_external` of it, in order |
| SatUtils.ParseDimacsClause | lib/simple-sat/src/utils.rs:55-63 | a line succeeds exactly when every token parses as an `i32`, there is at least one token, the last is 0 and no earlier one is 0 (otherwise one of the `expect`, `unwrap` and `assert_eq!` panics, or `from_external` of 0); a success has one token more than literals and maps every other token to its literal |
| Text.SplitWhitespace | lib/simple-sat/src/utils.rs:56-57 | `split_whitespace` yields non-empty tokens without Unicode whitespace; a non-empty text without whitespace is its own single token |
| Text.SplitSpaced | lib/simple-sat/src/utils.rs:56-57 | splitting non-empty whitespace-free tokens, each followed by a space, gives the tokens back |
| Text.ParseSigned | lib/simple-sat/src/utils.rs:58 | `parse::<i32>` (an optional sign, then digits only) yields only values in the type's range |
| Text.ParseSignedRoundTrip | lib/simple-sat/src/utils.rs:58 | `parse` of the decimal text of an in-range integer gives it back |
| Text.ParseUnsigned | lib/partition/src/parsers.rs:20-24 | `parse` for an unsigned type (an optional `+`, then digits only) yields only values below the type's bound |
| Text.ParseUnsignedRoundTrip | lib/partition/src/parsers.rs:20-24 | `parse` of the decimal text of an in-range number gives it back |
| Text.SplitOnce | lib/partition/src/parsers.rs:18 | `splitn(2, sep)` gives the whole text when `sep` is absent, else the text before the first `sep` and the rest |
| Text.JoinedSplit | lib/partition/src/parsers.rs:18 | `splitn(2, sep)` of `a + sep + b`, with no `sep` in `a`, gives `[a, b]` |
| Text.SplitJoined | lib/partition/src/parsers.rs:7 | `split(sep)` of pieces without `sep` joined by `sep` gives the pieces back |
| SatUtils.TokensRoundTrip | lib/simple-sat/src/utils.rs:56-59 | a line of formatted `i32`s followed by `0` splits and parses back to those numbers and the 0 |
| SatUtils.ExternalsRoundTrip | lib/simple-sat/src/utils.rs:62 | mapping the external forms of literals back with `from_external` gives the literals |
| SatUtils.ParseClauseLine | lib/simple-sat/src/utils.rs:55-63 | reading back the DIMACS line of a clause gives the clause |
| SatTrie.NewNode | lib/simple-sat/src/trie.rs:14-21 | a new node has the given parent, no children and no end mark |
| SatTrie.ChildOf | lib/simple-sat/src/trie.rs:52-57 | a child is `0` or a later node whose parent is this node |
| SatTrie.ChildOfExtends | lib/simple-sat/src/trie.rs:62-79 | a present child link is never redirected by later inserts |
| SatTrie.Find | lib/simple-sat/src/trie.rs:92-101 | the node reached is `0` or a node of the arena |
| SatTrie.FindZeroStays | lib/simple-sat/src/trie.rs:92-101 | once a child is missing the walk yields `0` for every longer word |
| SatTrie.FindStep | lib/simple-sat/src/trie.rs:94-99 | one loop round: follow the bit unless already off the trie |
| SatTrie.FindExtends | lib/simple-sat/src/trie.rs:62-101 | a path present in a trie leads to the same node after further inserts |
| SatTrie.ContainsExtends | lib/simple-sat/src/trie.rs:62-90 | inserting never removes a contained word |
| SatTrie.FindDepth | lib/simple-sat/src/trie.rs:92-115 | the node a word leads to lies `|w|` parent links below the root |
| SatTrie.LinkedWellFormed | lib/simple-sat/src/trie.rs:66-68 | allocating a missing child keeps the trie well formed, keeps all old nodes and links the new node |
| SatTrie.Step | lib/simple-sat/src/trie.rs:65-75 | one step of `insert` ends at a node of a well-formed arena |
| SatTrie.StepMeaning | lib/simple-sat/src/trie.rs:65-75 | one step keeps the old trie, allocates at most one node, and ends at the child along the bit |
| SatTrie.Walk | lib/simple-sat/src/trie.rs:63-76 | the loop of `insert` ends at a node of a well-formed arena |
| SatTrie.WalkExtends | lib/simple-sat/src/trie.rs:63-76 | the loop keeps every node and allocates at most one node per bit |
| SatTrie.MarkWellFormed | lib/simple-sat/src/trie.rs:77 | setting an end mark keeps the trie well formed and extends it |
| SatTrie.Inserted | lib/simple-sat/src/trie.rs:62-79 | `insert` returns a node of the new, well-formed arena |
| SatTrie.WalkFind | lib/simple-sat/src/trie.rs:62-101 | `search(w)` after the walk of `insert(w)` ends where that walk ended |
| SatTrie.WalkPresent | lib/simple-sat/src/trie.rs:62-79 | walking an existing path allocates nothing |
| SatTrie.InsertMeaning | lib/simple-sat/src/trie.rs:62-90 | `insert(w)` returns the node `w` leads to, marks it as an end, keeps every node, path and mark, allocates at most `|w|` nodes, and `contains(w)` then holds |
| SatTrie.StepEnds | lib/simple-sat/src/trie.rs:65-75 | allocated nodes carry no end mark, old nodes keep theirs |
| SatTrie.WalkEnds | lib/simple-sat/src/trie.rs:63-76 | the walk allocates only unmarked nodes and keeps old marks |
| SatTrie.InsertOnlyMarksResult | lib/simple-sat/src/trie.rs:62-79 | `insert` marks no node but the one it returns and clears no mark |
| SatTrie.ReinsertSame | lib/simple-sat/src/trie.rs:62-79 | inserting a word a second time changes nothing and returns the same node |
| SatTrie.InsertLevel | lib/simple-sat/src/trie.rs:62-115 | `level` of the node `insert(w)` returns is `|w|` |
| SatTrie.NewNodes | lib/simple-sat/src/trie.rs:31-35 | the arena of a new trie is well formed |
| SatTrie.BuildNodes | lib/simple-sat/src/trie.rs:132-138 | inserting cubes in order keeps the arena well formed |
| SatTrie.BuildContains | lib/simple-sat/src/trie.rs:132-138 | after `build_trie`, every cube is contained |
| SatTrie.Trie.constructor | lib/simple-sat/src/trie.rs:31-35 | one root node, not an end, without children, under a non-zero id (as `test_new_trie` checks) |
| SatTrie.Trie.Insert | lib/simple-sat/src/trie.rs:62-79 | the arena and result are `Inserted(old arena, word)` |
| SatTrie.Trie.Contains | lib/simple-sat/src/trie.rs:81-90 | the result is `ContainsWord(nodes, word)`: the walk stays in the trie and ends at an end node |
| SatTrie.Trie.Search | lib/simple-sat/src/trie.rs:92-101 | the result is `Find(nodes, word)` |
| SatTrie.Trie.Level | lib/simple-sat/src/trie.rs:103-115 | the result is the depth of the node, the number of parent links to the root |
| SatTrie.BuildTrie | lib/simple-sat/src/trie.rs:132-138 | a fresh trie holding `BuildNodes(cubes)`, containing every cube (as `test_build_trie` checks) |
| SatTrie.InsertSingleWord | lib/simple-sat/src/trie.rs:155-174 | inserting `[true, false, true]` builds the single path the unit test inspects |
| IdxHeap.Swap | lib/simple-sat/src/idx/idx_heap.rs:111 | `heap.swap(i, j)` exchanges the two positions and keeps every other one |
| IdxHeap.BestChild | lib/simple-sat/src/idx/idx_heap.rs:125-134 | the child compared against is a child of `i` inside the heap, the left one unless the right one is better |
| IdxHeap.SwapPerm | lib/simple-sat/src/idx/idx_heap.rs:111 | a swap keeps the keys |
| IdxHeap.SiftUpPerm | lib/simple-sat/src/index_map.rs:416-431 | `sift_up_by` only rearranges the keys |
| IdxHeap.SiftDownPerm | lib/simple-sat/src/index_map.rs:433-458 | `sift_down_by` only rearranges the keys |
| IdxHeap.InsertPerm | lib/simple-sat/src/index_map.rs:347-361 | inserting an absent key adds exactly that key |
| IdxHeap.UpdatePerm | lib/simple-sat/src/index_map.rs:390-400 | `update_by` only rearranges the keys |
| IdxHeap.PopPerm | lib/simple-sat/src/index_map.rs:370-385 | `pop_by` removes exactly the old root |
| IdxHeap.SiftDownDone | lib/simple-sat/src/idx/idx_heap.rs:124-143 | `sift_down_by` stops at a leaf or where the better child is not better than the key |
| IdxHeap.SiftDownUnfold | lib/simple-sat/src/idx/idx_heap.rs:136-139 | one round of `sift_down_by` swaps with the better child and continues from it |
| IdxHeap.RootBest | lib/simple-sat/src/idx/idx_heap.rs:201-207 | no key of an ordered heap is better than its root, so `peek` and `pop_by` give the top |
| IdxHeap.InsertOrdered | lib/simple-sat/src/idx/idx_heap.rs:185-199 | `insert_by` keeps the heap ordered |
| IdxHeap.PopOrdered | lib/simple-sat/src/idx/idx_heap.rs:201-223 | `pop_by` keeps the heap ordered, and no remaining key is better than the returned one |
| IdxHeap.UpdateOrdered | lib/simple-sat/src/idx/idx_heap.rs:225-238 | `update_by` orders a heap that was ordered except around the changed key |
| IdxHeap.ActivityChanged | lib/simple-sat/src/idx/idx_heap.rs:225-238 | changing only one key's priority leaves exactly the state `update_by` repairs |
| IdxHeap.SortedSeqSorted | lib/simple-sat/src/index_map.rs:474-483 | draining an ordered heap yields all its keys, each no better than the one before |
| IdxHeap.SortedSeqHead | lib/simple-sat/src/idx/idx_heap.rs:268-277 | the first key drained is the root |
| IdxHeap.DownFromOrders | lib/simple-sat/src/idx/idx_heap.rs:120-145 | `sift_down_by(i)` where only `i` may be out of order orders the subtree of `i` |
| IdxHeap.HeapifyOrdered | lib/simple-sat/src/idx/idx_heap.rs:173-175 | sifting down from every position, last to first, orders the array |
| IdxHeap.HeapifyAll | lib/simple-sat/src/idx/idx_heap.rs:147-177 | `heapify_by` gives an ordered heap holding the same keys: a min-heap for "less-than", a max-heap for "greater-than" |
| IdxHeap.HeapifyPerm | lib/simple-sat/src/index_map.rs:335-337 | the heapify loop only rearranges keys |
| IdxHeap.SiftDownWrites | lib/simple-sat/src/idx/idx_heap.rs:137-144 | the index writes of `sift_down_by` fail exactly when a key lies outside the index vector; otherwise the vector keeps its length and the moving key has an entry |
| IdxHeap.HeapifyWritten | lib/simple-sat/src/idx/idx_heap.rs:165-177 | `heapify_by` as written: the index stays as long as it started, when no write fails |
| IdxHeap.HeapifyWrittenPanics | lib/simple-sat/src/idx/idx_heap.rs:169-175 | with the empty `IdxVec::new()` index, the first index write of any non-empty `heapify_by` is out of bounds |
| IdxHeap.HeapifyWrittenExample | lib/simple-sat/src/idx/idx_heap.rs:169-175 | the keys 3, 1, 5, 2, 4 panic as written |
| IdxHeap.MinHeapInserts | lib/simple-sat/src/idx/idx_heap.rs:361-370 | inserting 3, 1, 5, 2, 4 with "less-than" gives the array `[1, 2, 5, 3, 4]` |
| IdxHeap.MinHeapPops | lib/simple-sat/src/idx/idx_heap.rs:372-374 | draining that min-heap gives `[1, 2, 3, 4, 5]` |
| IdxHeap.MaxHeapInserts | lib/simple-sat/src/idx/idx_heap.rs:378-403 | inserting 3, 1, 5, 2, 4 with "greater-than" (also `ord_cmp`) gives `[5, 4, 3, 1, 2]` |
| IdxHeap.MaxHeapPops | lib/simple-sat/src/idx/idx_heap.rs:389-407 | draining that max-heap gives `[5, 4, 3, 2, 1]` |
| IdxHeap.IndexOf | lib/simple-sat/src/idx/idx_heap.rs:165-177 | the corrected set-up: for distinct keys, writing each key's position gives a consistent index |
| IdxHeap.IndexSwap | lib/simple-sat/src/idx/idx_heap.rs:110-111 | writing the other key's entry and swapping keeps the index describing every key but the moving one |
| IdxHeap.InsertPrepare | lib/simple-sat/src/idx/idx_heap.rs:190-193 | `init_by(key, usize::MAX)` and the push leave the new key at the end, with an entry, as `sift_up_by` needs |
| IdxHeap.IndexFinish | lib/simple-sat/src/idx/idx_heap.rs:117-144 | the final write of the moving key's entry makes the index consistent |
| IdxHeap.PresentIndexed | lib/simple-sat/src/idx/idx_heap.rs:37-40 | every key in the heap has an entry other than `usize::MAX` |
| IdxHeap.IndexedIn | lib/simple-sat/src/idx/idx_heap.rs:37-40 | a key with an entry other than `usize::MAX` is in the heap |
| IdxHeap.SwapRemoveFirst | lib/simple-sat/src/idx/idx_heap.rs:215 | `swap_remove(0)` removes the first key and moves the last one into its place |
| IdxHeap.PopPrepare | lib/simple-sat/src/idx/idx_heap.rs:215-218 | after `swap_remove(0)` and the two index writes the removed key is absent and the index is consistent |
| IdxHeap.SortedStep | lib/simple-sat/src/idx/idx_heap.rs:273-275 | one round of the drain loop moves the top key to the result |
| IdxHeap.IdxHeap.constructor | lib/simple-sat/src/idx/idx_heap.rs:15-21 | no keys, an empty index |
| IdxHeap.IdxHeap.Heapify | lib/simple-sat/src/idx/idx_heap.rs:165-177 | the corrected `heapify_by`: the heap is `HeapifySeq(from)` and its index is consistent |
| IdxHeap.IdxHeap.SiftAll | lib/simple-sat/src/idx/idx_heap.rs:173-175 | the loop yields `HeapifySeq` of the keys and keeps the index consistent |
| IdxHeap.IdxHeap.Len | lib/simple-sat/src/idx/idx_heap.rs:30-32 | the number of keys |
| IdxHeap.IdxHeap.Contains | lib/simple-sat/src/idx/idx_heap.rs:37-40 | an entry exists and is not the sentinel, which in a valid heap is exactly membership |
| IdxHeap.IdxHeap.Peek | lib/simple-sat/src/idx/idx_heap.rs:48-50 | `None` exactly on an empty heap, else the root |
| IdxHeap.IdxHeap.Clear | lib/simple-sat/src/idx/idx_heap.rs:42-46 | no keys, an empty index |
| IdxHeap.IdxHeap.SiftUp | lib/simple-sat/src/idx/idx_heap.rs:103-118 | the keys become `SiftUpSeq(old, i)` and the index is consistent again |
| IdxHeap.IdxHeap.SiftDown | lib/simple-sat/src/idx/idx_heap.rs:120-145 | the keys become `SiftDownSeq(old, i)` and the index is consistent again |
| IdxHeap.IdxHeap.Insert | lib/simple-sat/src/idx/idx_heap.rs:185-199 | `true` exactly for an absent key, which is then pushed and sifted up; a present key changes nothing; the key is contained afterwards |
| IdxHeap.IdxHeap.Pop | lib/simple-sat/src/idx/idx_heap.rs:208-223 | `None` exactly on an empty heap; otherwise the old root, now absent, with the keys `PopSeq(old)` |
| IdxHeap.IdxHeap.Update | lib/simple-sat/src/idx/idx_heap.rs:228-238 | for a present key, sift down then up from its position |
| IdxHeap.IdxHeap.Decrease | lib/simple-sat/src/idx/idx_heap.rs:239-245 | sift up from the key's position |
| IdxHeap.IdxHeap.Increase | lib/simple-sat/src/idx/idx_heap.rs:246-252 | sift down from the key's position |
| IdxHeap.IdxHeap.IntoSortedVec | lib/simple-sat/src/idx/idx_heap.rs:268-277 | the keys in drain order, leaving the heap empty |
| SolverTrail.LevelAt | lib/simple-sat/src/solver.rs:277-283 | the level of a trail position is at most the number of open levels |
| SolverTrail.LevelAtBelow | lib/simple-sat/src/solver.rs:281-300 | a position lies at level `k` or below exactly when it comes before the marker `trail_lim[k]` |
| SolverTrail.LevelAtAll | lib/simple-sat/src/solver.rs:639-647 | a literal pushed after every marker lies on the current level |
| SolverTrail.LevelAtTruncate | lib/simple-sat/src/solver.rs:298-300 | cutting the markers back to `level` keeps the level of every position that stays |
| SolverTrail.TrailDistinct | lib/simple-sat/src/solver.rs:639-647 | no variable is on the trail twice |
| SolverTrail.UndefNotOnTrail | lib/simple-sat/src/solver.rs:639-647 | an unassigned variable is not on the trail |
| SolverTrail.EnqueuedOk | lib/simple-sat/src/solver.rs:639-647 | `unchecked_enqueue` of an unassigned literal with a valid reason (or none) keeps the trail invariant |
| SolverTrail.NewLevelOk | lib/simple-sat/src/solver.rs:281-283 | `new_decision_level` keeps the trail invariant |
| SolverTrail.Unassigned | lib/simple-sat/src/solver.rs:291-297 | the loop of `backtrack` resets exactly the removed variables to Undef |
| SolverTrail.KeptNotRemoved | lib/simple-sat/src/solver.rs:291-299 | a variable assigned before the cut is not removed |
| SolverTrail.InRemoved | lib/simple-sat/src/solver.rs:291-299 | every variable on the trail from the cut on is removed |
| SolverTrail.BacktrackedOk | lib/simple-sat/src/solver.rs:285-303 | `backtrack` below the current level keeps the trail invariant |
| SolverTrail.BacktrackedValue | lib/simple-sat/src/solver.rs:285-303 | after backtracking to `level`, variables assigned at or below it keep value and position, the others are Undef |
| SolverTrail.ReorderOk | lib/simple-sat/src/solver.rs:650-786 | reordering a clause whose first literal is not True disturbs no reason |
| SolverTrail.AppendClauseOk | lib/simple-sat/src/solver.rs:330-332 | storing a new clause keeps the trail invariant |
| SolverTrail.NewVarOk | lib/simple-sat/src/solver.rs:153-177 | `new_var` keeps the trail invariant |
| SolverTrail.EnqueuedGrows | lib/simple-sat/src/solver.rs:639-647 | enqueueing only adds to the trail and the assignment |
| SolverTrail.Below | lib/simple-sat/src/solver.rs:131-133 | the variables are exactly `0 .. num_vars` |
| SolverTrail.TrailBound | lib/simple-sat/src/solver.rs:639-647 | the trail is never longer than the number of variables |
| SolverAnalyze.CountOther | lib/simple-sat/src/solver.rs:807-818 | marking a variable that is not on the current-level part of the trail leaves `counter` unchanged |
| SolverAnalyze.CountMark | lib/simple-sat/src/solver.rs:811-818 | marking an unseen current-level variable adds exactly one to `counter` |
| SolverAnalyze.CountUnseen | lib/simple-sat/src/solver.rs:794-796 | with no variable seen, `counter` starts at 0 |
| SolverAnalyze.CountPositive | lib/simple-sat/src/solver.rs:823-828 | a seen variable left on the current level makes `counter` positive, so the search loop finds it |
| SolverAnalyze.TrailIndexed | lib/simple-sat/src/solver.rs:788-798 | on a valid trail, positions, levels and values agree as `analyze` needs |
| SolverAnalyze.LevelTop | lib/simple-sat/src/solver.rs:813-818 | an assigned variable is on the current level exactly when its position is at or after the start of the level, and never above it (the `debug_assert` on line 816) |
| SolverAnalyze.Mark | lib/simple-sat/src/solver.rs:807-818 | the variable becomes seen and bumped by one; the literal goes into the lemma below the current level, or adds one to `counter` on it |
| SolverAnalyze.MarkOk | lib/simple-sat/src/solver.rs:803-820 | marking a False, earlier, unseen literal above level 0 keeps the walk invariant |
| SolverAnalyze.SeenCounted | lib/simple-sat/src/solver.rs:813-818 | a seen current-level variable means `counter >= 1` |
| SolverAnalyze.ScanClause | lib/simple-sat/src/solver.rs:803-820 | the inner `for` loop keeps the walk invariant, never lowers `counter`, and a current-level literal in the clause guarantees `counter >= 1` |
| SolverAnalyze.FindSeen | lib/simple-sat/src/solver.rs:823-828 | with positive `counter`, the search stops, within the current level, on the last seen literal before `index`, with every later one unseen |
| SolverAnalyze.UnmarkSeen | lib/simple-sat/src/solver.rs:829-830 | after un-seeing `p`, every seen current-level variable lies before `p`'s position |
| SolverAnalyze.UnmarkOk | lib/simple-sat/src/solver.rs:829-832 | un-seeing `p` and lowering `counter` moves the walk invariant to `p`'s position; `p` is on the current level |
| SolverAnalyze.FirstMaxIsMax | lib/simple-sat/src/solver.rs:854-860 | the loop finds the first literal after position 0 on the highest level among positions 1 and up |
| SolverAnalyze.SwapAt | lib/simple-sat/src/solver.rs:862 | `lemma.swap(1, max_i)` exchanges exactly those two literals |
| SolverAnalyze.BacktrackLevel | lib/simple-sat/src/solver.rs:851-869 | level 0 for a unit lemma; otherwise the first highest-level literal is swapped to position 1 and its level is returned |
| SolverAnalyze.WalkTrail | lib/simple-sat/src/solver.rs:800-840 | the outer loop ends with `counter == 0` on a current-level trail literal `p` whose variable was bumped, scanning only reason clauses |
| SolverAnalyze.ReasonedAboveOk | lib/simple-sat/src/solver.rs:838-839 | every trail literal after the start of the current level, other than its decision, has a reason whose first literal it is (the `unwrap` and `debug_assert` hold) |
| SolverAnalyze.PrependAsserting | lib/simple-sat/src/solver.rs:833-836 | `!p` in front of the lemma gives an asserting clause: one literal on the current level, the others False below it, on distinct variables |
| SolverAnalyze.PrependDistinct | lib/simple-sat/src/solver.rs:833-836 | the prepended literal's variable differs from every lemma variable |
| SolverAnalyze.SwapDistinct | lib/simple-sat/src/solver.rs:862 | the swap keeps the variables distinct |
| SolverAnalyze.SwapAsserting | lib/simple-sat/src/solver.rs:851-869 | the swap keeps the clause asserting and puts the highest lower level at position 1 |
| SolverAnalyze.AnalyzeConflict | lib/simple-sat/src/solver.rs:788-874 | on a False conflict clause with a current-level literal, above level 0: the learnt clause is asserting, the backtrack level is the highest level of its other literals (0 for a unit), and exactly the activities of its variables (and perhaps others scanned) grow by one |
| SolverAnalyze.BumpedFacts | lib/simple-sat/src/solver.rs:809 | each activity grew by at most one, and by exactly one on the learnt variables |
| Solver.MaxVar | lib/simple-sat/src/solver.rs:322 | `max_var` bounds every variable of the clause and is reached by one of them |
| Solver.Reinserted | lib/simple-sat/src/solver.rs:291-297 | after `insert_var_order` of the removed variables, the heap holds exactly the old keys plus those variables |
| Solver.InitAppends | lib/simple-sat/src/solver.rs:158 | `watchlist.init` of the next variable appends exactly its two empty lists |
| Solver.NewVarShapes | lib/simple-sat/src/solver.rs:153-177 | a new variable keeps the clause store and the watch lists well formed |
| Solver.Widened | lib/simple-sat/src/solver.rs:324-326 | padding keeps every old entry and fills the new ones with the default |
| Solver.AppendShapes | lib/simple-sat/src/solver.rs:330-334 | storing a clause over existing variables keeps the store, the watch lists and the clause references well formed |
| Solver.Swapped | lib/simple-sat/src/solver.rs:712-713 | `ptr::swap` on two literals of a clause exchanges exactly those two and keeps its literals |
| Solver.ReorderedListOk | lib/simple-sat/src/solver.rs:707-746 | reordering clauses keeps every watcher well formed |
| Solver.PermutedClauseOk | lib/simple-sat/src/solver.rs:707-746 | a reordering of a well-formed clause is well formed |
| Solver.RewriteShapes | lib/simple-sat/src/solver.rs:707-746 | replacing a clause in place by a reordering keeps the store, the lists and the references well formed |
| Solver.PushedOk | lib/simple-sat/src/solver.rs:747 | pushing a well-formed watcher keeps the lists well formed |
| Solver.ReplacedOk | lib/simple-sat/src/solver.rs:780 | replacing a list by a well-formed one keeps the lists well formed |
| Solver.VisitShapes | lib/simple-sat/src/solver.rs:685-778 | an inner-loop round keeps the reordering, the growth of the trail and the watchers well formed |
| Solver.Solver.constructor | lib/simple-sat/src/solver.rs:71-108 | no variables, no clauses, an empty trail, `qhead == 0`, `ok` |
| Solver.Solver.Value | lib/simple-sat/src/solver.rs:182-184 | the value of a literal is its variable's value read through the polarity |
| Solver.Solver.DecisionLevel | lib/simple-sat/src/solver.rs:277-279 | the number of level markers |
| Solver.Solver.NewVar | lib/simple-sat/src/solver.rs:153-177 | the next variable, unassigned, with two empty watch lists, level 0, no reason, activity 0 and in the heap; nothing else changes |
| Solver.Solver.NewVarsUpTo | lib/simple-sat/src/solver.rs:322-326 | every missing variable up to `max_var` is created, each as `new_var` does |
| Solver.Solver.NewDecisionLevel | lib/simple-sat/src/solver.rs:281-283 | the trail length is pushed onto the markers; nothing else changes |
| Solver.Solver.UncheckedEnqueue | lib/simple-sat/src/solver.rs:639-648 | the unassigned literal becomes True with the current level and the reason, and is pushed on the trail |
| Solver.Solver.Enqueue | lib/simple-sat/src/solver.rs:603-637 | an unassigned literal is enqueued and succeeds; a True one changes nothing and succeeds; a False one changes nothing and fails |
| Solver.Solver.Backtrack | lib/simple-sat/src/solver.rs:285-303 | below the current level, the trail is cut back to the start of level `level + 1`, its variables are unassigned and reinserted into the heap, `qhead` is that start; at or above the current level nothing changes |
| Solver.Solver.AttachClause | lib/simple-sat/src/solver.rs:345-362 | the clause is watched on its first two literals, each blocked by the other |
| Solver.Solver.StoreClause | lib/simple-sat/src/solver.rs:330-332 | the clause is appended to the store and referenced among the original clauses |
| Solver.Solver.AddClause | lib/simple-sat/src/solver.rs:305-343 | an unsatisfiable solver refuses the clause and changes nothing; otherwise missing variables are created, the clause stored, watched when it has two literals or more, and a unit is enqueued, which clears `ok` exactly when its literal is False; the result is `ok` |
| Solver.Solver.Rewrite | lib/simple-sat/src/solver.rs:707-717 | a clause whose first literal is not True may be reordered in place without breaking the solver invariant |
| Solver.Solver.FindNonFalse | lib/simple-sat/src/solver.rs:736-750 | the first literal after position 1 that is not False, or none when all are False |
| Solver.Solver.MoveWatch | lib/simple-sat/src/solver.rs:736-749 | the non-False literal is swapped to position 1 and the watcher, blocked by the first literal, moves to its list; the list of the False literal is untouched |
| Solver.Solver.Settle | lib/simple-sat/src/solver.rs:752-777 | with every other literal False, an unassigned first literal is enqueued with the clause as reason, and a False one makes the clause the conflict |
| Solver.Solver.VisitWatcher | lib/simple-sat/src/solver.rs:686-777 | one watcher visit: a True blocker keeps it; otherwise the False literal is moved to position 1, and the clause is satisfied, re-watched, unit or the conflict; a kept watcher is well formed |
| Solver.Solver.SetWatchList | lib/simple-sat/src/solver.rs:780 | the list is truncated to the kept watchers |
| Solver.Solver.PropagateLit | lib/simple-sat/src/solver.rs:669-781 | every watcher of the False literal is visited; after a conflict the rest is kept and `qhead` jumps to the end of the trail; the conflict clause is entirely False and watches the literal at position 1 |
| Solver.Solver.Propagate | lib/simple-sat/src/solver.rs:650-785 | the queue is drained or a conflict is found; the trail only grows and clauses are only reordered; a conflict clause is entirely False with its position-1 literal on the current level |
| Solver.Solver.Analyze | lib/simple-sat/src/solver.rs:456 | on a conflict above level 0, the learnt clause is asserting, the backtrack level is the highest level of its other literals, and only the activities change, by at most one each and by one on every learnt variable |
| Solver.Solver.StoreLearnt | lib/simple-sat/src/solver.rs:481-482 | the clause is appended to the store and referenced among the learnt clauses |
| Solver.Solver.Learn | lib/simple-sat/src/solver.rs:461-485 | back to level `bt`, the first learnt literal is True at the end of the cut trail; a unit has no reason, a longer clause is stored among the learnt clauses, watched, and is the reason |
| Solver.Solver.LearnFrom | lib/simple-sat/src/solver.rs:455-489 | the conflict branch keeps the solver invariant and adds at most one learnt clause |
| Solver.Solver.PickBranchingVariable | lib/simple-sat/src/solver.rs:553-589 | the unassigned variable first in the order of the activity comparator (ties to the smaller variable), with the heap losing exactly the variables before it; `None` only when every variable is assigned |
| Solver.Solver.Decide | lib/simple-sat/src/solver.rs:527-534 | a new level on which the variable is True, without a reason |
| Solver.Solver.Search | lib/simple-sat/src/solver.rs:407-551 | Sat only with every variable assigned and the queue empty; Unsat only at level 0 with an entirely False clause; a restart only when `num_confl > 0`, back at level 0; the original clauses are kept and learnt clauses only added |
| Solver.Solver.Solve | lib/simple-sat/src/solver.rs:364-390 | an unsatisfiable solver answers Unsat at once and runs no search; search number `k` (from 0) runs with the restart limit `100 * 2^e` for the Luby exponent `e` of `k + 1`, at most `fuel` searches run, and unless a solver that is not yet unsatisfiable answers `OutOfFuel` it has run at least one; the solver ends at level 0 and never answers with a restart; Sat comes with a total assignment |
| Solver.Solver.Backtrack0 | lib/simple-sat/src/solver.rs:388 | `backtrack(0)` from any level leaves level 0 and keeps the clauses |
| Solver.PowerOfTwoPositive | lib/simple-sat/src/solver.rs:378-379 | every Luby factor, and so every restart limit, is positive |
| Solver.CountTrueClear | lib/simple-sat/src/solver.rs:567-574 | taking a variable out of the heap shrinks it by one, so the pick loop ends |
| Solver.BestIn | lib/simple-sat/src/idx/idx_heap.rs:208-223 | the key a pop returns under the tie-breaking activity comparator: better than every other key in the heap; none only for an empty heap |
| Solver.FalsifiedOnTrail | lib/simple-sat/src/solver.rs:803-805 | every literal of an entirely False clause is on the trail, as `analyze`'s `debug_assert` expects |
| Solver.LearntAfterBacktrack | lib/simple-sat/src/solver.rs:461-484 | backtracking to `bt` unassigns the first learnt literal and keeps the others False and earlier on the trail, so the clause is a valid reason |
| Ops.Negs | lib/core/src/op/ops.rs:186-198 | each literal negated, in order |
| Ops.ImplyEach | lib/core/src/op/ops.rs:47-54 | one clause `prefix ++ [x]` per element, in order |
| Ops.ImpliedBy | lib/core/src/op/ops.rs:201-213 | one clause `[-x, l]` per element, in order |
| Ops.ImplyEachInto | lib/core/src/op/ops.rs:258-271 | one clause `prefix ++ [-x, l]` per element, in order |
| Ops.ClauseSatNegs | lib/core/src/op/ops.rs:186-198 | the clause of negated literals holds exactly when not all literals hold |
| Ops.CnfSatImplyEach | lib/core/src/op/ops.rs:47-54 | the clauses `prefix ++ [x]` all hold exactly when the prefix holds or every `x` does |
| Ops.CnfSatImpliedBy | lib/core/src/op/ops.rs:201-213 | the clauses `[-x, l]` all hold exactly when some `x` true forces `l` |
| Ops.CnfSatImplyEachInto | lib/core/src/op/ops.rs:258-271 | the clauses `prefix ++ [-x, l]` all hold exactly when the prefix holds or the disjunction of the `x` forces `l` |
| Ops.GuardedClause | lib/core/src/op/ops.rs:97-117 | a clause of negated guards and a rest holds exactly when the guards force the rest |
| Ops.ImplyAndExample | lib/core/src/cnf/mod.rs:103-110 | `imply_and(1, [2, 3])` gives `[[-1, 2], [-1, 3]]` |
| Ops.PrefixedValid | lib/core/src/op/ops.rs:57-72 | a guard prefix followed by non-zero literals is a clause `Clause::new` accepts |
| Ops.ImplyMeaning | lib/core/src/op/ops.rs:26-28 | a model satisfies the clauses of `imply` exactly when it satisfies `lhs => rhs` |
| Ops.Imply | lib/core/src/op/ops.rs:26-28 | `imply` appends exactly its clause list to the sink, in order |
| Ops.IffMeaning | lib/core/src/op/ops.rs:31-34 | a model satisfies the clauses of `iff` exactly when it satisfies `lhs <=> rhs` |
| Ops.Iff | lib/core/src/op/ops.rs:31-34 | `iff` appends exactly its clause list to the sink, in order |
| Ops.IteMeaning | lib/core/src/op/ops.rs:37-40 | a model satisfies the clauses of `ite` exactly when it satisfies `if cond then a else b` |
| Ops.Ite | lib/core/src/op/ops.rs:37-40 | `ite` appends exactly its clause list to the sink, in order |
| Ops.ImplyAndMeaning | lib/core/src/op/ops.rs:47-54 | a model satisfies the clauses of `imply_and` exactly when it satisfies `lhs => (x1 & ... & xn)` |
| Ops.ImplyAnd | lib/core/src/op/ops.rs:47-54 | `imply_and` appends exactly its clause list to the sink, in order |
| Ops.ImplyOrMeaning | lib/core/src/op/ops.rs:57-72 | a model satisfies the clauses of `imply_or` exactly when it satisfies `lhs => (x1 | ... | xn)` |
| Ops.ImplyOr | lib/core/src/op/ops.rs:57-72 | `imply_or` appends exactly its clause list to the sink, in order |
| Ops.ImplyImplyMeaning | lib/core/src/op/ops.rs:75-77 | a model satisfies the clauses of `imply_imply` exactly when it satisfies `x1 => (x2 => x3)` |
| Ops.ImplyImply | lib/core/src/op/ops.rs:75-77 | `imply_imply` appends exactly its clause list to the sink, in order |
| Ops.ImplyIffMeaning | lib/core/src/op/ops.rs:80-83 | a model satisfies the clauses of `imply_iff` exactly when it satisfies `x1 => (x2 <=> x3)` |
| Ops.ImplyIff | lib/core/src/op/ops.rs:80-83 | `imply_iff` appends exactly its clause list to the sink, in order |
| Ops.ImplyIteMeaning | lib/core/src/op/ops.rs:86-90 | a model satisfies the clauses of `imply_ite` exactly when it satisfies `lhs => (if cond then a else b)` |
| Ops.ImplyIte | lib/core/src/op/ops.rs:86-90 | `imply_ite` appends exactly its clause list to the sink, in order |
| Ops.ImplyImplyAndMeaning | lib/core/src/op/ops.rs:97-104 | a model satisfies the clauses of `imply_imply_and` exactly when it satisfies `x1 => (x2 => AND xs)` |
| Ops.ImplyImplyAnd | lib/core/src/op/ops.rs:97-104 | `imply_imply_and` appends exactly its clause list to the sink, in order |
| Ops.ImplyImplyOrMeaning | lib/core/src/op/ops.rs:107-117 | a model satisfies the clauses of `imply_imply_or` exactly when it satisfies `x1 => (x2 => OR xs)` |
| Ops.ImplyImplyOr | lib/core/src/op/ops.rs:107-117 | `imply_imply_or` appends exactly its clause list to the sink, in order |
| Ops.ImplyImplyImplyMeaning | lib/core/src/op/ops.rs:120-122 | a model satisfies the clauses of `imply_imply_imply` exactly when it satisfies `x1 => (x2 => (x3 => x4))` |
| Ops.ImplyImplyImply | lib/core/src/op/ops.rs:120-122 | `imply_imply_imply` appends exactly its clause list to the sink, in order |
| Ops.ImplyImplyIffMeaning | lib/core/src/op/ops.rs:125-128 | a model satisfies the clauses of `imply_imply_iff` exactly when it satisfies `x1 => (x2 => (x3 <=> x4))` |
| Ops.ImplyImplyIff | lib/core/src/op/ops.rs:125-128 | `imply_imply_iff` appends exactly its clause list to the sink, in order |
| Ops.ImplyImplyIteMeaning | lib/core/src/op/ops.rs:131-134 | a model satisfies the clauses of `imply_imply_ite` exactly when it satisfies `x1 => (x2 => ite(cond, a, b))` |
| Ops.ImplyImplyIte | lib/core/src/op/ops.rs:131-134 | `imply_imply_ite` appends exactly its clause list to the sink, in order |
| Ops.ImplyImplyImplyAndMeaning | lib/core/src/op/ops.rs:141-148 | a model satisfies the clauses of `imply_imply_imply_and` exactly when it satisfies `x1 => (x2 => (x3 => AND xs))` |
| Ops.ImplyImplyImplyAnd | lib/core/src/op/ops.rs:141-148 | `imply_imply_imply_and` appends exactly its clause list to the sink, in order |
| Ops.ImplyImplyImplyOrMeaning | lib/core/src/op/ops.rs:151-162 | a model satisfies the clauses of `imply_imply_imply_or` exactly when it satisfies `x1 => (x2 => (x3 => OR xs))` |
| Ops.ImplyImplyImplyOr | lib/core/src/op/ops.rs:151-162 | `imply_imply_imply_or` appends exactly its clause list to the sink, in order |
| Ops.ImplyImplyImplyImplyMeaning | lib/core/src/op/ops.rs:165-167 | a model satisfies the clauses of `imply_imply_imply_imply` exactly when it satisfies `x1 => (x2 => (x3 => (x4 => x5)))` |
| Ops.ImplyImplyImplyImply | lib/core/src/op/ops.rs:165-167 | `imply_imply_imply_imply` appends exactly its clause list to the sink, in order |
| Ops.ImplyImplyImplyIffMeaning | lib/core/src/op/ops.rs:170-173 | a model satisfies the clauses of `imply_imply_imply_iff` exactly when it satisfies `x1 => (x2 => (x3 => (x4 <=> x5)))` |
| Ops.ImplyImplyImplyIff | lib/core/src/op/ops.rs:170-173 | `imply_imply_imply_iff` appends exactly its clause list to the sink, in order |
| Ops.ImplyImplyImplyIteMeaning | lib/core/src/op/ops.rs:176-179 | a model satisfies the clauses of `imply_imply_imply_ite` exactly when it satisfies `x1 => (x2 => (x3 => ite(cond, a, b)))` |
| Ops.ImplyImplyImplyIte | lib/core/src/op/ops.rs:176-179 | `imply_imply_imply_ite` appends exactly its clause list to the sink, in order |
| Ops.IffAndMeaning | lib/core/src/op/ops.rs:186-198 | a model satisfies the clauses of `iff_and` exactly when it satisfies `lhs <=> AND xs` |
| Ops.IffAnd | lib/core/src/op/ops.rs:186-198 | `iff_and` appends exactly its clause list to the sink, in order |
| Ops.IffOrMeaning | lib/core/src/op/ops.rs:201-213 | a model satisfies the clauses of `iff_or` exactly when it satisfies `lhs <=> OR xs` |
| Ops.IffOr | lib/core/src/op/ops.rs:201-213 | `iff_or` appends exactly its clause list to the sink, in order |
| Ops.IffImplyMeaning | lib/core/src/op/ops.rs:216-220 | a model satisfies the clauses of `iff_imply` exactly when it satisfies `lhs <=> (x1 => x2)` |
| Ops.IffImply | lib/core/src/op/ops.rs:216-220 | `iff_imply` appends exactly its clause list to the sink, in order |
| Ops.IffIffMeaning | lib/core/src/op/ops.rs:223-227 | a model satisfies the clauses of `iff_iff` exactly when it satisfies `lhs <=> (x1 <=> x2)` |
| Ops.IffIff | lib/core/src/op/ops.rs:223-227 | `iff_iff` appends exactly its clause list to the sink, in order |
| Ops.IffIteMeaning | lib/core/src/op/ops.rs:230-235 | a model satisfies the clauses of `iff_ite` exactly when it satisfies `lhs <=> ite(cond, a, b)` |
| Ops.IffIte | lib/core/src/op/ops.rs:230-235 | `iff_ite` appends exactly its clause list to the sink, in order |
| Ops.ImplyIffAndMeaning | lib/core/src/op/ops.rs:242-255 | a model satisfies the clauses of `imply_iff_and` exactly when it satisfies `x1 => (x2 <=> AND xs)` |
| Ops.ImplyIffAnd | lib/core/src/op/ops.rs:242-255 | `imply_iff_and` appends exactly its clause list to the sink, in order |
| Ops.ImplyIffOrMeaning | lib/core/src/op/ops.rs:258-271 | a model satisfies the clauses of `imply_iff_or` exactly when it satisfies `x1 => (x2 <=> OR xs)` |
| Ops.ImplyIffOr | lib/core/src/op/ops.rs:258-271 | `imply_iff_or` appends exactly its clause list to the sink, in order |
| CoreLit.New | lib/core/src/lit.rs:9-12 | `Lit::new(val)` of a non-zero `i32` stores `val`; zero is refused by the `debug_assert` |
| CoreLit.Var | lib/core/src/lit.rs:18-20 | the variable is the absolute value, positive for a valid literal |
| CoreLit.FromUsize | lib/core/src/lit.rs:44-48 | a `usize` in `1..=i32::MAX` converts to that literal; larger values panic in the `unwrap` |
| CoreLit.Neg | lib/core/src/lit.rs:57-63 | `-l` keeps the variable and negates the value |
| CoreLit.NegInvolutive | lib/core/src/lit.rs:57-63 | `-(-l) == l` |
| CoreLit.NegSemantics | lib/core/src/lit.rs:57-63 | `-l` is true in a model exactly when `l` is false |
| CoreClause.Insert | lib/core/src/cnf/clause.rs:47-54 | insertion into a sorted list keeps it sorted and adds exactly the element |
| CoreClause.SortedOf | lib/core/src/cnf/clause.rs:51-52 | `sorted_unstable` yields the same literals in ascending order |
| CoreClause.SortedUnique | lib/core/src/cnf/clause.rs:51-53 | two sorted lists with the same literals are equal, so comparing sorted lists compares multisets |
| CoreClause.New | lib/core/src/cnf/clause.rs:20-23 | a non-empty literal list becomes a clause holding exactly those literals |
| CoreClause.EqIffSameMultiset | lib/core/src/cnf/clause.rs:47-54 | two clauses are equal exactly when they hold the same literals with the same multiplicities |
| CoreClause.EqReordered | lib/core/src/cnf/clause.rs:47-54 | equality ignores the order of literals |
| Cnf.MaxVarClause | lib/core/src/cnf/mod.rs:71-74 | the largest variable of a non-empty clause bounds all its variables and is one of them |
| Cnf.MaxAfterBound | lib/core/src/cnf/mod.rs:78-82 | after a batch of clauses `max_var` bounds all their variables and is the old value or one of them |
| Cnf.MaxAfterAppend | lib/core/src/cnf/mod.rs:78-82 | extending in two batches ends at the same `max_var` as one batch |
| Cnf.Cnf.constructor | lib/core/src/cnf/mod.rs:26-31 | no clauses, `max_var == 0` |
| Cnf.Cnf.Add | lib/core/src/cnf/mod.rs:71-74 | the clause is appended and `max_var` is the maximum of the old value and the clause's largest variable |
| Cnf.Cnf.AddClause | lib/core/src/cnf/mod.rs:86-93 | the literals become one appended clause, as `add` does |
| Cnf.Cnf.Extend | lib/core/src/cnf/mod.rs:78-82 | the clauses are appended in order and `max_var` follows them |
| Cnf.FromIter | lib/core/src/cnf/mod.rs:50-57 | a fresh formula whose clauses are the given ones, in order |
| Cnf.MaxVarBounds | lib/core/src/cnf/mod.rs:50-57 | a formula built from clauses has a `max_var` bounding every variable, and 0 only when it has no clauses |
| CoreRel.LeadingBit | lib/core/src/op/rel.rs:12-20 | the most significant differing bit decides the comparison of two equally long bit strings |
| CoreRel.GeqMeaning | lib/core/src/op/rel.rs:12-20 | the loop with prefix `p` yields clauses that hold exactly when `p` holds or `x >= a` |
| CoreRel.LeqMeaning | lib/core/src/op/rel.rs:36-44 | the loop with prefix `p` yields clauses that hold exactly when `p` holds or `x <= b` |
| CoreRel.GeqCorrect | lib/core/src/op/rel.rs:1-23 | the clauses of `encode_geq(x, a)` hold exactly when the number `x` encodes is at least `a` |
| CoreRel.LeqCorrect | lib/core/src/op/rel.rs:25-47 | the clauses of `encode_leq(x, b)` hold exactly when the number `x` encodes is at most `b` |
| CoreRel.NoHigherMeaning | lib/core/src/op/rel.rs:61-74 | the `assert!`s of `encode_both` pass exactly when `a <= b` |
| CoreRel.BothOne | lib/core/src/op/rel.rs:62-64 | where `a` and `b` both have a one, the unit `x[i]` and the rest express `a <= x <= b` |
| CoreRel.BothZero | lib/core/src/op/rel.rs:65-67 | where both have a zero, the unit `-x[i]` and the rest express `a <= x <= b` |
| CoreRel.BothSplit | lib/core/src/op/rel.rs:76-104 | at the first split position, the geq part with prefix `x[i]` and the leq part with prefix `-x[i]` express `a <= x <= b` |
| CoreRel.BothCorrect | lib/core/src/op/rel.rs:49-107 | the clauses of `encode_both(x, a, b)` hold exactly when `a <= x <= b` |
| CoreRel.GeqLoop | lib/core/src/op/rel.rs:12-20 | the `for` loop collects `GeqFrom` of the remaining bits |
| CoreRel.LeqLoop | lib/core/src/op/rel.rs:36-44 | the `for` loop collects `LeqFrom` of the remaining bits |
| CoreRel.EncodeGeq | lib/core/src/op/rel.rs:1-23 | `encode_geq` returns `GeqFrom([], x, a)`, empty for empty `x` |
| CoreRel.EncodeLeq | lib/core/src/op/rel.rs:25-47 | `encode_leq` returns `LeqFrom([], x, b)`, empty for empty `x` |
| CoreRel.EncodeBoth | lib/core/src/op/rel.rs:49-107 | `encode_both` returns `BothFrom(x, a, b)`: units up to the first split, then the two prefixed loops |
| CoreRel.TestGeq | lib/core/src/op/rel.rs:155-168 | `encode_geq` of 8 bits and 13 gives `[[1,2,3,4,5], [1,2,3,4,6], [1,2,3,4,7,8]]` |
| CoreRel.TestLeq | lib/core/src/op/rel.rs:171-187 | `encode_leq` of 8 bits and 42 gives the five clauses of the test |
| CoreRel.TestBoth | lib/core/src/op/rel.rs:190-224 | `encode_both` of 8 bits between 13 and 42 gives the eight clauses of the test |
| CoreEncoder.PairsWith | lib/core/src/encoder.rs:72-74 | one clause per later literal of the inner loop |
| CoreEncoder.RowsCount | lib/core/src/encoder.rs:70-76 | the first `i` rounds of the outer loop emit `i(2n - i - 1)/2` clauses |
| CoreEncoder.AtMostOneCount | lib/core/src/encoder.rs:70-76 | `at_most_one` of `n` literals emits `n(n-1)/2` clauses |
| CoreEncoder.PairsWithMeaning | lib/core/src/encoder.rs:72-74 | one round's clauses hold exactly when `a` true implies no later literal is true |
| CoreEncoder.NoTwoStep | lib/core/src/encoder.rs:71-75 | round `i - 1` adds exactly the condition on pairs starting at position `i - 1` |
| CoreEncoder.RowsMeaning | lib/core/src/encoder.rs:70-76 | the clauses of the first `i` rounds hold exactly when no true pair starts before `i` |
| CoreEncoder.TrueCountZero | lib/core/src/encoder.rs:65-68 | no literal true is the same as a count of zero |
| CoreEncoder.TrueCountAtMostOne | lib/core/src/encoder.rs:70-76 | no two literals both true is the same as at most one true |
| CoreEncoder.TrueCountSome | lib/core/src/encoder.rs:65-68 | the at-least-one clause holds exactly when the count is at least one |
| CoreEncoder.AtMostOneMeaning | lib/core/src/encoder.rs:70-76 | a model satisfies the `at_most_one` clauses exactly when at most one literal is true |
| CoreEncoder.ExactlyOneMeaning | lib/core/src/encoder.rs:60-63 | a model satisfies the `exactly_one` clauses exactly when exactly one literal is true |
| CoreEncoder.Tokens | lib/core/src/encoder.rs:41-43 | one decimal token per literal, in order |
| CoreEncoder.HeaderTokens | lib/core/src/encoder.rs:39 | the header line splits back into `p`, `cnf` and the two counts |
| CoreEncoder.LiteralToken | lib/core/src/encoder.rs:42 | each literal prints as a non-empty token without whitespace |
| CoreEncoder.LineTokens | lib/core/src/encoder.rs:40-45 | a clause line splits back into the literals' tokens and a final `0`, and each token parses back to its literal |
| CoreEncoder.CnfEncoder.constructor | lib/core/src/encoder.rs:12-17 | the given variable count and no clauses |
| CoreEncoder.CnfEncoder.NewVar | lib/core/src/encoder.rs:27-30 | the count goes up by one and the new count is returned as a positive literal; clauses unchanged |
| CoreEncoder.CnfEncoder.AddClause | lib/core/src/encoder.rs:32-35 | a non-empty clause is appended; the empty clause is refused by the `assert!` |
| CoreEncoder.CnfEncoder.AtLeastOne | lib/core/src/encoder.rs:65-68 | the literals are appended as one clause; empty input is refused |
| CoreEncoder.CnfEncoder.AtMostOne | lib/core/src/encoder.rs:70-76 | the two nested loops append exactly the pairwise clauses, in the source's order |
| CoreEncoder.CnfEncoder.ExactlyOne | lib/core/src/encoder.rs:60-63 | the at-least-one clause, then the pairwise clauses |
| CoreEncoder.CnfEncoder.NewDirect | lib/core/src/encoder.rs:52-55 | one fresh consecutive variable per value, in order; clauses unchanged |
| CoreEncoder.CnfEncoder.ToDimacs | lib/core/src/encoder.rs:37-47 | the output is the header and one `0`-terminated line per clause |
| CoreExpr.Eval | lib/core/src/formula/expr.rs:163-174 | a fully mapped expression always has a value; a terminal panics exactly when it is missing from the mapping; a negation flips its argument's value |
| CoreExpr.EvalSeq | lib/core/src/formula/expr.rs:170-171 | `all`/`any` over mapped arguments never panics |
| CoreExpr.Decider | lib/core/src/formula/expr.rs:170-171 | the first argument that is not `unit`, with every earlier one `unit` |
| CoreExpr.EvalSeqMeaning | lib/core/src/formula/expr.rs:170-171 | short-circuit `all`/`any`: `unit` when every argument is, else the value (or panic) of the first deciding argument |
| CoreExpr.EvalSeqSingle | lib/core/src/formula/expr.rs:170-171 | one argument decides as itself |
| CoreExpr.EvalSeqAppend | lib/core/src/formula/expr.rs:170-171 | `a + b` reads `b` only when all of `a` is `unit` |
| CoreExpr.EvalSeqMapped | lib/core/src/formula/expr.rs:170-171 | with every argument mapped, `all` and `any` are the universal and existential quantifiers |
| CoreExpr.MkAndEval | lib/core/src/formula/expr.rs:27-38 | `Expr::and` (collapsing a single argument) changes no value, panics included |
| CoreExpr.MkOrEval | lib/core/src/formula/expr.rs:40-51 | `Expr::or` changes no value, panics included |
| CoreExpr.JunctionPair | lib/core/src/formula/expr.rs:118-151 | splicing the arguments of a same-kind junction changes no value |
| CoreExpr.ConjEval | lib/core/src/formula/expr.rs:118-127 | `lhs & rhs` has the value of the conjunction of `lhs` and `rhs` |
| CoreExpr.DisjEval | lib/core/src/formula/expr.rs:142-151 | `lhs \| rhs` has the value of the disjunction of `lhs` and `rhs` |
| CoreExpr.ConjFlattens | lib/core/src/formula/expr.rs:118-127 | the four cases of `&`: conjunctions on either side are spliced in order |
| CoreExpr.DisjFlattens | lib/core/src/formula/expr.rs:142-151 | the four cases of `\|`: disjunctions on either side are spliced in order |
| CoreExpr.ToNnfEval | lib/core/src/formula/expr.rs:201-260 | under a model agreeing with the mapping the normal form is true exactly when the expression is, and the negated normal form exactly when it is false |
| CoreExpr.ConjunctionNnfEval | lib/core/src/formula/expr.rs:253-255 | the conjunction case of `ToNnfEval` |
| CoreExpr.ConjunctionNegationEval | lib/core/src/formula/expr.rs:242-250 | the negated conjunction becomes a disjunction of negations with the opposite value |
| CoreExpr.DisjunctionNnfEval | lib/core/src/formula/expr.rs:258-260 | the disjunction case of `ToNnfEval` |
| CoreExpr.DisjunctionNegationEval | lib/core/src/formula/expr.rs:242-250 | the negated disjunction becomes a conjunction of negations with the opposite value |
| CoreExpr.ToNnfEvalArgs | lib/core/src/formula/expr.rs:253-260 | `ToNnfEval` holds for every argument of a junction |
| CoreExpr.ToNnfShape | lib/core/src/formula/expr.rs:201-260 | the normal forms keep every argument list and every variable, so `to_cnf` can take them without panicking |
| CoreExpr.Restrict | lib/core/src/formula/expr.rs:163-174 | the mapping of a model on the variables `1 .. n` |
| CoreExpr.VarsInMapped | lib/core/src/formula/expr.rs:163-174 | an expression over `1 .. n` is fully mapped by that mapping |
| CoreExpr.ExprToCnfCorrect | lib/core/src/formula/expr.rs:201-260 | `to_nnf` then `to_cnf` never panics; every model of the clauses makes the expression true, and every model of the expression extends to a model of the clauses (with the corrected disjunction gate, `written` false; of the code as written it fails, see `OrGateWrittenUnsound`) |
| CoreExpr.SampleToNnf | lib/core/src/formula/expr.rs:268-286 | the test expression's normal form is `x8 & (-x1 & -x2)` |
| CoreNnf.ReifiableConvertible | lib/core/src/formula/nnf.rs:60-94 | without empty argument lists `to_cnf` meets neither its `panic!` nor its `debug_assert_ne!` |
| CoreNnf.WithinMono | lib/core/src/formula/nnf.rs:87-151 | a formula over variables up to `n` is also over variables up to any larger bound |
| CoreNnf.AndGate | lib/core/src/formula/nnf.rs:107-122 | the conjunction branch emits one long clause and one binary clause per literal |
| CoreNnf.OrGateWritten | lib/core/src/formula/nnf.rs:123-138 | the disjunction branch as written emits one long clause and one binary clause per literal |
| CoreNnf.OrGate | lib/core/src/formula/nnf.rs:124 | the gate the comment announces has one long clause and one binary clause per literal |
| CoreNnf.AllTrueNegs | lib/core/src/formula/nnf.rs:113-115 | all negations true exactly when the clause of the literals is false |
| CoreNnf.AndGateMeaning | lib/core/src/formula/nnf.rs:107-122 | the conjunction clauses hold exactly when `z <=> AND(lits)` |
| CoreNnf.OrGateWrittenMeaning | lib/core/src/formula/nnf.rs:123-138 | the written disjunction clauses hold exactly when `z <=> NAND(lits)` |
| CoreNnf.OrGateMeaning | lib/core/src/formula/nnf.rs:124 | the corrected disjunction clauses hold exactly when `z <=> OR(lits)` |
| CoreNnf.Reification | lib/core/src/formula/nnf.rs:87-151 | a literal stands for itself with no clauses; two or more arguments get the next fresh variable; the counter never goes down; `written` picks the disjunction gate as the source writes it, otherwise the gate its comment describes |
| CoreNnf.ReifyAll | lib/core/src/formula/nnf.rs:99-103 | the loop yields one literal per argument and never lowers the counter; `written` as in `Reification` |
| CoreNnf.Translation | lib/core/src/formula/nnf.rs:60-85 | a literal becomes a unit clause; the counter never goes down; `written` as in `Reification` |
| CoreNnf.TranslateAll | lib/core/src/formula/nnf.rs:64-68 | translating the conjuncts in turn never lowers the counter; `written` as in `Reification` |
| CoreNnf.ReificationSound | lib/core/src/formula/nnf.rs:87-151 | in every model of its clauses the literal `reify` returns has the formula's value (with the corrected disjunction gate, `written` false; of the code as written it fails, see `OrGateWrittenUnsound`) |
| CoreNnf.ReifyAllSound | lib/core/src/formula/nnf.rs:99-103 | in every model of the loop's clauses each returned literal has its argument's value (with the corrected disjunction gate, `written` false) |
| CoreNnf.TranslationSound | lib/core/src/formula/nnf.rs:60-85 | every model of the clauses `to_cnf` emits satisfies the formula (with the corrected disjunction gate, `written` false; of the code as written it fails, see `OrGateWrittenUnsound`) |
| CoreNnf.TranslateAllSound | lib/core/src/formula/nnf.rs:64-68 | every model of a conjunction's clauses satisfies every conjunct (with the corrected disjunction gate, `written` false) |
| CoreNnf.AgreeLit | lib/core/src/formula/nnf.rs:87-151 | models that agree on the variables up to `k` agree on each literal up to `k` |
| CoreNnf.AgreeMono | lib/core/src/formula/nnf.rs:87-151 | agreement up to `k` implies agreement up to any smaller bound |
| CoreNnf.AgreeCnf | lib/core/src/formula/nnf.rs:87-151 | agreeing models satisfy the same clauses over the shared variables |
| CoreNnf.AgreeEval | lib/core/src/formula/nnf.rs:87-151 | agreeing models give a formula over the shared variables the same value |
| CoreNnf.ClausesWithinAppend | lib/core/src/formula/nnf.rs:101 | joining two clause lists over variables up to `k` stays over variables up to `k` |
| CoreNnf.ClausesWithinMono | lib/core/src/formula/nnf.rs:87-151 | clauses over variables up to `k` are also over variables up to any larger bound |
| CoreNnf.GateWithin | lib/core/src/formula/nnf.rs:105-138 | gate clauses use only `z` and the literals |
| CoreNnf.ReificationWithin | lib/core/src/formula/nnf.rs:87-151 | the literal and the clauses of `reify` use only variables up to the final counter |
| CoreNnf.ReifyAllWithin | lib/core/src/formula/nnf.rs:99-103 | the same for the loop over the arguments |
| CoreNnf.WitnessFrame | lib/core/src/formula/nnf.rs:87-151 | the extending model changes no variable handed out before `reify` began |
| CoreNnf.WitnessAllFrame | lib/core/src/formula/nnf.rs:99-103 | the same for the loop |
| CoreNnf.SetFresh | lib/core/src/formula/nnf.rs:105 | setting the fresh variable `z` disturbs no earlier clause or literal |
| CoreNnf.WitnessComplete | lib/core/src/formula/nnf.rs:87-151 | any model extends to one that satisfies the clauses of `reify`, with the returned literal taking the formula's value (with the corrected disjunction gate, `written` false) |
| CoreNnf.WitnessAndComplete | lib/core/src/formula/nnf.rs:107-122 | the conjunction case of `WitnessComplete` |
| CoreNnf.WitnessOrComplete | lib/core/src/formula/nnf.rs:123-138 | the disjunction case of `WitnessComplete`, with the corrected gate |
| CoreNnf.WitnessAllComplete | lib/core/src/formula/nnf.rs:99-103 | the same for the loop (with the corrected disjunction gate, `written` false) |
| CoreNnf.TranslationWithin | lib/core/src/formula/nnf.rs:60-85 | the clauses of `to_cnf` use only variables up to the final counter |
| CoreNnf.TranslateAllWithin | lib/core/src/formula/nnf.rs:64-68 | the same for a conjunction's arguments |
| CoreNnf.CnfWitnessFrame | lib/core/src/formula/nnf.rs:60-85 | the extending model for `to_cnf` keeps the variables up to `n` |
| CoreNnf.CnfWitnessAllFrame | lib/core/src/formula/nnf.rs:64-68 | the same for a conjunction's arguments |
| CoreNnf.TranslationComplete | lib/core/src/formula/nnf.rs:60-85 | every model of the formula, extended by fresh variables, satisfies the clauses of `to_cnf` (with the corrected disjunction gate, `written` false) |
| CoreNnf.TranslateAllComplete | lib/core/src/formula/nnf.rs:64-68 | the same for a conjunction's arguments (with the corrected disjunction gate, `written` false) |
| CoreNnf.TranslationCorrect | lib/core/src/formula/nnf.rs:60-151 | `to_cnf` is equisatisfiable: models of the clauses satisfy the formula, and models of the formula extend to models of the clauses (with the corrected disjunction gate, `written` false; of the code as written it fails, see `OrGateWrittenUnsound`) |
| CoreNnf.NestedOrClauses | lib/core/src/formula/nnf.rs:69-82 | with either gate, `(x1 \| x2) \| x3` reifies the inner disjunction with `z = 4` and is joined by `[4, 3]` |
| CoreNnf.OrGateWrittenListed | lib/core/src/formula/nnf.rs:123-138 | the written gate on `[1, 2]` with `z = 4` is `[[-4, -1, -2], [4, 1], [4, 2]]` |
| CoreNnf.OrGateWrittenUnsound | lib/core/src/formula/nnf.rs:123-138 | `to_cnf` as written (`Translation` with `written`) is unsound: for `(x1 \| x2) \| x3`, the model with only `x4` true satisfies every emitted clause but falsifies the formula |
| CoreNnf.ThreeLits | lib/core/src/formula/nnf.rs:99-103 | reifying three literals in turn keeps them and adds no clauses |
| CoreNnf.Sample1Count | lib/core/src/formula/nnf.rs:159-172 | `or(x1, and(x2, x3, x4))` gives 5 clauses |
| CoreNnf.Sample2Count | lib/core/src/formula/nnf.rs:175-193 | `or(and(x1, x2, x3), and(x1, x2, x3))` gives 9 clauses |
| CoreNnf.Sample3Count | lib/core/src/formula/nnf.rs:196-211 | `or(or(or(and(x1, x2, x3))))` gives 3 clauses |
| CoreNnf.ReificationContext.constructor | lib/core/src/formula/nnf.rs:49-51 | the counter starts at the given value |
| CoreNnf.ReificationContext.NewVar | lib/core/src/formula/nnf.rs:53-56 | the counter goes up by one and its new value is returned |
| CoreNnf.Reify | lib/core/src/formula/nnf.rs:87-151 | the method's literal, clauses and counter are those of `Reification` from the old counter, with the corrected disjunction gate |
| CoreNnf.ReifyArgs | lib/core/src/formula/nnf.rs:97-103 | the loop's literals, clauses and counter are those of `ReifyAll`, with the corrected disjunction gate |
| CoreNnf.AndClauses | lib/core/src/formula/nnf.rs:107-122 | the two loops of the conjunction branch build exactly `AndGate(z, lits)` |
| CoreNnf.OrClauses | lib/core/src/formula/nnf.rs:123-138 | the disjunction branch, with corrected signs, builds exactly `OrGate(z, lits)` |
| CoreNnf.ToCnf | lib/core/src/formula/nnf.rs:60-85 | the method's clauses and counter are those of `Translation` from the old counter, with the corrected disjunction gate |
| CoreSimplify.Weight | lib/core/src/formula/simplify.rs:80-88 | the termination measure of the `simplify` loop is at least 1 |
| CoreSimplify.WeightAllAppend | lib/core/src/formula/simplify.rs:44 | the weight of spliced arguments is the sum of the parts |
| CoreSimplify.WeightAllSingle | lib/core/src/formula/simplify.rs:46 | one argument weighs its own weight |
| CoreSimplify.JunctionWeight | lib/core/src/formula/simplify.rs:49 | `Expr::and`/`Expr::or` weigh no more than the junction they replace |
| CoreSimplify.RewriteWeight | lib/core/src/formula/simplify.rs:18-35 | a step never increases the weight, and a step that reports a change strictly decreases it, so `simplify` ends |
| CoreSimplify.StepEachWeight | lib/core/src/formula/simplify.rs:44 | stepping each argument never increases the weight, and decreases it on a change |
| CoreSimplify.NegateEachWeight | lib/core/src/formula/simplify.rs:68-77 | the negated, stepped arguments weigh at most twice the arguments |
| CoreSimplify.LiftWeight | lib/core/src/formula/simplify.rs:38-65 | consolidation never increases the weight, and decreases it on a change |
| CoreSimplify.EvalSeqSnoc | lib/core/src/formula/simplify.rs:38-65 | appending an argument to the consolidated list reads it only when every earlier argument is `unit` |
| CoreSimplify.RewriteEval | lib/core/src/formula/simplify.rs:18-35 | one step keeps the value under every mapping, short-circuit and panics included |
| CoreSimplify.StepEachEval | lib/core/src/formula/simplify.rs:44 | stepping each argument keeps the value of the junction |
| CoreSimplify.NegateEachEval | lib/core/src/formula/simplify.rs:68-77 | De Morgan: the dual junction of the negated arguments has the opposite value |
| CoreSimplify.LiftEval | lib/core/src/formula/simplify.rs:38-65 | consolidation keeps the value of the junction |
| CoreSimplify.SimplifiedEval | lib/core/src/formula/simplify.rs:80-88 | `simplify` keeps the value of the expression under every mapping, panics included |
| CoreSimplify.Simplifier.constructor | lib/core/src/formula/simplify.rs:11-16 | `changed` starts false |
| CoreSimplify.Simplifier.Step | lib/core/src/formula/simplify.rs:18-35 | the method returns the step's result and raises `changed` exactly when the step rewrites under its rules |
| CoreSimplify.Simplifier.Consolidate | lib/core/src/formula/simplify.rs:38-65 | `consolidate_and`/`consolidate_or` splice same-kind arguments, step the rest, and raise `changed` on a splice or an inner change |
| CoreSimplify.Simplifier.DeMorgan | lib/core/src/formula/simplify.rs:68-77 | `de_morgan_and`/`de_morgan_or` build the dual junction of negated stepped arguments and always raise `changed` |
| CoreSimplify.Simplify | lib/core/src/formula/simplify.rs:80-88 | the loop ends and returns the fix-point of steps |
| CoreSimplify.LiftSnoc | lib/core/src/formula/simplify.rs:40-48 | one more loop iteration: a same-kind argument is spliced as a change, any other is stepped |
| CoreSimplify.StepEachSnoc | lib/core/src/formula/simplify.rs:44 | one more stepped argument |
| CoreSimplify.LiftTerminals | lib/core/src/formula/simplify.rs:38-65 | terminals are kept without a change |
| CoreSimplify.SimplifyAnd | lib/core/src/formula/simplify.rs:95-129 | the test's conjunction simplifies to `1 & (2 \| 3) & 4 & 5 & 6 & 7` |
| CoreSimplify.SimplifyAndFirst | lib/core/src/formula/simplify.rs:95-129 | the first step splices `(4 & 5)` and `(7)` and reports a change |
| CoreSimplify.SimplifyAndSecond | lib/core/src/formula/simplify.rs:95-129 | the second step reports no change |
| CoreSimplify.SimplifyNested | lib/core/src/formula/simplify.rs:169-218 | the nested disjunction simplifies to `1 \| 2 \| 3 \| 4 \| 5 \| 6` |
| CoreSimplify.NestedDeMorgan | lib/core/src/formula/simplify.rs:169-218 | De Morgan on `!(!5 & !6)` |
| CoreSimplify.NestedInner | lib/core/src/formula/simplify.rs:169-218 | the inner `3 \| (4 \| ...)` after one step |
| CoreSimplify.NestedFirst | lib/core/src/formula/simplify.rs:169-218 | the whole test expression after one step |
| CoreSimplify.NestedDoubleNegations | lib/core/src/formula/simplify.rs:169-218 | the double negations drop |
| CoreSimplify.NestedSecond | lib/core/src/formula/simplify.rs:169-218 | the expression after two steps |
| CoreSimplify.NestedThird | lib/core/src/formula/simplify.rs:169-218 | the expression after three steps, already flat |
| CoreSimplify.NestedFourth | lib/core/src/formula/simplify.rs:169-218 | the fourth step reports no change |
| CoreSimplify.SimplifyStopsEarly | lib/core/src/formula/simplify.rs:80-88 | `simplify` can stop at an expression another step would still change: a collapsed single-argument conjunction is not counted as a change |
| CoreTotalizer.CellSat | lib/core/src/card/totalizer.rs:47-75 | a model of the merge satisfies every cell's `c1` and `c2` clause |
| CoreTotalizer.ColsSat | lib/core/src/card/totalizer.rs:48-74 | a model of one row's clauses satisfies each of its cells |
| CoreTotalizer.GridSat | lib/core/src/card/totalizer.rs:47-75 | a model of the rows so far satisfies each of their cells |
| CoreTotalizer.MergeUp | lib/core/src/card/totalizer.rs:50-57 | with `a` counting `ca` and `b` counting `cb` in unary, the `c1` clauses force `r[s]` true for every `s < ca + cb` |
| CoreTotalizer.MergeDown | lib/core/src/card/totalizer.rs:58-66 | the `c2` clauses force `r[s]` false for every `s >= ca + cb` |
| CoreTotalizer.MergeCounts | lib/core/src/card/totalizer.rs:39-78 | a model of one merge's clauses makes `r` count `ca + cb` in unary |
| CoreTotalizer.Fresh | lib/core/src/card/totalizer.rs:45 | `m` calls of `new_var` give `m` variables |
| CoreTotalizer.DeclareFromStep | lib/core/src/card/totalizer.rs:39-78 | one round of the `while` loop: merge the two front counters into fresh variables and queue the result |
| CoreTotalizer.Singletons | lib/core/src/card/totalizer.rs:35-37 | one singleton counter per input |
| CoreTotalizer.DeclareFromLength | lib/core/src/card/totalizer.rs:39-78 | the surviving counter has as many outputs as the queue has literals |
| CoreTotalizer.DeclareLength | lib/core/src/card/totalizer.rs:29-85 | `declare` has one output per input |
| CoreTotalizer.SingletonsLength | lib/core/src/card/totalizer.rs:35-37 | the singleton queue holds one literal per input |
| CoreTotalizer.QueueShift | lib/core/src/card/totalizer.rs:40-41 | popping two counters and pushing a new one keeps every queued counter counting its entry |
| CoreTotalizer.DeclareFromNonZero | lib/core/src/card/totalizer.rs:39-78 | the surviving counter holds no literal 0 |
| CoreTotalizer.DeclareFromCounts | lib/core/src/card/totalizer.rs:39-78 | in a model of the clauses the surviving counter counts the total of the queue |
| CoreTotalizer.DeclareFromBase | lib/core/src/card/totalizer.rs:82 | a single counter left in the queue counts its total |
| CoreTotalizer.MergeIntoQueue | lib/core/src/card/totalizer.rs:39-78 | one merge keeps the queue counting the same total |
| CoreTotalizer.Indicators | lib/core/src/card/totalizer.rs:35-37 | one count per input |
| CoreTotalizer.IndicatorsSum | lib/core/src/card/totalizer.rs:35-37 | the singleton counts add up to the number of true inputs |
| CoreTotalizer.DeclareCounts | lib/core/src/card/totalizer.rs:29-85 | in every model of the totalizer clauses the outputs count the true inputs in unary |
| CoreTotalizer.UpperMeaning | lib/core/src/card/totalizer.rs:133-147 | on a unary counter the units `-out[i-1]` for `i` in `lo..=hi` say "fewer than `lo`" |
| CoreTotalizer.LowerMeaning | lib/core/src/card/totalizer.rs:149-160 | on a unary counter the units `out[i-1]` for `i` in `lo..=hi` say "at least `hi`" |
| CoreTotalizer.DeclaredBounds | lib/core/src/card/totalizer.rs:87-131 | after `declare` with an upper bound `< ub` and a lower bound `>= lb`, the clauses hold exactly when `lb <= count < ub` |
| CoreTotalizer.Totalizer.constructor | lib/core/src/card/totalizer.rs:21-27 | the given outputs, no bounds declared |
| CoreTotalizer.Totalizer.Declare | lib/core/src/card/totalizer.rs:29-85 | the `while` loop's outputs, clauses and new variable count are those of `DeclareRun` |
| CoreTotalizer.Totalizer.MergeFront | lib/core/src/card/totalizer.rs:40-77 | pops two counters, merges them into fresh variables and pushes the result |
| CoreTotalizer.Totalizer.NewVars | lib/core/src/card/totalizer.rs:45 | `m` consecutive fresh variables; no clauses added |
| CoreTotalizer.Totalizer.Merge | lib/core/src/card/totalizer.rs:47-75 | the two nested loops append exactly the merge clauses |
| CoreTotalizer.Totalizer.MergeRow | lib/core/src/card/totalizer.rs:48-74 | the inner loop appends one row of cells |
| CoreTotalizer.Totalizer.MergeCell | lib/core/src/card/totalizer.rs:49-73 | one cell appends its `c1` clause, then its `c2` clause, as the `if` chains choose them |
| CoreTotalizer.Totalizer.DeclareUpperBoundLessThan | lib/core/src/card/totalizer.rs:87-101 | a strictly smaller bound is recorded and the units from it up to the old bound are appended |
| CoreTotalizer.Totalizer.DeclareUpperBoundLessThanOrEqual | lib/core/src/card/totalizer.rs:103-108 | the same with `new_ub + 1` |
| CoreTotalizer.Totalizer.DeclareLowerBoundGreaterThan | lib/core/src/card/totalizer.rs:110-115 | `declare_lower_bound_greater_than_or_equal` with `new_lb + 1` |
| CoreTotalizer.Totalizer.DeclareLowerBoundGreaterThanOrEqual | lib/core/src/card/totalizer.rs:117-131 | a bound no smaller than before is recorded and the units from the old bound up to it are appended |
| CoreTotalizer.Totalizer.DeclareComparatorLessThan | lib/core/src/card/totalizer.rs:133-147 | records `ub` and appends `-out[i-1]` for `i` from `ub` to the previous bound (or the length) |
| CoreTotalizer.Totalizer.DeclareComparatorGreaterThanOrEqual | lib/core/src/card/totalizer.rs:149-160 | records `lb` and appends `out[i-1]` for `i` from the previous bound (or 1) to `lb` |
| BackdoorDerivation.CountZero | examples/backdoor/src/derivation.rs:72-80 | a polarity count is zero exactly when no cube has that polarity at the position |
| BackdoorDerivation.CountUpToZero | examples/backdoor/src/derivation.rs:72-80 | the same over the first `m` cubes |
| BackdoorDerivation.PairCountZero | examples/backdoor/src/derivation.rs:111-131 | a pair counter is zero exactly when no cube has that sign combination at the two positions |
| BackdoorDerivation.PairCountUpToZero | examples/backdoor/src/derivation.rs:111-131 | the same over the first `m` cubes |
| BackdoorDerivation.PairQuadUpTo | examples/backdoor/src/derivation.rs:122-128 | the tuple `(pp, pn, np, nn)` holds the four pair counts |
| BackdoorDerivation.Vars | examples/backdoor/src/derivation.rs:88 | the variables of the first cube, position by position |
| BackdoorDerivation.Tally | examples/backdoor/src/derivation.rs:61-80 | `count` after the first loop: per position the positive and the negative occurrences |
| BackdoorDerivation.PairTally | examples/backdoor/src/derivation.rs:100-131 | `count_pair` after the second loop, for every pair of positions |
| BackdoorDerivation.Blocks | examples/backdoor/src/derivation.rs:159-201 | the clauses of each pair of positions from its four counters |
| BackdoorDerivation.PairBlocks | examples/backdoor/src/derivation.rs:149-203 | the clause blocks of every pair of positions of the cubes |
| BackdoorDerivation.UnitsAtMember | examples/backdoor/src/derivation.rs:90-97 | a position yields `[-v]` exactly when never positive and `[v]` exactly when never negative |
| BackdoorDerivation.UnitsIn | examples/backdoor/src/derivation.rs:87-98 | every unit of a position is among the emitted units |
| BackdoorDerivation.UnitsFrom | examples/backdoor/src/derivation.rs:87-98 | every emitted unit comes from some position |
| BackdoorDerivation.PairsAtMember | examples/backdoor/src/derivation.rs:162-201 | a pair clause excludes exactly one sign combination whose counter is zero |
| BackdoorDerivation.RowPairsIn | examples/backdoor/src/derivation.rs:154-202 | the clauses of a live pair are in its row |
| BackdoorDerivation.RowPairsFrom | examples/backdoor/src/derivation.rs:154-202 | a row's clauses come from live pairs of it |
| BackdoorDerivation.BinariesIn | examples/backdoor/src/derivation.rs:149-203 | the clauses of every live pair are emitted |
| BackdoorDerivation.BinariesFrom | examples/backdoor/src/derivation.rs:149-203 | every emitted binary clause comes from a live pair |
| BackdoorDerivation.UnitsShape | examples/backdoor/src/derivation.rs:87-98 | the units are clauses of one literal |
| BackdoorDerivation.PairsAtShape | examples/backdoor/src/derivation.rs:162-201 | the pair clauses have two literals |
| BackdoorDerivation.RowPairsShape | examples/backdoor/src/derivation.rs:154-202 | a row's clauses have the blocks' length |
| BackdoorDerivation.BinariesShape | examples/backdoor/src/derivation.rs:149-203 | the binary clauses have the blocks' length |
| BackdoorDerivation.PairBlocksShape | examples/backdoor/src/derivation.rs:149-203 | every block holds clauses of two literals |
| BackdoorDerivation.DerivedShape | examples/backdoor/src/derivation.rs:49-206 | only units and binary clauses are derived, units first, as the comment at line 50 says |
| BackdoorDerivation.DerivedOnly | examples/backdoor/src/derivation.rs:49-206 | every derived clause is a unit of a position or the clause of a sign combination no cube has at two non-unit positions |
| BackdoorDerivation.NotInPairsAt | examples/backdoor/src/derivation.rs:162-201 | a clause of another length is no pair clause |
| BackdoorDerivation.UnitDerived | examples/backdoor/src/derivation.rs:87-98 | with distinct variables, `[-v]` is derived exactly when position `v` is never positive and `[v]` exactly when never negative |
| BackdoorDerivation.PairOfUnique | examples/backdoor/src/derivation.rs:159-201 | with distinct variables, a pair clause determines its positions and its combination |
| BackdoorDerivation.PairIncluded | examples/backdoor/src/derivation.rs:149-203 | the clause of a combination no cube has at two non-unit positions is derived |
| BackdoorDerivation.PairDerived | examples/backdoor/src/derivation.rs:149-203 | at two non-unit positions, the clause excluding a combination is derived exactly when no cube has it |
| BackdoorDerivation.AtPosition | examples/backdoor/src/derivation.rs:54-57 | in aligned cubes the literal at a position is that position's variable with the cube's polarity |
| BackdoorDerivation.UnitSound | examples/backdoor/src/derivation.rs:87-98 | every cube satisfies each derived unit |
| BackdoorDerivation.PairSound | examples/backdoor/src/derivation.rs:149-203 | every cube satisfies each derived pair clause |
| BackdoorDerivation.DerivedSound | examples/backdoor/src/derivation.rs:49-206 | every derived clause is satisfied by every hard cube |
| BackdoorDerivation.Bump | examples/backdoor/src/derivation.rs:123-128 | raising one counter of the tuple leaves the other three |
| BackdoorDerivation.QuadStep | examples/backdoor/src/derivation.rs:111-131 | counting one more cube raises the counter of the combination it has |
| BackdoorDerivation.CountPolarities | examples/backdoor/src/derivation.rs:61-80 | the first loop fills the count array with `Tally` |
| BackdoorDerivation.AddCube | examples/backdoor/src/derivation.rs:112-130 | one pass adds cube `k` to the counters of every live pair |
| BackdoorDerivation.CountPairs | examples/backdoor/src/derivation.rs:100-131 | the second loop gives every live pair its `PairTally` counters |
| BackdoorDerivation.PairClauses | examples/backdoor/src/derivation.rs:159-201 | the four `if`s push exactly the pair clauses of the counters, in order |
| BackdoorDerivation.EmitUnits | examples/backdoor/src/derivation.rs:87-98 | the unit loop pushes exactly the units of every position, in order |
| BackdoorDerivation.RowPairsSkip | examples/backdoor/src/derivation.rs:155-157 | a unit position adds no binary clauses |
| BackdoorDerivation.RowPairsStep | examples/backdoor/src/derivation.rs:154-202 | a live position adds its pair clauses |
| BackdoorDerivation.BinariesSkip | examples/backdoor/src/derivation.rs:150-152 | a unit row adds no binary clauses |
| BackdoorDerivation.EmitPair | examples/backdoor/src/derivation.rs:159-201 | the inner loop body for a live pair pushes its block |
| BackdoorDerivation.EmitRow | examples/backdoor/src/derivation.rs:154-202 | the inner loop pushes the clauses of its row, in order |
| BackdoorDerivation.EmitBinaries | examples/backdoor/src/derivation.rs:149-203 | the outer loop pushes the binary clauses of every live row, in order |
| BackdoorDerivation.CountedBlocks | examples/backdoor/src/derivation.rs:100-203 | the counters of `count_pair` give the clause blocks of the live pairs |
| BackdoorDerivation.DeriveClauses | examples/backdoor/src/derivation.rs:49-206 | `derive_clauses` returns `Derived(hard)`: the units of every position, then the binary clauses of every live pair |
| PartUtils.Num2BitsOf | examples/partition/src/utils.rs:9-13 | `n` bits, most significant first; only the lowest 32 bits of `x` are written |
| PartUtils.Num2Bits | examples/partition/src/utils.rs:7-16 | the loop fills the vector with `Num2BitsOf(x, n)`; the `assert!` demands `x < 2^n` |
| PartUtils.LowBits | examples/partition/src/utils.rs:11-13 | all `n` low bits of `x`, most significant first |
| PartUtils.LowBitsValue | examples/partition/src/utils.rs:7-16 | the low `n` bits of a number below `2^n` read back as the number |
| PartUtils.BitAbove | examples/partition/src/utils.rs:11-13 | the bits of a number below `2^i` at and above `i` are clear |
| PartUtils.Num2BitsValue | examples/partition/src/utils.rs:7-16 | `num2bits` loses nothing while the number fits in 32 bits |
| PartUtils.Num2BitsDropsHighBits | examples/partition/src/utils.rs:11 | from 33 bits up, `num2bits(2^32, 33)` reads back as 0: bits at position 32 and above are never written |
| PartUtils.ZeroBitsBelow | examples/partition/src/utils.rs:11-13 | `2^n` has no set bit below `n` |
| PartUtils.ZeroNum | examples/partition/src/utils.rs:22-36 | all-clear bits read as 0 |
| PartUtils.Bits2Num | examples/partition/src/utils.rs:22-36 | `bits2num` of at most 32 bits is the most-significant-first value and fits in a `u32` |
| PartUtils.Bits2NumOfNum2Bits | examples/partition/src/utils.rs:7-36 | `bits2num(num2bits(x, n)) == x` for `n <= 32` |
| PartUtils.Num2BitsOfBits2Num | examples/partition/src/utils.rs:7-36 | `num2bits(bits2num(b), \|b\|) == b` for at most 32 bits |
| PartUtils.LowBitsOfNum | examples/partition/src/utils.rs:7-36 | the low bits of a vector's value give back the vector |
| PartUtils.BitsToStr | examples/partition/src/utils.rs:18-20 | one character per bit, `'1'` exactly for a set bit, otherwise `'0'` |
| PartUtils.BitsToStrInjective | examples/partition/src/utils.rs:18-20 | different vectors give different strings |
| PartUtils.ToDimacs | examples/partition/src/utils.rs:38-45 | each literal's decimal text followed by a space, then `0` |
| PartUtils.PowerHalf | examples/partition/src/utils.rs:47-49 | an even number above 1 is a power of two exactly when its half is |
| PartUtils.PowerOdd | examples/partition/src/utils.rs:47-49 | an odd number above 1 is no power of two |
| PartUtils.AndPredecessor | examples/partition/src/utils.rs:48 | `x & (x - 1) == 0` exactly when `x` is a power of two |
| PartUtils.IsPowerOfTwo | examples/partition/src/utils.rs:47-49 | for `x >= 1`, the result holds exactly for the powers of two |
| PartUtils.RunEnd | examples/partition/src/utils.rs:189-191 | the inner `while` stops at the end of the run of consecutive numbers |
| PartUtils.ExtractStep | examples/partition/src/utils.rs:187-202 | one pass of the outer loop emits the intervals of one run and continues after it |
| PartUtils.ExtractIntervals | examples/partition/src/utils.rs:183-204 | the cursor loop returns `ExtractFrom(data, 0)` |
| PartUtils.RunValues | examples/partition/src/utils.rs:189-191 | along a run each number is one more than the one before |
| PartUtils.ExtractCovers | examples/partition/src/utils.rs:183-204 | the intervals of `data[i..]` list exactly its numbers, in order |
| PartUtils.RunPiece | examples/partition/src/utils.rs:192-200 | the intervals of one run stand for the numbers of that run |
| PartUtils.Count | examples/partition/src/utils.rs:192-200 | `n` consecutive numbers from `low` |
| PartUtils.RunFlatten | examples/partition/src/utils.rs:193-200 | one run's intervals stand for the numbers from `low` to `high` |
| PartUtils.ExtractRanges | examples/partition/src/utils.rs:193-194 | only runs of three or more become a range |
| PartUtils.ExtractIntervalsCovers | examples/partition/src/utils.rs:183-204 | reading back the intervals gives the input, and every range spans at least three numbers |
| PartInterval.GetBounds | examples/partition/src/interval.rs:18-22 | interval `index` holds exactly `size` numbers |
| PartInterval.BoundsAbut | examples/partition/src/interval.rs:18-22 | the first interval starts at 0 and consecutive intervals abut |
| PartInterval.BoundsDisjoint | examples/partition/src/interval.rs:18-22 | distinct intervals do not overlap |
| PartInterval.BoundsCover | examples/partition/src/interval.rs:18-22 | every number lies in interval `v / size` |
| PartInterval.BoundsLocate | examples/partition/src/interval.rs:18-22 | a number lies in interval `index` exactly when `index == v / size` |
| PartInterval.EncodeInterval | examples/partition/src/interval.rs:10-16 | `encode_both` of the literals between `num2bits(low)` and `num2bits(high)` |
| PartInterval.IntervalMeaning | examples/partition/src/interval.rs:10-16 | for bounds of at most 32 bits with `low <= high`, the clauses hold exactly when the literals' number lies in `low..=high` |
| PartInterval.BothReifiedMeaning | examples/partition/src/interval.rs:67-69 | the three closing clauses say `t_both <=> (t_geq && t_leq)` |
| PartInterval.EncodeIntervalReified | examples/partition/src/interval.rs:58-71 | the reified geq clauses, the reified leq clauses, then the three closing clauses |
| PartInterval.ReifiedMeaning | examples/partition/src/interval.rs:58-71 | given correct reified comparisons, the clauses hold exactly when `t_geq`, `t_leq` and `t_both` mean their comparisons, so `t_both` true puts the value in `low..=high` |
| PartInterval.SolveInterval | examples/partition/src/interval.rs:24-40 | the query adds the interval clauses of `get_bounds`, no variable and no assumption |
| PartInterval.SolveIntervalReified | examples/partition/src/interval.rs:73-101 | three fresh variables are allocated first, the reified clauses are added, and `t_both` is assumed |
| PartParsers.ParseInterval | lib/partition/src/parsers.rs:13-27 | a parsed interval's bounds fit the type; text without `-` is a single number |
| PartParsers.ShowInterval | lib/partition/src/parsers.rs:13-27 | the text of an interval has no comma |
| PartParsers.IntervalRoundTrip | lib/partition/src/parsers.rs:13-27 | parsing the text of an interval gives it back |
| PartParsers.RangeValues | lib/partition/src/parsers.rs:22-25 | `start..=end` lists its numbers in order, empty when `start > end` |
| PartParsers.FailureStays | lib/partition/src/parsers.rs:7-9 | a panic on one part is a panic of the whole |
| PartParsers.VariablesStep | lib/partition/src/parsers.rs:7-9 | each part extends the result with its range |
| PartParsers.ParseInputVariables | lib/partition/src/parsers.rs:5-11 | the loop returns `VariablesOf` of the comma-separated parts, all `u32` values |
| PartParsers.VariablesOfShown | lib/partition/src/parsers.rs:5-11 | the texts of intervals parse to their values, concatenated in order |
| PartParsers.InputVariablesRoundTrip | lib/partition/src/parsers.rs:5-11 | a comma-separated list of intervals parses to the values of the intervals |
| PartParsers.ParseIntegerMaybePower | lib/partition/src/parsers.rs:29-38 | a parsed number fits in a `usize`; overflowing powers and malformed text fail |
| PartParsers.PlainRoundTrip | lib/partition/src/parsers.rs:35-37 | a plain number parses to itself |
| PartParsers.PowerRoundTrip | lib/partition/src/parsers.rs:30-34 | `b^p` parses to the power when it fits in a `usize` |
| PartParsers.PowerExample | lib/partition/src/parsers.rs:29-38 | `"2^20"` parses to 1048576 |
| BfCircuit.Consecutive | examples/bf/src/circuit.rs:99-104 | `count` pins allocated one after another |
| BfCircuit.OccurrencesConsecutive | examples/bf/src/circuit.rs:99-113 | consecutive pins hold each pin of `start+1..=start+count` once and no other |
| BfCircuit.GatePinsAppend | examples/bf/src/circuit.rs:105-117 | a new last gate's pins come after those of the earlier gates |
| BfCircuit.PinsDistinct | examples/bf/src/circuit.rs:29-119 | pins that hold each of `1..=n` once are all in `1..=n` and pairwise distinct |
| BfCircuit.PinsGrow | examples/bf/src/circuit.rs:99-113 | appending two fresh consecutive blocks keeps every pin of `1..=n` held once |
| BfCircuit.PinsInsert | examples/bf/src/circuit.rs:85-95 | appending pin `n + 1` to the inputs or outputs keeps every pin held once |
| BfCircuit.AddGateOk | examples/bf/src/circuit.rs:97-119 | a new gate with fresh consecutive pins keeps the circuit well formed |
| BfCircuit.AddPinOk | examples/bf/src/circuit.rs:85-95 | a new input or output pin keeps the circuit well formed |
| BfCircuit.PinsOkDistinct | examples/bf/src/circuit.rs:29-119 | all pins of a well-formed circuit are in `1..=num_pins` and pairwise distinct |
| BfCircuit.BooleanCircuit.constructor | examples/bf/src/circuit.rs:29-42 | inputs `1..=ni`, outputs `ni+1..=ni+no`, `num_pins = ni + no`, no gate, no connection |
| BfCircuit.BooleanCircuit.AddInput | examples/bf/src/circuit.rs:85-89 | `num_pins` goes up by one, the new pin is returned and appended to the inputs; nothing else changes |
| BfCircuit.BooleanCircuit.AddOutput | examples/bf/src/circuit.rs:91-95 | the same for the outputs |
| BfCircuit.BooleanCircuit.AddGate | examples/bf/src/circuit.rs:97-119 | returns the old gate count and gives the gate `num_inputs` then `num_outputs` consecutive fresh pins |
| BfCircuit.BooleanCircuit.AllocatePins | examples/bf/src/circuit.rs:99-104 | the `map` closure bumps `num_pins` `count` times and collects the new values |
| BfCircuit.BooleanCircuit.Connect | examples/bf/src/circuit.rs:121-126 | an unconnected pin gets its parent and nothing else changes; a connected pin is refused, as the `panic!` does |
| BfMap.Position | examples/bf/src/map.rs:62-64 | `None` exactly when the key is absent, otherwise its first index |
| BfMap.LookupAppendOld | examples/bf/src/map.rs:26-29 | adding a pair leaves the values of keys already present |
| BfMap.LookupAppendNew | examples/bf/src/map.rs:26-29 | a new key added at the end is found with its value |
| BfMap.LookupUpdate | examples/bf/src/map.rs:78-81 | writing through `get_mut(key)` changes the value of `key` and of no other key |
| BfMap.Map.constructor | examples/bf/src/map.rs:12-15 | keys and values as given; the `assert_eq!` demands equal lengths |
| BfMap.Map.Add | examples/bf/src/map.rs:26-29 | a new pair at the end; the lengths stay equal and `len` goes up by one |
| BfMap.Map.Len | examples/bf/src/map.rs:32-34 | the number of keys |
| BfMap.Map.IsEmpty | examples/bf/src/map.rs:37-39 | true exactly when there are no keys |
| BfMap.Map.Get | examples/bf/src/map.rs:72-75 | the value at the key's first position; an absent key panics |
| BfMap.Map.GetMut | examples/bf/src/map.rs:78-81 | a write through the reference replaces exactly the value at the key's first position |
| BfTable.RowInputs | examples/bf/src/table.rs:27 | input `j` of row `i` is bit `j` of `i` |
| BfTable.CompleteRows | examples/bf/src/table.rs:24-31 | `2^n` rows, row `i` with the bits of `i` and output `false` |
| BfTable.LsbValueBits | examples/bf/src/table.rs:27 | the number whose bits are `b` has exactly those bits |
| BfTable.CompleteCovers | examples/bf/src/table.rs:24-31 | every assignment of the inputs is a row of the complete table |
| BfTable.TruthTable.constructor | examples/bf/src/table.rs:11-16 | no rows |
| BfTable.TruthTable.AddRow | examples/bf/src/table.rs:19-21 | one more row at the end |
| BfTable.Complete | examples/bf/src/table.rs:24-31 | the loop builds `CompleteRows(n)`; `1 << n` demands `n < 64` |
| BfEncoder.SatEncoder.constructor | examples/bf/src/encoder.rs:11-16 | the given variable count and no clauses |
| BfEncoder.SatEncoder.NewVar | examples/bf/src/encoder.rs:27-30 | the count goes up by one and is returned |
| BfEncoder.SatEncoder.AddClause | examples/bf/src/encoder.rs:33-36 | a non-empty clause is appended; the empty clause is refused |
| BfEncoder.SatEncoder.AtLeastOne | examples/bf/src/encoder.rs:58-61 | the literals as one clause; empty input is refused |
| BfEncoder.SatEncoder.AtMostOne | examples/bf/src/encoder.rs:63-69 | the two loops append exactly the pairwise clauses, whose meaning `CoreEncoder.AtMostOneMeaning` states |
| BfEncoder.SatEncoder.ExactlyOne | examples/bf/src/encoder.rs:53-56 | the at-least-one clause, then the pairwise clauses, whose meaning `CoreEncoder.ExactlyOneMeaning` states |
| BfEncoder.SatEncoder.NewDirect | examples/bf/src/encoder.rs:73-76 | one fresh consecutive variable per value, in order, paired with the values |
| BfEncoder.SatEncoder.ToDimacs | examples/bf/src/encoder.rs:39-49 | the header and one `0`-terminated line per clause |
| BfEncodingFormula.Ord | examples/bf/src/encoding_formula.rs:32 | each node type has a position among the four possible types, and the type list holds that type there |
| BfEncodingFormula.EachSat | examples/bf/src/encoding_formula.rs:31-280 | a model satisfies a range of per-index clause groups exactly when it satisfies every group in the range |
| BfEncodingFormula.EachClamp | examples/bf/src/encoding_formula.rs:91 | a range whose end lies below its start (such as `3..=num_nodes-1` for small trees) contributes no clauses |
| BfEncodingFormula.DirectOne | examples/bf/src/encoding_formula.rs:33-36 | `new_direct` then `exactly_one`: one fresh variable per key, numbered consecutively, plus exactly the exactly-one clauses over them |
| BfEncodingFormula.WithinSnoc | examples/bf/src/encoding_formula.rs:30-39 | adding a row of freshly allocated variables keeps every table entry inside the allocated range |
| BfEncodingFormula.OneEachSnoc | examples/bf/src/encoding_formula.rs:33-36 | one more node's one-hot variables add exactly that node's exactly-one clauses |
| BfEncodingFormula.TypePhase | examples/bf/src/encoding_formula.rs:29-39 | allocates four type variables per node and emits each node's exactly-one clauses right after its allocation |
| BfEncodingFormula.LastPhase | examples/bf/src/encoding_formula.rs:41-54 | emits the unit clause "last node is a terminal" and, when there are two or more nodes, "the node before last is neither AND nor OR" |
| BfEncodingFormula.IndexPhase | examples/bf/src/encoding_formula.rs:56-66 | allocates `variables + 1` index variables per node and emits each node's exactly-one clauses |
| BfEncodingFormula.TermIndexPhase | examples/bf/src/encoding_formula.rs:68-75 | appends the two clauses per node that make "terminal" equivalent to "index is not 0", and no variables |
| BfEncodingFormula.ParentPhase | examples/bf/src/encoding_formula.rs:77-87 | allocates parent variables `1..node` for every node from 2 on (a triangle of them) with one exactly-one group per node |
| BfEncodingFormula.BfsParent | examples/bf/src/encoding_formula.rs:92-97 | the BFS clauses for one node and one first parent |
| BfEncodingFormula.BfsNode | examples/bf/src/encoding_formula.rs:91-98 | the BFS clauses for one node, parent by parent |
| BfEncodingFormula.BfsPhase | examples/bf/src/encoding_formula.rs:89-99 | appends the BFS clauses for nodes `3..=n-1`, none when there are fewer than four nodes |
| BfEncodingFormula.ChildKeys | examples/bf/src/encoding_formula.rs:104-106 | a node's child keys are "no child" (0) and then every later node, `n - node + 1` keys in all |
| BfEncodingFormula.ChildPhase | examples/bf/src/encoding_formula.rs:101-113 | allocates the child variables of every node, "no child" first, and emits each node's exactly-one clauses |
| BfEncodingFormula.ChildParentNode | examples/bf/src/encoding_formula.rs:118-123 | the clauses "if c is node's child then node is c's parent" for one node |
| BfEncodingFormula.ChildParentPhase | examples/bf/src/encoding_formula.rs:115-124 | appends those clauses for every node |
| BfEncodingFormula.NoChildNode | examples/bf/src/encoding_formula.rs:127-132 | the clauses "a childless node is nobody's parent" for one node |
| BfEncodingFormula.NoChildPhase | examples/bf/src/encoding_formula.rs:125-133 | appends those clauses for every node |
| BfEncodingFormula.TermChildPhase | examples/bf/src/encoding_formula.rs:135-142 | appends the two clauses per node that make "terminal" equivalent to "no child" |
| BfEncodingFormula.UnaryNode | examples/bf/src/encoding_formula.rs:146-154 | the NOT-child clauses of one node, over children `node+1..=n-1` |
| BfEncodingFormula.UnaryPhase | examples/bf/src/encoding_formula.rs:144-155 | appends the NOT-child clauses for every node |
| BfEncodingFormula.BinaryLeftOp | examples/bf/src/encoding_formula.rs:159-168 | the left-child clauses of one binary type at one node |
| BfEncodingFormula.BinaryLeftNode | examples/bf/src/encoding_formula.rs:158-168 | the left-child clauses of one node, AND first and then OR |
| BfEncodingFormula.BinaryLeftPhase | examples/bf/src/encoding_formula.rs:157-169 | appends the left-child clauses for every node |
| BfEncodingFormula.BinaryRightOp | examples/bf/src/encoding_formula.rs:173-181 | the right-child clauses of one binary type at one node |
| BfEncodingFormula.BinaryRightNode | examples/bf/src/encoding_formula.rs:172-181 | the right-child clauses of one node, AND first and then OR |
| BfEncodingFormula.BinaryRightPhase | examples/bf/src/encoding_formula.rs:171-182 | appends the right-child clauses for every node |
| BfEncodingFormula.NotLastNode | examples/bf/src/encoding_formula.rs:186-191 | the two clauses saying that a binary node's left child is not the last node, for one node |
| BfEncodingFormula.NotLastPhase | examples/bf/src/encoding_formula.rs:184-192 | appends those clauses for nodes `1..=n-1` |
| BfEncodingFormula.ValueNode | examples/bf/src/encoding_formula.rs:197-200 | allocates one fresh value variable per truth-table row and no clauses |
| BfEncodingFormula.ValuePhase | examples/bf/src/encoding_formula.rs:194-201 | allocates `n * rows` value variables, node by node, and no clauses |
| BfEncodingFormula.RootPhase | examples/bf/src/encoding_formula.rs:205-217 | appends one unit clause per row fixing the root's value to that row's output |
| BfEncodingFormula.TerminalRow | examples/bf/src/encoding_formula.rs:221-233 | for one node and row, the clauses tying the node's value to the input its index selects |
| BfEncodingFormula.TerminalNode | examples/bf/src/encoding_formula.rs:221-233 | those clauses for one node, row by row |
| BfEncodingFormula.TerminalPhase | examples/bf/src/encoding_formula.rs:218-234 | appends those clauses for every node; the `assert_eq!` at line 222 becomes the requirement that every row has `variables` inputs |
| BfEncodingFormula.AndChild | examples/bf/src/encoding_formula.rs:239-249 | the three AND clauses of one node and one candidate child, row by row |
| BfEncodingFormula.AndNode | examples/bf/src/encoding_formula.rs:237-249 | the AND clauses of one node, over children `node+1..=n-1` |
| BfEncodingFormula.AndPhase | examples/bf/src/encoding_formula.rs:235-250 | appends the AND clauses for nodes `1..n` |
| BfEncodingFormula.OrChild | examples/bf/src/encoding_formula.rs:255-265 | the three OR clauses of one node and one candidate child, row by row |
| BfEncodingFormula.OrNode | examples/bf/src/encoding_formula.rs:253-265 | the OR clauses of one node, over children `node+1..=n-1` |
| BfEncodingFormula.OrPhase | examples/bf/src/encoding_formula.rs:251-266 | appends the OR clauses for nodes `1..n` |
| BfEncodingFormula.NotChild | examples/bf/src/encoding_formula.rs:271-279 | the two NOT clauses of one node and one candidate child, row by row |
| BfEncodingFormula.NotNode | examples/bf/src/encoding_formula.rs:269-279 | the NOT clauses of one node, over children `node+1..=n` |
| BfEncodingFormula.NotPhase | examples/bf/src/encoding_formula.rs:267-280 | appends the NOT clauses for every node |
| BfEncodingFormula.NodePhases | examples/bf/src/encoding_formula.rs:29-75 | the type and index tables have their shapes and lie in consecutive variable ranges; the clauses are the node-level groups in source order |
| BfEncodingFormula.ParentPhases | examples/bf/src/encoding_formula.rs:77-99 | the parent table has its triangular shape; the clauses are the parent exactly-one and BFS groups |
| BfEncodingFormula.ChildPhases | examples/bf/src/encoding_formula.rs:101-192 | the child table has its shape; the clauses are the seven child groups in source order |
| BfEncodingFormula.SemanticsPhases | examples/bf/src/encoding_formula.rs:203-280 | the clauses are the root, terminal, AND, OR and NOT groups in source order, and no variables are added |
| BfEncodingFormula.VarCountClosed | examples/bf/src/encoding_formula.rs:29-201 | the encoding allocates `n * (n + variables + rows + 5)` variables in all |
| BfEncodingFormula.Assemble | examples/bf/src/encoding_formula.rs:29-201 | tables allocated one after another lie in disjoint consecutive ranges and together use `VarCount` variables |
| BfEncodingFormula.EncodeTables | examples/bf/src/encoding_formula.rs:29-280 | all phases in order: tables of the stated shapes, fresh variables counted by `VarCount`, exactly `SynthesisClauses` appended |
| BfEncodingFormula.EncodeBooleanSynthesis | examples/bf/src/encoding_formula.rs:25-289 | `encode_boolean_synthesis`: needs at least one node and rows of `variables` inputs; returns the five tables, allocates `n * (n + variables + rows + 5)` variables and appends exactly `SynthesisClauses` |
| BfEncodingFormula.Implies1 | examples/bf/src/encoding_formula.rs:122 | a two-literal clause `[-a, b]` means "a implies b" |
| BfEncodingFormula.Implies2 | examples/bf/src/encoding_formula.rs:152 | a clause `[-a, -b, c]` means "a and b imply c" |
| BfEncodingFormula.Implies3 | examples/bf/src/encoding_formula.rs:166 | a clause `[-a, -b, -c, d]` means "a, b and c imply d" |
| BfEncodingFormula.TypeVarPositive | examples/bf/src/encoding_formula.rs:29-39 | every type variable of a well-shaped encoding is a proper (positive) variable |
| BfEncodingFormula.IndexVarPositive | examples/bf/src/encoding_formula.rs:56-66 | every index variable is positive |
| BfEncodingFormula.ParentVarPositive | examples/bf/src/encoding_formula.rs:77-87 | every parent variable is positive |
| BfEncodingFormula.ChildVarPositive | examples/bf/src/encoding_formula.rs:101-113 | every child variable is positive |
| BfEncodingFormula.ValueVarPositive | examples/bf/src/encoding_formula.rs:194-201 | every value variable is positive |
| BfEncodingFormula.OneEachMeaning | examples/bf/src/encoding_formula.rs:35-36 | a model satisfies a table's exactly-one clauses exactly when every row has exactly one true variable |
| BfEncodingFormula.LastMeaning | examples/bf/src/encoding_formula.rs:41-54 | the unit clauses hold exactly when the last node is a terminal and the node before it is neither AND nor OR |
| BfEncodingFormula.TermIndexMeaning | examples/bf/src/encoding_formula.rs:68-75 | those clauses hold exactly when every node is a terminal if and only if its index is not 0 |
| BfEncodingFormula.BfsParentMeaning | examples/bf/src/encoding_formula.rs:92-97 | the clauses for one first parent p1 hold exactly when no smaller parent p2 of the next node is chosen together with it |
| BfEncodingFormula.BfsNodeMeaning | examples/bf/src/encoding_formula.rs:91-98 | one node's BFS clauses hold exactly when the next node's parent is never smaller than this node's |
| BfEncodingFormula.BfsMeaning | examples/bf/src/encoding_formula.rs:89-99 | the BFS clauses hold exactly when that ordering holds for every node `3..=n-1` |
| BfEncodingFormula.ChildParentNodeMeaning | examples/bf/src/encoding_formula.rs:118-123 | one node's clauses hold exactly when each chosen child has this node as its parent |
| BfEncodingFormula.ChildParentMeaning | examples/bf/src/encoding_formula.rs:115-124 | those clauses hold for every node exactly when that link holds for every node |
| BfEncodingFormula.NoChildNodeMeaning | examples/bf/src/encoding_formula.rs:127-132 | one node's clauses hold exactly when, if it has no child, no later node has it as parent |
| BfEncodingFormula.NoChildMeaning | examples/bf/src/encoding_formula.rs:125-133 | those clauses hold exactly when that holds for every node |
| BfEncodingFormula.TermChildMeaning | examples/bf/src/encoding_formula.rs:135-142 | those clauses hold exactly when every node is a terminal if and only if it has no child |
| BfEncodingFormula.UnaryNodeMeaning | examples/bf/src/encoding_formula.rs:146-154 | one node's clauses hold exactly when, if it is NOT and c's parent is this node, c is its child |
| BfEncodingFormula.UnaryMeaning | examples/bf/src/encoding_formula.rs:144-155 | those clauses hold exactly when that holds for every node |
| BfEncodingFormula.BinaryLeftOpMeaning | examples/bf/src/encoding_formula.rs:161-167 | for one binary type, the clauses hold exactly when "c and c+1 both have this node as parent" forces c to be its left child |
| BfEncodingFormula.BinaryLeftMeaning | examples/bf/src/encoding_formula.rs:157-169 | the left-child clauses hold exactly when that holds for AND and OR at every node |
| BfEncodingFormula.BinaryRightOpMeaning | examples/bf/src/encoding_formula.rs:175-180 | for one binary type, the clauses hold exactly when "c is the left child" forces c+1 to have this node as parent |
| BfEncodingFormula.BinaryRightMeaning | examples/bf/src/encoding_formula.rs:171-182 | the right-child clauses hold exactly when that holds for AND and OR at every node |
| BfEncodingFormula.NotLastNodeMeaning | examples/bf/src/encoding_formula.rs:186-191 | one node's clauses hold exactly when neither an AND nor an OR node has the last node as its left child |
| BfEncodingFormula.NotLastMeaning | examples/bf/src/encoding_formula.rs:184-192 | those clauses hold exactly when that holds for every node `1..=n-1` |
| BfEncodingFormula.ImpliesSigned | examples/bf/src/encoding_formula.rs:227-231 | `[-a, v]` or `[-a, -v]`, chosen by a Boolean b, means "when a holds, v has the value b" |
| BfEncodingFormula.AndGate | examples/bf/src/encoding_formula.rs:245-247 | under the type and child literals, the three AND clauses mean the node's value is the conjunction of its two children's values |
| BfEncodingFormula.OrGate | examples/bf/src/encoding_formula.rs:261-263 | under the type and child literals, the three OR clauses mean the node's value is the disjunction of its two children's values |
| BfEncodingFormula.NotGate | examples/bf/src/encoding_formula.rs:276-277 | under the type and child literals, the two NOT clauses mean the node's value is the negation of its child's value |
| BfEncodingFormula.RootMeaning | examples/bf/src/encoding_formula.rs:205-217 | the root clauses hold exactly when the root's value in every row equals that row's output |
| BfEncodingFormula.TerminalRowMeaning | examples/bf/src/encoding_formula.rs:224-232 | for one node and row, the clauses hold exactly when, whichever index i is chosen, the node's value equals input i |
| BfEncodingFormula.TerminalNodeMeaning | examples/bf/src/encoding_formula.rs:221-233 | one node's terminal clauses hold exactly when that holds in every row |
| BfEncodingFormula.TerminalMeaning | examples/bf/src/encoding_formula.rs:218-234 | the terminal clauses hold exactly when that holds at every node |
| BfEncodingFormula.AndChildMeaning | examples/bf/src/encoding_formula.rs:240-248 | for one node and child c, the clauses hold exactly when, in every row, an AND node with left child c has the value of c AND c+1 |
| BfEncodingFormula.AndMeaning | examples/bf/src/encoding_formula.rs:235-250 | the AND clauses hold exactly when that holds for every node `1..n` and every candidate child |
| BfEncodingFormula.OrChildMeaning | examples/bf/src/encoding_formula.rs:256-264 | for one node and child c, the clauses hold exactly when, in every row, an OR node with left child c has the value of c OR c+1 |
| BfEncodingFormula.OrMeaning | examples/bf/src/encoding_formula.rs:251-266 | the OR clauses hold exactly when that holds for every node `1..n` and every candidate child |
| BfEncodingFormula.NotChildMeaning | examples/bf/src/encoding_formula.rs:272-278 | for one node and child c, the clauses hold exactly when, in every row, a NOT node with child c has the negation of c's value |
| BfEncodingFormula.NotMeaning | examples/bf/src/encoding_formula.rs:267-280 | the NOT clauses hold exactly when that holds for every node and every candidate child |
| BfEncodingFormula.NodeClausesMeaning | examples/bf/src/encoding_formula.rs:29-75 | the node-level clauses hold exactly when types and indices are one-hot, the last-nodes rule holds and terminals are exactly the nodes with a non-zero index |
| BfEncodingFormula.ParentClausesMeaning | examples/bf/src/encoding_formula.rs:77-99 | the parent clauses hold exactly when each non-root node has one parent and parents are in BFS order |
| BfEncodingFormula.ChildLinksMeaning | examples/bf/src/encoding_formula.rs:101-142 | the first child groups hold exactly when each node has one child choice, linked both ways to the parents, and terminals are exactly the childless nodes |
| BfEncodingFormula.ChildKindsMeaning | examples/bf/src/encoding_formula.rs:144-192 | the unary, binary-left, binary-right and not-last groups hold, on top of any prefix, exactly when the prefix holds and each group's rule holds at every node |
| BfEncodingFormula.ChildClausesMeaning | examples/bf/src/encoding_formula.rs:101-192 | all child clauses hold exactly when both the link and the kind rules hold |
| BfEncodingFormula.SemanticsClausesMeaning | examples/bf/src/encoding_formula.rs:203-280 | the semantic clauses hold exactly when the root matches the outputs and every terminal, AND, OR and NOT node computes its value from its inputs or children |
| BfEncodingFormula.SynthesisMeaning | examples/bf/src/encoding_formula.rs:25-289 | a model satisfies the whole synthesis encoding exactly when every node has one type, index, parent and child, the tree-shape rules hold, and the node values make the root compute the truth table |
| IpasirTypes.VarOf | lib/ipasir/src/types.rs:27-30 | a literal's variable is its absolute value, as `unsigned_abs` computes it |
| IpasirTypes.SignOf | lib/ipasir/src/types.rs:32-39 | the sign is `Pos` exactly when the value is above zero |
| IpasirTypes.TryFrom | lib/ipasir/src/types.rs:76-85 | conversion from `i32` fails exactly for 0 and `i32::MIN`; an accepted value is kept and its negation is again an `i32` |
| IpasirTypes.VarLit | lib/ipasir/src/types.rs:109-113 | a variable in `i32` range gives its positive literal |
| IpasirTypes.TryFromParts | lib/ipasir/src/types.rs:27-39 | an accepted literal is recovered from its variable and its sign |
| IpasirTypes.VarLitRoundTrip | lib/ipasir/src/types.rs:28-30 | the variable of a variable's literal is that variable |
| IpasirTypes.ClauseFrom | lib/ipasir/src/types.rs:150-156 | a clause built from a non-empty slice ending in literal 0 keeps its literals, its length and its terminating 0 |
| MinisatLit.SignBit | lib/minisat/src/common/lit.rs:31-34 | the sign is 0 or 1 |
| MinisatLit.NegateParts | lib/minisat/src/common/lit.rs:36-38 | negation keeps the variable, flips the sign and always changes the literal |
| MinisatLit.NegateInvolutive | lib/minisat/src/common/lit.rs:36-38 | negating twice gives the literal back |
| MinisatLit.MkRoundTrip | lib/minisat/src/common/lit.rs:18-34 | a variable below 2^31 and a sign bit are recovered from `mk` by `var` and `sign` |
| MinisatLit.FromVarParts | lib/minisat/src/common/lit.rs:41-45 | the literal of a variable is positive and has that variable |
| MinisatLit.MkOfParts | lib/minisat/src/common/lit.rs:18-34 | every literal is `mk` of its own variable and sign |
| MinisatLit.MkArithmetic | lib/minisat/src/common/lit.rs:5-20 | for a variable below 2^31, `mk` packs `2 * var + sign`, the representation the type documents |

## Left out

- Timing, statistics, logging and randomness: the `Instant` fields, counters and log output of the solver and the examples are not modelled.
- File and process I/O: `from_file`, `read_maybe_gzip`/`parse_dimacs`, command-line binaries and every call into CaDiCaL, MiniSat, Kissat or IPASIR solvers. The solver calls in `solve_interval` and `solve_interval_reified` become the query (clauses plus assumptions) they would hand over.
- Floating-point activity: VSIDS activity is an integer that `bump` increases by one. The f64 decay and rescaling of `var_bump_activity` are not modelled.
- Solver.Solver.PickBranchingVariable: the heap order is modelled by its contents plus the activity comparator. The key a pop returns is the best key by that comparator (`BestIn`), ties going to the smaller variable. `update_var_order`'s comparator in the source has no tie-break, so among equal activities the model fixes an order the source leaves to the heap layout.
- Solver.Solver.Search: proved to answer Sat only with a total assignment and an empty queue, and Unsat only with an entirely False clause at level 0. The model does not prove that Sat means every clause is satisfied, nor that a learnt clause follows from the original ones.
- Solver.Solver.Propagate: proved to return only genuine conflicts and to keep the watch invariants. It is not proved to find every unit or conflict (two-watched-literal completeness).
- Solver.Solver.Search and Solver.Solver.Solve take fuel bounds (rounds of the search loop, number of restarts) and answer `OutOfFuel` when these run out. The source loops until it has an answer.
- Solver.Solver.Search does not reset `ok` on a root-level conflict, as in the source. Only `add_clause` sets `ok` to false.
- The `debug_assert` in `propagate` (the false literal sits at position 1) becomes the explicit outcome `Aborted`. Release-build behaviour past a failed `debug_assert` is not modelled.
- Solver.Solver.Analyze has no abort outcome: the preconditions of SolverAnalyze.AnalyzeConflict, which the solver invariant supplies, make the overflow, `unwrap` and `debug_assert` panics of `analyze` unreachable.
- The `unsafe` swaps through raw addresses become index swaps inside one clause of the clause store. Aliasing between `Rc` clones is not modelled.
- Solver variables stay below 2^31, so that `2 * var + 1` fits the `u32` literal code. `pos`, the trail position of each variable, is ghost bookkeeping.
- The `tie`/`shirt` example of `solver.rs` (`test_correctness`) is not stated as a lemma. Running a whole search on a concrete instance is beyond what the proofs unfold.
- Encoding-layer literals are unbounded integers. The `i32` width of `lib/core` literals is modelled only by `CoreLit`'s range checks, and no other encoder checks for overflow.
- The conversion to NNF turns a terminal `Var(v)` into the literal `v` directly. The `u32`-to-`i32` cast of the source is not modelled.
- CoreTotalizer.DeclareCounts: only the sound direction is proved (every model of the clauses makes the outputs count the true inputs). The complete direction, that every input assignment extends to a model, is not proved. The test counting five models of a chained instance (`lib/core/tests/totalizer.rs`) needs model enumeration through a solver and is left out.
- `test_simplify_or` is the mirror image of `test_simplify_and` and is not repeated as a lemma.
- CoreSimplify.Simplify: the count of rewrites does not include collapsing a one-argument conjunction. The loop can therefore stop while a rewrite is still pending. `SimplifyStopsEarly` shows an instance. The model follows the code.
- `minimize_backdoor` calls Python (pyeda) or panics without that feature. It is not modelled.
- `build_formula` decodes a solver model through CaDiCaL. It is not modelled, and only the clause generation of `encode_boolean_synthesis` is.
- `DomainVar` appears only as `BfMap.Map`. Its `eval` needs a solver.
- The mean, median and variance helpers of the partitioning utilities work on floats. They are not modelled.
- PartInterval.EncodeIntervalReified: `encode_geq_reified` and `encode_leq_reified` are not defined in the source files of this model. They are parameters of the model.
- PartUtils.Num2Bits: only the lowest 32 bits are written (`n.min(32)`), as in the source. `Num2BitsDropsHighBits` documents this.
- Thread pools, the backdoor search (random and floating point), the grammar-based expression parsers, the Python glue and the duplicate copies of files (`examples/bf/src/encoding.rs`, `lib/ipasir/src/types/*`, `lib/partition/src/utils.rs`) are outside this model.
- SatLit.ToExternal: for the last variable the negated literal computes `-1 * i32::MIN`, which overflows; the model takes the release build's wrap-around to `i32::MIN`, where a debug build panics.
- SatUtils.Luby: the base `y` is an `f64` in the source and an integer in the model. `solve` calls it with 2.0, whose powers up to 2^31 are exact in `f64`, so the factor and `restart_base * 100` agree with the integer ones.
- Solver.Solver.Solve: `limits`, the list of restart limits handed to `search`, is ghost bookkeeping; the model does not prove that each search stops after that many conflicts beyond what Search's `Restart` contract says.
- IpasirTypes.VarLit: an `u32` variable above `i32::MAX` would wrap to a negative literal in the source. The model requires the variable to fit.

## Findings

| source | as written | input that shows it | evidently intended | confidence | as-written member | corrected member |
|---|---|---|---|---|---|---|
| lib/simple-sat/src/idx/idx_heap.rs:165-177 | `heapify_by` builds the heap from the keys but leaves `index` as the empty `IdxVec::new()`, so the first index write in `sift_down_by` is out of bounds | keys `[3, 1, 5, 2, 4]` with "less-than" | initialise `index[key] = position` for every key before sifting, giving an ordered heap with a consistent index | not executed | IdxHeap.HeapifyWrittenPanics | IdxHeap.HeapifyAll |
| lib/core/src/formula/nnf.rs:123-138 | the disjunction branch of `reify` emits `[-z, -x1, ..., -xn]` and `[z, xi]`, which defines `z <=> NAND(x1..xn)` | `(x1 \| x2) \| x3` with only `x4` true: every emitted clause holds but the formula is false | emit `[-z, x1, ..., xn]` and `[z, -xi]`, defining `z <=> OR(x1..xn)` as the comment says | not executed | CoreNnf.OrGateWrittenUnsound | CoreNnf.TranslationCorrect |
