# Lua core verification

A Dafny model of the core of the Lua 5.1 interpreter bundled under `lib/lua`, with proofs of what its
algorithms promise. Each part follows the C code closely: structures that the C code updates in place are
classes, its loops are loops, and what the methods compute is stated by functions and predicates about which
the promises of the design are then proved.

| part | files |
|---|---|
| Incremental garbage collector, its barriers and the mutator | LuaHeap, GcInvariants, GcSweeping, GcCycles, GcMutator, Instructions, Collector, WeakModes, Dangling, InstructionLaws |
| Single-pass compiler for expressions and statements over locals, and the interpreter for its code | LuaVM, Expressions, Syntax, CodeState, ExpMeaning, ExpValues, ExpJumps, ExpExits, ExpOperators, Patching, RegisterBounds, ChunkMeaning, CodeGen, ExprParser, Precedence, ChunkGrammar, OperatorLaws |
| Tables: hash part with Brent's variation, rehash, traversal, length | LuaTable, TableCounts, TableTraversal, HashTable, References |
| Metamethods and their absence cache | TagMethods |
| Upvalues | Upvalues |
| Pattern matching | Patterns, PatternItems, PatternSearch, PatternMatcher |
| `%q` and the lexer's strings | Quoting, StringLiterals |
| `table.sort` | TableSort |
| Binary chunks | BinaryChunk, UndumpDump, ChunkStreams |

**Collector.** The heap is a map of objects; colors, the two whites, the gray lists, the root list, the string
table and the ring of open upvalues are fields of one record. `Global.Ok` is the invariant of every state. Each
mutator instruction, with its barriers, and each collector step, in any phase, keeps it, and `Effect` says what
each does; a step never frees what can be reached and changes nothing but entries of weak tables whose key or value
is doomed (`Preserves`). A whole cycle terminates; of the objects that are no strings it leaves exactly those that
something keeps alive otherwise than by a weak key or value, and a table that is left keeps exactly the entries whose
key and value endure, where what is weak is said by the characters of the mode string (`WeakExact`); without weak
tables it leaves exactly the reachable and the fixed objects.
Marking, the atomic step and both sweeps are methods.

**Compiler.** The code emitted so far is a function from the registers at the start to an outcome, jumps on
patch lists being exits. An expression descriptor *means* an expression if, whatever way the code goes, the value
is where the descriptor says and the locals are untouched. Every function of the code generator keeps this
relation, and so the code of a whole chunk, run by the interpreter, does what executing its statements does; it
refers to registers of its frame only. The
values of the primitives (arithmetic, comparison, metamethods) are a parameter, `Semantics`. Beside this, and without
reference to the parser, the priorities or the evaluator, `Derives` is the grammar of expressions by the manual's levels
of precedence, proved to be what is parsed, and `Combines` says operator by operator what the finished code of an
operation returns, given what the finished code of its operands returns.

**Tables.** `TableOk` says that every entry is on the chain of its main position, that chains are acyclic and
disjoint, and that only the first node of a key on its chain can be alive. All operations keep it and are proved
against the map `Val`, including `rehash` in the middle of an insertion, which is proved to choose the largest
array part more than half full and never to rehash again while it reinserts.

## Model

| member | source | states |
|---|---|---|
| GcMutator.InitialOk | lib/lua/lstate.c:143-190 | the state of a new collector satisfies the invariant of all states |
| GarbageCollector.Collector.constructor | lib/lua/lstate.c:70-81 | after the set-up the metamethod names, the reserved words and the memory error message are interned and can never be collected |
| GarbageCollector.Collector.FixNames | lib/lua/ltm.c:30-43 | any names can be interned and fixed; what was fixed stays so, and the invariant holds |
| GarbageCollector.Collector.ReallyMarkObject | lib/lua/lgc.c:69-112 | a white object becomes gray or black, nothing else than white objects changes color, and black objects still refer to no white ones |
| GarbageCollector.Collector.PropagateMark | lib/lua/lgc.c:277-320 | one gray object is traversed: the tricolor invariant is kept, and either fewer objects are white or the gray list is shorter |
| GarbageCollector.Collector.ClearTables | lib/lua/lgc.c:351-375 | weak tables keep exactly the entries without a white object, strings apart, as key or value, and only such strings are marked on the way |
| GarbageCollector.Collector.Atomic | lib/lua/lgc.c:525-553 | the mark phase ends: what is not dead afterwards lies in any given closed set that holds the roots and what was marked, what is strongly reachable is not dead, weak tables lose only entries whose key or value the sweep will free, and the invariant of the sweep holds |
| GarbageCollector.Collector.SweepBucket | lib/lua/lgc.c:407-428 | one bucket of the string table is swept: only dead strings go, and the phase changes at the last bucket |
| GarbageCollector.Collector.SweepOne | lib/lua/lgc.c:407-428 | the object at the sweep position is freed if and only if it is dead and not fixed; open upvalues are closed only with their thread, and nothing else in the heap changes |
| GarbageCollector.Collector.SingleStep | lib/lua/lgc.c:556-607 | a step in every collector state keeps the invariant, leaves in the heap every object that was reachable before it, and changes objects only in that weak tables lose entries whose key or value is doomed, and that upvalues of freed threads are closed |
| GcCycles.StepSafe | lib/lua/lgc.c:556-607 | an object reachable from the roots survives any collector step that keeps the invariant |
| GcCycles.StepDescends | lib/lua/lgc.c:556-607 | every step outside of pause lowers the lexicographic measure of phase, white objects, gray objects, string buckets, open upvalues and root list: a cycle ends |
| GcCycles.StepPreserves | lib/lua/lgc.c:556-607 | whatever a step does, an object that is still there is as it was, but for entries of weak tables whose key or value is gone or will be freed, and for open upvalues that went with their thread |
| GcCycles.CycleLeaves | lib/lua/lgc.c:556-607 | with or without weak tables, what is left at the end of a cycle could be reached or is fixed, and all that is strongly reachable or fixed is left; what was reachable only through weak references is not, strings apart |
| GcCycles.CycleExact | lib/lua/lgc.c:556-607 | without weak tables what is left at the end of a cycle is what is reachable or fixed, no more and no less, and unchanged |
| GcCycles.NothingFreed | lib/lua/lgc.c:635-658 | a sweep in a heap where nothing is dead frees nothing |
| GcCycles.PrefixExact | lib/lua/lgc.c:635-658 | a sweep before the cycle does not change which objects the cycle collects |
| GarbageCollector.Collector.PreliminarySweep | lib/lua/lgc.c:637-652 | the sweep with which a full collection begins ends in finalize; begun from pause or propagate it frees no object |
| GarbageCollector.Collector.FullGC | lib/lua/lgc.c:635-658 | from any state a full collection ends in pause with everything white; the objects left are the fixed ones, exactly those others, strings apart, that are kept alive otherwise than by weak halves of entries, and reachable strings; weak tables have lost exactly the entries whose key or value does not endure, and nothing else has changed; without weak tables exactly the reachable and the fixed objects are left |
| WeakModes.FlagMeans | lib/lua/lgc.c:158-196 | keys are weak exactly if the string under `__mode` in the metatable has a 'k' before any NUL, values exactly if it has a 'v' |
| WeakModes.AliveMeans | lib/lua/lgc.c:158-196 | strongly reachable is what a chain of references from the roots reaches without a key of a table whose mode has a 'k' or a value of one whose mode has a 'v' |
| WeakModes.CollectedExactly | lib/lua/lgc.c:635-658 | a full collection leaves exactly the objects other than strings that are kept alive; a table that is left has exactly the entries whose key and value endure, with the same value, and these are in the heap; without a 'v' every value endures, without a 'k' every key |
| WeakModes.HeldWeaklyGoes | lib/lua/lgc.c:351-375 | an object, no string and no root, that is held only as a value in tables with 'v' or as a key in tables with 'k' is gone after a full collection, and every entry with it |
| WeakModes.ModeNameStays | lib/lua/ltm.c:30-43 | the name `__mode` survives a full collection as the fixed string that it is |
| Dangling.NoDangling | lib/lua/lgc.c:277-320 | in every state of a run, ids found field by field in what the program can come to, and in captured slots, are those of objects that have not been freed |
| GcMutator.BarrierBackOk | lib/lua/lgc.c:674-682 | a black table may turn gray in any phase and wait for the atomic step: the invariant still holds, and it may be given white values |
| GarbageCollector.Collector.StoreTable | lib/lua/lgc.h:89-90 | a store of live values into a live table, in any phase, keeps the invariant and changes that entry only |
| GarbageCollector.Collector.StoreForward | lib/lua/lgc.c:661-671 | a store into any other object keeps the invariant; where a black object gets a white value, the value is marked in the mark phase, and the owner made white while sweeping, and otherwise no color changes |
| GarbageCollector.Collector.NewString | lib/lua/lstring.c:75-93 | equal strings are one object, found in its bucket, revived if it was dead, or created; the result is live and nothing dies |
| GarbageCollector.Collector.ResizeStrings | lib/lua/lstring.c:22-47 | the rebuilt string table of the new size satisfies the invariant, each string in its bucket; while strings are swept it is left alone |
| GcMutator.ReviveOk | lib/lua/lstring.c:86-89 | a dead object may get the current white again whenever what it refers to is live |
| GarbageCollector.Collector.FindUpval | lib/lua/lfunc.c:53-79 | a slot has one open upvalue, found or inserted at its place in the sorted list and in the ring; it is live and nothing dies |
| GcMutator.OpenFound | lib/lua/lfunc.c:58-66 | the list of open upvalues is sorted by level, so that the search may stop early |
| GarbageCollector.Collector.Close | lib/lua/lfunc.c:96-112 | each open upvalue of the thread from a level on is closed with its slot's value or, if dead, freed, in any phase; every other object stays as it was |
| GarbageCollector.Collector.Execute | lib/lua/lvm.c:389-762 | every instruction of the mutator and every collector step, in any collector state, has just its effect on objects, stacks and metatables, whatever the barriers do beside it, and keeps the invariant |
| GarbageCollector.Collector.Capture | lib/lua/lvm.c:723-742 | the upvalues of a new closure are open ones on the captured slots or those of the enclosing closure; new upvalues are on captured slots only, and nothing else changes |
| GarbageCollector.Collector.Run | lib/lua/lgc.c:556-607 | in any interleaving of mutator instructions and collector steps each has its effect on the state before it, and in every state in between and at the end whatever can be reached has not been freed and is not about to be |
| InstructionLaws.MoveCopies | lib/lua/lvm.c:407-410 | the slot gets the value of the other one, and no other slot or object changes |
| InstructionLaws.StoredIsRead | lib/lua/lvm.c:440-456 | what is stored in a table under a key is read back under that key; a stored nil is read as nil |
| InstructionLaws.OthersRead | lib/lua/lvm.c:440-456 | under every other key a load gives what it gave before the store |
| InstructionLaws.SharedVariable | lib/lua/lvm.c:427-456 | what one closure writes to an upvalue, open or closed, every closure that shares it reads |
| InstructionLaws.UpvalWritten | lib/lua/lvm.c:451-456 | writing an open upvalue writes the stack slot it is open on, and no other slot and no closure |
| InstructionLaws.ClosedKeepsValue | lib/lua/lfunc.c:96-112 | closing upvalues changes no variable that a closure in a slot refers to, and no slot |
| LuaVM.RunAppend | lib/lua/lvm.c:389-406 | code that is appended runs exactly where the code before it falls through |
| LuaVM.RunPatched | lib/lua/lcode.c:150-160 | patching pending jumps changes nothing but where their exits resume |
| Patching.Linked | lib/lua/lcode.c:185-196 | linking the last jump of one list to the head of another gives the list of both |
| Patching.PatchedOne | lib/lua/lcode.c:150-160 | patching one jump of a list leaves the jumps not yet visited, and their tests, as they were |
| CodeState.DischargeOk | lib/lua/lcode.c:163-166 | sending the jumps of `jpc` to the next instruction changes no outcome of the code and no jump of others |
| CodeGenerator.FuncState.Concat | lib/lua/lcode.c:185-196 | the two lists become one, and no other instruction changes |
| CodeGenerator.FuncState.PatchListAux | lib/lua/lcode.c:150-160 | of the jumps on a list, those with a value go to one target and deliver into the register, the others go to the other target; nothing else changes |
| CodeGenerator.FuncState.LoadNil | lib/lua/lcode.c:35-56 | the registers are nil where the code falls through, also when the instruction is left out at the start or merged with the one before |
| ExpValues.NilMerged | lib/lua/lcode.c:43-51 | a preceding LOADNIL that no jump passes by may be made longer |
| CodeGenerator.FuncState.AddK | lib/lua/lcode.c:229-247 | a constant is found again or added once, and no index changes |
| CodeGenerator.FuncState.Discharge2Reg | lib/lua/lcode.c:343-379 | the value of a descriptor without jumps is in the register wherever it was before |
| CodeGenerator.FuncState.LoadBooleans | lib/lua/lcode.c:398-403 | the two LOADBOOLs are jump targets, jumped around by the code that falls through |
| ExpExits.LabelledMeans | lib/lua/lcode.c:398-403 | with the two LOADBOOLs added the value is still in the register where the code falls through |
| ExpExits.CollectMeans | lib/lua/lcode.c:404-406 | when both lists are patched every exit of the expression, true or false, with or without a value, arrives behind it with its value in the register |
| CodeGenerator.FuncState.Exp2Reg | lib/lua/lcode.c:390-411 | whatever way the code goes, the value of the expression ends up in the given register |
| CodeGenerator.FuncState.Exp2NextReg | lib/lua/lcode.c:414-419 | the value is in the next free register, which is the only one taken |
| CodeGenerator.FuncState.Exp2AnyReg | lib/lua/lcode.c:422-433 | the value is in some register, a local's own if it has no jumps |
| CodeGenerator.FuncState.Exp2RK | lib/lua/lcode.c:444-469 | the operand is a register or a constant of small index, and still means the expression |
| CodeGenerator.FuncState.JumpOnCond | lib/lua/lcode.c:524-536 | the jump is taken exactly when the value is as asked, carrying it; a preceding NOT is removed and the test inverted |
| ExpJumps.CommitTest | lib/lua/lcode.c:524-536 | a test whose jump joins a list turns a value into a condition: control falls through when the expression has the other truth value |
| CodeGenerator.FuncState.GoIfTrue | lib/lua/lcode.c:539-560 | the code falls through when the expression is true and leaves by the false list otherwise |
| CodeGenerator.FuncState.GoIfFalse | lib/lua/lcode.c:563-583 | the code falls through when the expression is false and leaves by the true list otherwise |
| CodeGenerator.FuncState.CodeNot | lib/lua/lcode.c:586-618 | the descriptor means the negation, its lists exchanged and the values on them dropped |
| ExpExits.NegationMeans | lib/lua/lcode.c:614-617 | exchanging the lists and removing the carried values negates what the exits deliver |
| CodeGenerator.FuncState.CodeArith | lib/lua/lcode.c:653-670 | arithmetic on two operands, folded or emitted with the opcode of that operator, means the operation on both, also when the left number gets its register after the right operand |
| CodeGenerator.Folded | lib/lua/lcode.c:627-650 | a folded constant is what the operation would have given at run time |
| OperatorLaws.FoldTable | lib/lua/lcode.c:627-650 | two numerals are folded to the result of the operator's own primitive; division and remainder by zero, comparisons, `..`, `and` and `or` are not folded |
| OperatorLaws.FoldOnly | lib/lua/lcode.c:627-650 | only numerals without jumps are folded |
| OperatorLaws.CompileBinary | lib/lua/lcode.c:737-781 | for any two expressions and every operator, the finished code of the operation returns what the operator, written out by constructor, makes of the results of the finished code of its operands, errors and short circuits included |
| OperatorLaws.CompileUnary | lib/lua/lcode.c:689-707 | the same for unary minus, `not` and `#` |
| OperatorLaws.CompileOnAtoms | lib/lua/lcode.c:737-781 | `return t op u` on constants and parameters always compiles, and returns the result of the operator on the two values, folded or not |
| OperatorLaws.CompileAtom | lib/lua/lparser.c:727-772 | `return t` always compiles and returns the constant or the argument |
| OperatorLaws.CompileAssignment | lib/lua/lparser.c:931-962 | after `r = e` local `r` holds the result of `e`, and every other parameter its argument |
| OperatorLaws.CompileLocal | lib/lua/lparser.c:1179-1195 | after `local l = e` the new local holds the result of `e`, and every parameter its argument |
| ExpOperators.PairLate | lib/lua/lcode.c:653-670 | a number that waited keeps its meaning when it is loaded after the right operand |
| CodeGenerator.FuncState.CodeComp | lib/lua/lcode.c:673-686 | the jump of the comparison is taken exactly when it holds, `>` and `>=` with exchanged operands |
| CodeGenerator.ConcatExtended | lib/lua/lcode.c:753-760 | extending a concatenation to the left by one register means concatenating that register |
| CodeGenerator.FuncState.PrefixOp | lib/lua/lcode.c:689-707 | the descriptor means the unary operator applied to the expression |
| CodeGenerator.FuncState.Infix | lib/lua/lcode.c:710-734 | what is emitted between the operands keeps the meaning of the left one while the right one is compiled |
| CodeGenerator.FuncState.Posfix | lib/lua/lcode.c:737-781 | the descriptor means the binary operator on both expressions, including short circuits |
| ExpOperators.LogicalMeans | lib/lua/lcode.c:739-752 | with the left operand's jumps on the right operand's list the code means `and` or `or`: the left value where it decides, the right one otherwise |
| CodeGenerator.FuncState.StoreLocal | lib/lua/lcode.c:472-500 | the local gets the value of the expression, computed with its old value |
| Precedence.ParsedIffDerived | lib/lua/lparser.c:811-858 | tokens are parsed as an expression exactly when the grammar by the manual's levels of precedence derives that expression from them, up to the limit on nesting |
| Precedence.SubExprSound | lib/lua/lparser.c:828-853 | whatever `subexpr` takes is derived by the grammar at the level that belongs to its limit, and it stops only before an operator of a lower level |
| Precedence.DerivedRead | lib/lua/lparser.c:828-853 | what the grammar derives at a level is read in front of anything that can follow it, unless the tokens are more than the nesting limit allows |
| Precedence.LevelOf | lib/lua/lparser.c:811-823 | every operator has a level, and left and right priorities compare as levels and associativity say |
| Precedence.ThreeOperands | lib/lua/lparser.c:811-823 | for all pairs of operators, `a o1 b o2 c` nests to the right exactly where `o2` has the higher level, or the same and is `..` or `^` |
| Precedence.UnaryAndBinary | lib/lua/lparser.c:811-823 | for every unary operator, `-a o b` is `-(a o b)` exactly for `^` |
| Precedence.DerivedOnce | lib/lua/lparser.c:828-853 | the grammar is not ambiguous |
| ChunkGrammar.ReadIffChunk | lib/lua/lparser.c:1325-1337 | tokens are read as the statements of a function exactly when the grammar of chunks derives these from them, up to the limit on nesting |
| Syntax.ParsePrint | lib/lua/lparser.c:828-853 | parsing the printed form of any scoped operator tree gives that tree back, or the nesting error at exactly the level limit |
| Syntax.SubExprScoped | lib/lua/lparser.c:248-253 | what is parsed refers to active locals only |
| Syntax.ReturnRead | lib/lua/lparser.c:1238-1268 | a function that is the printed form of one return is read as just that |
| ExprParser.LexState.Subexpr | lib/lua/lparser.c:828-853 | the single pass reads what the specification of `subexpr` reads, which the grammar of precedence levels derives, stops at the same token, and its descriptor means the parsed expression |
| ExprParser.LexState.AdjustAssign | lib/lua/lparser.c:256-273 | a variable without a value is nil in the next free register |
| ExprParser.LexState.ReadLocal | lib/lua/lparser.c:1179-1195 | the code of a declaration leaves the value, or nil, in the register of the new local |
| ExprParser.LexState.ReadAssignment | lib/lua/lparser.c:931-962 | the code of an assignment changes that local only |
| ExprParser.LexState.ReadReturn | lib/lua/lparser.c:1238-1268 | the code returns the value of the expression, or nothing |
| ExprParser.LexState.ReadChunk | lib/lua/lparser.c:1325-1337 | the code emitted for a chunk is that of the statements which the grammar reads in it |
| RegisterBounds.BoundedCollected | lib/lua/lcode.c:404-406 | when the lists of an expression are patched no test is left without a target register, and all registers stay in the frame |
| ChunkMeaning.Closed | lib/lua/lparser.c:356-380 | with the final RETURN and no jump pending, the interpreter gives what executing the statements gives |
| ExprParser.CompileFunction | lib/lua/lparser.c:383-398 | the code of a function, run on any arguments, gives exactly the result of executing its statements, and refers to registers below its frame size only; compilation fails where the tokens cannot be parsed, and otherwise only without room: too many tokens, or too many parameters, locals and nesting levels together, for the limits of the code format |
| LuaTable.InPlaceOk | lib/lua/ltable.c:425-428 | a key placed in a main position without value is found there, all other keys as before |
| LuaTable.ChainedOk | lib/lua/ltable.c:418-423 | a key chained behind its main position is found there, all other keys as before |
| LuaTable.MovedOk | lib/lua/ltable.c:409-417 | a node out of its main position can be moved to a free place, its chain mended, and all keys are found as before |
| HashTable.Table.GetFreePos | lib/lua/ltable.c:382-388 | a free node, or none exactly when every node is in use or behind the last free one |
| HashTable.Table.NewKey | lib/lua/ltable.c:399-429 | the new key has a place with value nil and every other key its value, whether a node was free or the table was rehashed; it fails only at the size limit |
| HashTable.Table.Get | lib/lua/ltable.c:469-491 | the slot found holds the value that the map has for the key |
| HashTable.Table.GetNum | lib/lua/ltable.c:435-449 | integer keys are found in the array part or the hash part, wherever the map has them |
| HashTable.Table.Set | lib/lua/ltable.c:494-505 | the map changes at the key only; a nil key fails, and otherwise only a table at the size limit |
| HashTable.Table.RemoveEntry | lib/lua/lgc.c:62-66 | the dead key of an entry without value changes no lookup and leaves the chain whole for a traversal |
| HashTable.Table.Perform | lib/lua/ltable.c:469-529 | any run of stores and lookups, with collector steps between them, answers as a map would |
| TableCounts.Log2 | lib/lua/lobject.c:54-69 | the position of the highest bit, by bytes and a table |
| TableCounts.CeilLog2 | lib/lua/ltable.c:189-208 | the slice between two powers of two that an integer key falls into |
| HashTable.Table.NumUseArray | lib/lua/ltable.c:222-244 | the uses in each slice of the array part, and in all of it |
| HashTable.Table.NumUseHash | lib/lua/ltable.c:247-260 | the uses in the hash part, in all and of integer keys in each slice |
| TableCounts.SumIsDemand | lib/lua/ltable.c:189-208 | the slice counts add up to the number of keys in use up to each power of two |
| TableCounts.DemandFits | lib/lua/ltable.c:333-349 | no more than `m` keys in use lie in 1..m: no key is counted twice |
| TableCounts.ComputeSizes | lib/lua/ltable.c:189-208 | the chosen size is the largest power of two more than half of which is in use, or zero if there is none |
| HashTable.Table.Resize | lib/lua/ltable.c:297-324 | every key keeps its value in the new parts, and reinserting needs no further rehash |
| HashTable.Table.Rehash | lib/lua/ltable.c:333-349 | every key keeps its value, the array part is the optimal one, and the pending key has room |
| HashTable.Table.UnboundSearch | lib/lua/ltable.c:532-553 | doubling, bisecting and, for huge indices, a linear search end at a border |
| HashTable.Table.GetN | lib/lua/ltable.c:560-576 | the length is a border: a positive integer key with a value whose successor has none, or zero |
| HashTable.Table.FindIndex | lib/lua/ltable.c:137-159 | the place of a key, dead or alive, is the first one on its chain; it fails exactly for keys that are nowhere |
| HashTable.Table.Next | lib/lua/ltable.c:162-179 | the first entry with a value behind the place of the key |
| TableTraversal.PlaceUnique | lib/lua/ltable.c:137-159 | a key has one place, even if a dead and a living node hold it |
| TableTraversal.TraversalExact | lib/lua/ltable.c:162-179 | in a traversal during which values are changed or cleared and dead keys removed, no key comes twice and every entry that is there to the end comes |
| HashTable.Table.Traverse | lib/lua/ltable.c:162-179 | the loop over `next` with such changes between the calls ends, and visits each remaining entry exactly once |
| References.RefTable.Ref | lib/lua/lauxlib.c:481-501 | the reference is not in use, every live reference keeps its value, and it fails only for a table at the size limit |
| References.RefTable.Unref | lib/lua/lauxlib.c:504-512 | only the reference given back dies and can be handed out again |
| TagMethods.Tables.GetTm | lib/lua/ltm.c:50-58 | the metamethod, its absence, and nothing else, being remembered |
| TagMethods.Tables.FastTm | lib/lua/ltm.h:41-44 | the cached lookup always agrees with the direct one |
| TagMethods.Tables.GetTable | lib/lua/lvm.c:108-131 | along any chain of at most 100 values that each lack the key and have the next one under `__index`, the last answers: a raw field that is not nil, a call of its handler, nil without a handler, or an error for what is no table; a longer chain is a loop |
| TagMethods.Tables.SetTable | lib/lua/lvm.c:134-162 | along any such chain under `__newindex` the last takes the assignment: at the key only, if it is a table with the key or without a handler, by a call of its handler, or with an error; a table refuses a nil key, and no cache is stale afterwards |
| TagMethods.IndexChain | lib/lua/lvm.c:108-131 | the definition of indexing step by step answers along a chain of handlers as fields and metatables say |
| TagMethods.TargetChain | lib/lua/lvm.c:134-162 | the definition of assignment step by step takes place along a chain of handlers as fields and metatables say |
| TagMethods.Tables.RawSet | lib/lua/lapi.c:671-681 | a raw store keeps the caches right |
| TagMethods.Tables.RawSetInt | lib/lua/lapi.c:684-694 | a raw store at an integer key may leave the caches alone |
| TagMethods.SameMethods | lib/lua/ltm.h:41-44 | heaps that differ in their caches only have the same metamethods |
| Upvalues.State.FindUpval | lib/lua/lfunc.c:53-79 | closures that capture a variable share one upvalue, which refers to that very variable |
| Upvalues.State.GetUpval | lib/lua/lvm.c:427-431 | an upvalue, open or closed, reads the variable it captured |
| Upvalues.State.GetSlot | lib/lua/lvm.c:407-410 | a stack slot reads its variable, also after a closure has assigned to it |
| Upvalues.State.SetUpval | lib/lua/lvm.c:451-456 | assigning to an upvalue assigns to the variable it captured and to no other |
| Upvalues.State.Close | lib/lua/lfunc.c:96-112 | at the end of a scope the captured variables live on with their values, and every other upvalue stays open |
| Upvalues.EndScopeOk | lib/lua/lfunc.c:96-112 | when the list is closed down to a level, stack and upvalues still stand for the same variables |
| PatternItems.ClassTable | lib/lua/lstrlib.c:226-242 | each class letter stands for the ASCII codes in a table, its capital for all others, and any other character for itself |
| PatternItems.ItemMeans | lib/lua/lstrlib.c:270-279 | outside sets, where an item ends and what it matches: '.', an escape, or a plain character |
| PatternItems.SetMeans | lib/lua/lstrlib.c:246-267 | a set written from characters, escapes and ranges, a ']' being allowed as the first, ends at its ']' and matches what one of its elements matches, or after '^' what none does |
| PatternSearch.BalanceOk | lib/lua/lstrlib.c:281-298 | the end of a balanced match is found exactly if there is one |
| PatternSearch.RunMax | lib/lua/lstrlib.c:301-313 | a run of single matches of any length exists exactly up to the longest |
| PatternSearch.LongestOk | lib/lua/lstrlib.c:301-313 | a greedy repetition tries all lengths down from the longest and takes the first with which the rest matches |
| PatternSearch.ShortestOk | lib/lua/lstrlib.c:316-326 | a lazy repetition takes the shortest length with which the rest matches |
| PatternSearch.SearchOk | lib/lua/lstrlib.c:365-440 | the backtracking search is sound and complete: it returns the first match in its order, or that there is no match, or a malformed pattern where it gets stuck at a defect with no match before it |
| PatternSearch.MalformedExactly | lib/lua/lstrlib.c:365-440 | the search reports a malformed pattern exactly where some way of matching comes to a defect before any match, and never for a pattern that a walk without a subject finds free of defects |
| PatternSearch.StuckDefective | lib/lua/lstrlib.c:365-440 | where a way of matching gets stuck the walk over the pattern finds a defect: an unclosed set or '%', `%b` without two characters, `%f` without a set, ')' with no open capture, a reference to a missing or open capture, or one capture too many |
| PatternSearch.StuckBad | lib/lua/lstrlib.c:365-440 | every defect that a way of matching comes to before any match is reported |
| PatternSearch.FirstMatches | lib/lua/lstrlib.c:365-440 | the first match in that order is a match |
| PatternMatcher.MatchState.FindClassEnd | lib/lua/lstrlib.c:202-223 | where a single character class ends, or that it is malformed |
| PatternMatcher.MatchState.MatchBalance | lib/lua/lstrlib.c:281-298 | the balanced span, none, or an error for missing delimiters |
| PatternMatcher.MatchState.MatchCapture | lib/lua/lstrlib.c:354-362 | a back reference matches a repetition of a closed capture; other indices are errors |
| PatternMatcher.MatchState.Match | lib/lua/lstrlib.c:365-440 | the matcher with its mutable captures reports what the search finds, and puts the captures back when it fails |
| PatternMatcher.MatchState.Find | lib/lua/lstrlib.c:513-531 | the leftmost match at or after the start, that there is none, or an error; the error comes exactly where a way of matching gets stuck at a defect with no match before, and a pattern without defect gives none |
| Quoting.AddQuoted | lib/lua/lstrlib.c:696-723 | the quoted form of every byte |
| Quoting.LexState.IncLineNumber | lib/lua/llex.c:129-137 | a line break of one or two characters counts once, up to the limit |
| Quoting.LexState.ReadString | lib/lua/llex.c:278-331 | the lexer, with its one character of lookahead, reads what the definition of string literals reads |
| StringLiterals.LiteralRead | lib/lua/llex.c:278-331 | a literal spelled from plain bytes, letter escapes by their table, other escaped characters, decimal escapes and escaped line breaks is read as the bytes they stand for, counting the lines |
| Quoting.QuotedRead | lib/lua/lstrlib.c:696-723 | every byte string, quoted, is read back as itself; only too many line breaks make the reading fail |
| Quoting.RoundTrip | lib/lua/llex.c:278-331 | quoting and reading give back the string |
| TableSort.SwapRearranges | lib/lua/ltablib.c:173-176 | an exchange permutes the part it lies in and leaves the rest |
| TableSort.AcrossPivot | lib/lua/ltablib.c:243-252 | elements on two sides of the pivot stay in order while one side is sorted |
| TableSort.Sorter.Partition | lib/lua/ltablib.c:218-243 | with a strict weak order the scans stay within the bounds, and the part is split by the pivot |
| TableSort.Sorter.AuxSort | lib/lua/ltablib.c:193-254 | the part is sorted and permuted, and the nesting of calls is bounded by the bits of its length |
| TableSort.Sorter.Sort | lib/lua/ltablib.c:256-264 | the elements are a sorted permutation, and the recursion is at most logarithmically deep |
| BinaryChunk.DecodeEncode | lib/lua/ldump.c:45-48 | an unsigned integer survives its little-endian bytes |
| BinaryChunk.ByteAt | lib/lua/ldump.c:45-48 | byte `i` of an encoded number is its digit of weight 256 to the `i` |
| BinaryChunk.ChunkBegins | lib/lua/lundump.c:214-227 | the first 36 bytes of a chunk, byte by byte: signature, format, sizes, source, lines, counts and flags |
| UndumpDump.FunctionRead | lib/lua/lundump.c:161-181 | loading what was dumped of any prototype, inside any enclosing one, gives it back with the rest of the input, or the nesting error at exactly the level limit |
| UndumpDump.UndumpsDump | lib/lua/lundump.c:195-209 | undumping the dump of a well-formed prototype gives that prototype |
| ChunkStreams.DumpState.DumpProto | lib/lua/ldump.c:129-141 | the writer appends the dump of the prototype |
| ChunkStreams.DumpState.DumpChunk | lib/lua/ldump.c:153-164 | the writer produces header and function |
| ChunkStreams.IntsAppend | lib/lua/ldump.c:55-59 | a dumped vector is the same whatever follows it |
| ChunkStreams.Zio.Fill | lib/lua/lzio.c:21-32 | the next byte of the stream, across the end of a chunk, or the end |
| ChunkStreams.Zio.Lookahead | lib/lua/lzio.c:35-45 | the next byte without taking it |
| ChunkStreams.Zio.Read | lib/lua/lzio.c:58-71 | a block across any number of chunks, or all there is and how much is missing |
| ChunkStreams.LoadState.Function | lib/lua/lundump.c:161-181 | the reader over chunks loads what the loader of plain bytes loads, and leaves the same rest |
| ChunkStreams.RoundTrip | lib/lua/lundump.c:195-209 | a prototype dumped, cut into chunks in any way and undumped comes back |

## Left out

- Finalizers: userdata with `__gc` and the list `tmudata`.
- GarbageCollector.Collector.FullGC: a string that only entries of weak tables hold may be left or not; which such strings are marked depends on the order of clearing.
- When a collection runs and how much a step does (`luaC_step`, thresholds, memory sizes), when the string table is resized, `luaC_freeall`, and allocation failure.
- The clearing of stack slots above the top and the shrinking of stacks during traversal. The order in which the children of an object are marked is the model's own.
- The heap is a map from identities to objects; the mark byte is a record of color, white and fixed bit, without the bit layout of `lgc.h`.
- The compiler covers expressions of constants, locals, parentheses and all operators, with local declarations, assignments to one local and `return`. Globals, upvalues, indexing, calls, constructors, functions, varargs, control statements, several targets or values, and debug information are not modelled.
- ExprParser.CompileFunction: that it fails beyond the bounds in `Roomy` is not stated; the bounds are sufficient ones, and a longer function is compiled as long as its code, constants and registers stay within the limits.
- Numbers are reals and the primitives any functions without side effects; NaN, signed zeros, and the check for NaN in constant folding are not modelled, and neither is the string form of numerals.
- The interpreter's registers are a map; that code stays within its frame is stated of its operands.
- The main position of a key that is not an integer is any function of the key, and sizes are reduced by remainder throughout. NaN keys and numbers beyond the range of `int` are not modelled.
- HashTable.Table.Set: after a failure at the size limit the array part may already have been cut or grown, and nothing is promised of the table but its size.
- References.RefTable.Ref: the same.
- Patterns: characters are ASCII with the classes of the C locale; the depth of the C stack, `gsub` and `gmatch` are not modelled.
- Quoting: only strings in quotes are read; the size limit of the lexer's buffer is not modelled.
- Sorting: comparison functions that are not strict weak orders, or that raise errors, and the error "invalid order function" which they can cause.
- Binary chunks: stripping of debug information and a writer that fails; the numbers of a chunk are their eight bytes, and the bytecode checker is a parameter. String constants are strings, never the absent name that a source or a variable name may be.
- Coroutines, the debug interface, the parser of numerals and long strings, the other library functions, and everything outside `lib/lua`.
