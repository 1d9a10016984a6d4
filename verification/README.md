# Verified model of the SAPF core

SAPF is a lazy, stack-based array language. This project models seven parts of its interpreter in
Dafny and proves what they are for. To check it, run `dafny verify dfyconfig.toml`.

| part | files |
|---|---|
| closure-converting compiler and virtual machine | Syntax, Compiler, Machine, Reference, Scoping, Simulation, Acceptance, Sessions, Bindings, TopLevel, Programs, Depth, Parsing, Threads, Repl |
| workspace trees and symbols | Workspace, Versions, TableStore, ConcurrentTable, Symbols |
| lazy lists, multichannel and scan generators | LazyLists, LazyPaths, LazyStore, LazyTurns, LazyRun, LazySpec, LazyLaws, LazyUse, LazyLeaves, LazySessions |
| nested each-mapping | Masks, LazyEach, EachMapping, LazyCalls |
| radix-2 transform | Rings, FFT, FFTInPlace, FFTInverse |
| inheritance merge, open addressing, comparison | Inheritance, Probing, Tables, Comparison |
| generator seeding and stepping | Random |
| shared notions | Basics |

**Compiler.** `Compiler` is code generation as a function on chains of scopes and `Machine` a machine
whose functions run in frames of their own; `Reference` interprets the text directly, with
environments and no slots. `Parsing` and `Threads` are the imperative forms, scope objects that are
appended to and one shared stack with bases, each proved equal to its function. Both interpreters share the
workspace; `Bindings` says what a lookup finds after a binding, and `TopLevel` and `Programs` what whole
sessions and short texts leave on the stack.

**Tables.** Trees are stores of nodes reached by pointers, so that subtrees shared between versions are
modelled as shared. The concurrent protocols are step relations with one atomic action per step.

**Lazy lists.** The graph of nodes and generators is updated in place by class `Store`. A list denotes
a labelling of paths of indices: a path is absent, a leaf or a list, and a leaf answers at every
deeper path. That makes pervasive operators pointwise, so one statement covers broadcasting, zipping
and nesting. Every method keeps every label of every list that existed before (`Keeps`), and
`LazySessions` draws from this what holds over whole runs. An each-mapper maps a function (`Fun`) over
its arguments; `View` says where its arguments stand, and its list reads as an indexed comprehension.
`LazyLeaves` and `LazyCalls` state the results again for flat lists and trees, without generators or paths.

**Numbers.** Arithmetic is exact: reals, or any commutative ring for the transform, whose twiddle
factors are a parameter that must form a tower of square roots ending in -1; the complex ones do, for
every size, given cosines that satisfy the half-angle formula. The hash and the
generator work on 64-bit words.

Where code and documentation disagree the model follows the code. ARCHITECTURE.md:104-125 lets
`Fun::apply` set the stack base below the arguments and copy them; src/engine/Object.cpp:241-267 moves
them to the locals and sets the base above what is left. The help text of `try`
(src/engine/CoreOps.cpp:1435) reads as a catch, but lines 784-794 always throw again after the handler. README.md:343 calls `-^` and `+\`
inverses; on nested lists that holds only under the condition of `LazyLaws.DifferencesOfSums`, and
`LazyLaws.RunningSumLosesElements` is a list on which it fails.

Results that go against expectation, each with its exact condition: the finite flag can be wrong
(`LazyLaws.FlagWrongIff` and `FlagWrongCheck`, `LazyLaws.LinkedEndsIff`, and
`EachMapping.FiniteMarkWrongIff` for each-mapping), a finite list made by each-mapping can be left unmarked
and then be refused as endless (`EachMapping.MarkExactIff`, `MixedArgumentsLoseTheMark`), masks without levels are accepted
(`Masks.AcceptedIff`, `EachMapping.ZeroMaskIsEndless`), a binding made in one version of a table can
appear in another (`Versions.LeaksIff`), and parents that have a common order can still fail to be
linearized (`Inheritance.MergeAllFailsIff`, `CommonOrderCanBeMissed`).

## Model

| member | source | states |
|---|---|---|
| Sessions.CompilationPreservesMeaning | src/engine/Parser.cpp:415-487 | for every session of texts: the compiler with slots, captured copies and capture pushes, followed by the machine, reports the same rejections and endings as the direct environment interpreter, never leaves a frame, never meets an undefined word, and leaves a stack that shows the same values; what a word means in both is stated by `Bindings` and `TopLevel` |
| Sessions.SimText | src/engine/VM.cpp:716-738 | one text from any related pair of states: same report, related stacks, values and workspace afterwards |
| Sessions.WordsAreBound | src/engine/VM.cpp:740-760 | the words that compilation sees are exactly those with a value in the thread's workspace |
| Bindings.BindingIsFound | src/engine/Object.cpp:384-400 | for every well-formed workspace: after binding a word, the running form and the thread's form both look it up as the new value, and every other word as before |
| Bindings.OtherFormsKeep | src/engine/Object.cpp:554-581 | any other form, as functions made earlier hold it, finds what it found before, or the new value under the word just bound; a form of one table never changes a word it finds |
| TopLevel.BindText | src/engine/Opcode.cpp:164-179 | the text `= x` takes the top of the stack, and the thread's word x is that value |
| TopLevel.LookText | src/engine/Opcode.cpp:126-127 | the text of a backquoted word pushes the value of the word and changes nothing |
| TopLevel.WordsKeepTheirValues | src/engine/Opcode.cpp:164-179 | from any reachable state: bind a word to the top of the stack, run any texts that do not bind it again, and the backquoted word pushes that very value |
| TopLevel.RunsKeepWords | src/engine/Object.cpp:384-400 | any texts, however they end, keep every word they do not bind, keep all values ever bound, and keep the workspace well formed |
| TopLevel.FunctionWordsStay | src/engine/Object.cpp:384-400 | a word that a function made in a one-table workspace finds keeps its value there through all later texts |
| Programs.IfText | src/engine/CoreOps.cpp:742-760 | `if` with two values that are no functions leaves the first unless the condition is the number 0, then the second |
| Programs.TryText | src/engine/CoreOps.cpp:784-794 | `try` of a throwing primitive leaves the value of the handler and the exception goes on |
| Programs.TryPassesText | src/engine/CoreOps.cpp:784-794 | `try` of a value that is no function leaves it, and the handler is not run |
| Programs.NotText | src/engine/CoreOps.cpp:762-766 | `not` leaves 1 for the number 0 and 0 for anything else |
| Programs.ShuffleText | src/engine/CoreOps.cpp:116-210 | a stack primitive takes its arguments and leaves those of them that its name says, in that order |
| Programs.ArgumentText | src/engine/Object.cpp:241-267 | a lambda applied to values on the stack leaves, for its i-th argument name, the i-th of these values from below |
| Programs.ClosureText | src/engine/Object.cpp:303-310 | an inner lambda that uses an argument of the outer one, applied after the outer one has returned, leaves that argument |
| Programs.BindManyText | src/engine/Parser.cpp:607-622 | binding a list of words to as many values gives each word its own, and changes no other |
| Programs.ListText | src/engine/Opcode.cpp:219-229 | a list literal of numbers leaves one list of these numbers in order |
| Programs.ParensText | src/engine/Opcode.cpp:215-218 | the stack depth is 0 inside parens and the number of values outside |
| Programs.DepthText | src/engine/CoreOps.cpp:45-48 | the stack depth is the number of values the text can see |
| Programs.ClearText | src/engine/CoreOps.cpp:33-43 | clearing leaves nothing, or only the top |
| Programs.LiteralText | src/engine/Opcode.cpp:113-115 | a number or a quoted name pushes itself |
| Programs.UnderflowText | src/engine/Object.cpp:323-327 | a primitive that lacks arguments fails with an underflow and takes nothing |
| Programs.TooFewArgumentsText | src/engine/Object.cpp:241-247 | so does a function, after it was taken off the stack to be applied |
| Programs.ThrowStopsText | src/engine/Opcode.cpp:97-300 | what stands after a failure in a text is not run |
| Programs.YText | src/engine/CoreOps.cpp:989-999 | the fixpoint of a function that takes arguments is a recursive function; of anything else there is none |
| Programs.RecursionText | src/engine/CoreOps.cpp:982-986 | applying a recursive function is applying the function it was made from to the same arguments and to the recursive function |
| Simulation.SimItems | src/engine/Opcode.cpp:97-300 | compiled text does what the text means from every related frame, for every bound on the call depth |
| Simulation.SimLambda | src/engine/Parser.cpp:457-487 | a lambda leaves a closure whose captured copies agree with the environment it was made in |
| Simulation.LambdaRuns | src/engine/Object.cpp:303-310 | the capture pushes and the function push together push one closure holding those values in order |
| Simulation.CaptureAgrees | src/engine/Parser.cpp:464-475 | each capture push reads the slot that holds the value the name has in the environment |
| Simulation.SlotHoldsMeaning | src/engine/VM.cpp:763-810 | the slot chosen by lookup holds what the name means in the environment; a name that is a word means the same word (`Bindings.BindingIsFound`) |
| Simulation.SimBindLocal | src/engine/VM.cpp:826-842 | binding a slot is binding the name: a new name gets the next slot, an old one keeps its own |
| Simulation.SimBindTop | src/engine/Opcode.cpp:164-179 | binding at the top level adds the word to both worlds alike; what the word then means is stated by `Bindings.BindingIsFound` |
| Simulation.SimBindAll | src/engine/Parser.cpp:607-622 | a list of names is bound from the last to the first |
| Simulation.SimCall | src/engine/Object.cpp:241-267 | entering a closure with related captured values and related arguments gives related results |
| Simulation.SimApply | src/engine/Object.cpp:644-651 | applying related values to related stacks ends alike |
| Simulation.SimPrim | src/engine/CoreOps.cpp:784-799 | the control primitives act alike on related stacks |
| Simulation.SimTry | src/engine/CoreOps.cpp:784-794 | the handler runs on what the failed code left, and the exception goes on after it |
| Simulation.SimParens | src/engine/Parser.cpp:491-508 | parens run on an empty visible stack and add their results to it |
| Simulation.SimArray | src/engine/Parser.cpp:510-528 | a list literal collects exactly what its items leave; an empty one is the empty list |
| Scoping.UnitSlots | src/engine/Parser.cpp:549-567 | every slot index in a compiled text, at any depth of nested functions, is within the locals or captured variables of its function |
| Scoping.AllSlots | src/engine/Parser.cpp:623-713 | the slot bounds hold for the code of any items in any well-formed chain of scopes, for the scope as it stands afterwards |
| Scoping.LookupOk | src/engine/VM.cpp:787-810 | a lookup keeps the chain well formed, captures only in the scopes it passes, and finds a name iff it is visible or known |
| Scoping.CompileItemOk | src/engine/VM.cpp:844-847 | compiling an item only adds locals and captures, and leaves enclosing scopes with captures only |
| Acceptance.CompilesIffAccepted | src/engine/Parser.cpp:591-606 | a text compiles if and only if a check that knows nothing of slots accepts it: every name known, no rebinding of a captured name, sizes within 16 bits |
| Acceptance.CheckLambdaOk | src/engine/Parser.cpp:476-480 | the limit on variables is reached exactly when the check counts too many names |
| Acceptance.LookupTracks | src/engine/VM.cpp:798-807 | each enclosing scope captures exactly what the next inner one captures and it does not bind itself |
| Parsing.Compile | src/engine/VM.cpp:716-738 | the code generator that appends to code vectors and scope objects produces exactly the unit, or exactly the error, of the compilation function |
| Parsing.Parser.ParseLambda | src/engine/Parser.cpp:415-487 | opening a scope object, parsing the body into a second code vector and emitting the captures appends exactly the lambda's code |
| Parsing.Parser.ParseWord | src/engine/Parser.cpp:623-713 | the word's opcode is appended and every scope object on the way has its captures |
| Parsing.Parser.ParseBindMany | src/engine/Parser.cpp:607-622 | the binding opcodes of a name list are appended in reverse order of the names |
| Parsing.CompileScope.IndirectLookup | src/engine/VM.cpp:787-810 | the lookup that pushes onto the variable vectors of the scope objects leaves them as the value-level lookup says |
| Parsing.CompileScope.BindVar | src/engine/VM.cpp:812-847 | the same for binding, including the refusal to rebind a captured name |
| Threads.Thread.Run | src/engine/Opcode.cpp:97-300 | the loop over opcodes on the shared stacks shows the running function exactly the isolated frame, and keeps everything of its callers |
| Threads.Thread.RunFun | src/engine/Object.cpp:241-267 | a function application restores function, bases and locals and never touches the caller's part, however it ends |
| Threads.Thread.ApplyVal | src/engine/Object.cpp:269-301 | the same for any applied value, arguments excepted |
| Threads.Thread.RunParens | src/engine/Opcode.cpp:215-218 | parens restore the stack base and see an empty stack |
| Threads.Thread.RunArray | src/engine/Opcode.cpp:219-229 | a list literal restores the stack base; its items are collected into one list, or dropped on a failure |
| Threads.Thread.ApplyTry | src/engine/CoreOps.cpp:784-794 | the handler sees what the failed code left, above the caller's part |
| Threads.Thread.Pop | include/VM.hpp:260-269 | popping fails exactly at the visible base and never reads below it |
| Depth.BoundIsImmaterial | src/engine/Opcode.cpp:97-300 | a run that ends within some bound on the call depth ends the same way within every larger one |
| Repl.RunVisible | src/engine/Object.cpp:215-239 | a top-level run leaves its results on the thread's stack and restores the rest |
| Repl.Interpret | src/engine/VM.cpp:716-738 | parser, scopes and shared stacks together do to the thread what one text means |
| Versions.RunsKeepVersions | src/engine/Object.cpp:396-452 | after any sequence of impure and pure puts on any versions, every version is still a search tree and every key bound in a version keeps its value there |
| Versions.ImpureEffect | src/engine/Object.cpp:554-581 | an impure put binds a free key in the version it is given, reports a bound one, and disturbs no bound key anywhere |
| Versions.PureEffect | src/engine/Object.cpp:419-452 | a pure put gives a new version with the key at its new value and everything else as it was |
| Versions.PutPureOk | src/engine/Object.cpp:430-452 | the path copy is a search tree that finds the new value and the old ones |
| Versions.FormPutEffect | src/engine/Object.cpp:396-400 | the form returned by an impure put maps the key to the new value, whether or not the first table had it |
| Versions.WalkFinds | src/engine/Object.cpp:528-544 | the walk ends at the node that holds the key, or at the one empty slot where it belongs |
| Versions.LeaksIff | src/engine/Object.cpp:554-581 | an impure put of a key that two versions lack becomes visible in the other one if and only if, before it, the walks for the key from both roots end in the same empty slot |
| Versions.BindingsLeak | src/engine/Object.cpp:419-428 | it does happen: after a pure put, a key bound in the new version appears in the old one through a shared subtree |
| TableStores.TableStore.PutImpure | src/engine/Object.cpp:554-581 | the walk over node objects and the store into the slot have exactly the effect of the value-level put |
| TableStores.TableStore.CopyPath | src/engine/Object.cpp:430-452 | the recursion that allocates copies along the path returns the root of the copied path |
| TableStores.TableStore.PutPure | src/engine/Object.cpp:419-428 | the new table object has the copied path as its tree |
| TableStores.TableStore.Get | src/engine/Object.cpp:510-526 | the loop returns the key's value, or nothing |
| TableStores.TableStore.FormPut | src/engine/Object.cpp:396-406 | the form with a fresh table in front when the first one already had the key |
| ConcurrentTables.StepKeepsInv | src/engine/Object.cpp:554-581 | any step of any thread, spurious failure of the exchange included, keeps the tree a search tree and every thread at the right slot for its key |
| ConcurrentTables.BindingIsLinearizable | src/engine/Object.cpp:510-526 | under every interleaving of puts and gets, with every thread at the call it was started with, the finished calls answer as if each had happened at one instant, on one map |
| ConcurrentTables.OneBindWins | src/engine/Object.cpp:566-576 | of all finished puts of one key at most one reports success, and the value is the winner's |
| ConcurrentTables.BoundStays | src/engine/Object.cpp:554-581 | a bound key keeps its value from then on |
| ConcurrentTables.NoThreadIsStuck | src/engine/Object.cpp:554-581 | wherever an interleaving stops, any thread that then runs alone without spurious failures finishes, within as many steps as the tree has nodes, and three |
| ConcurrentTables.RunKeepsJobs | src/engine/Object.cpp:554-581 | no thread is dropped and none changes the key or value it was called with |
| Symbols.SameSymbolIffSameName | src/engine/symbol.cpp:52-77 | under every interleaving two finished calls got the same symbol if and only if the names are equal |
| Symbols.ListsGrowAtFront | src/engine/symbol.cpp:64-75 | every bin only grows by prepending |
| Symbols.StepKeepsInv | src/engine/symbol.cpp:52-77 | in every reachable state each bin holds a name at most once and every search has passed only other names |
| Symbols.NoCallIsStuck | src/engine/symbol.cpp:52-77 | wherever an interleaving stops, any call that then runs alone finishes, searching its list at most twice |
| FFTInPlace.Fft | include/sapf/AccelerateCompat.hpp:384-415 | the array ends as the defining sums over the input, for every power-of-two size, over any commutative ring with a tower of roots |
| FFTInPlace.ReverseBits | include/sapf/AccelerateCompat.hpp:387-397 | the exchange loop permutes the array by bit reversal |
| FFTInPlace.NextReversed | include/sapf/AccelerateCompat.hpp:389-393 | the reverse-carry loop steps from the reversal of i to the reversal of i + 1 |
| FFTInPlace.MergeBlocks | include/sapf/AccelerateCompat.hpp:402-409 | the butterfly loop makes two half-size transforms into one |
| FFTInPlace.MergeStages | include/sapf/AccelerateCompat.hpp:398-411 | after the stage for length len every block is the transform of its stride of the input |
| FFT.Butterfly | include/sapf/AccelerateCompat.hpp:404-407 | sum and difference of the half-size transforms are output k and output k + n/2 of the whole |
| FFT.RevInvolution | include/sapf/AccelerateCompat.hpp:394-396 | bit reversal is its own inverse and stays in range |
| FFT.CarryIsNextRev | include/sapf/AccelerateCompat.hpp:390-393 | clearing the leading ones and setting the next bit is the reversal of adding one |
| FFTInverse.RoundTrip | include/sapf/AccelerateCompat.hpp:412-414 | the inverse sums applied to the forward sums give n times the input |
| FFTInverse.ForwardBackward | include/sapf/AccelerateCompat.hpp:384-415 | running the array transform forward and then inverse multiplies every entry by n |
| FFTInverse.Orthogonal | include/sapf/AccelerateCompat.hpp:399-400 | the powers of a root of unity sum to n or to zero |
| FFTInverse.ComplexTower | include/sapf/AccelerateCompat.hpp:399-400 | for every size, the complex twiddles given by cosines that satisfy the half-angle formula are a tower of roots, forward and backward, and undo each other |
| FFTInverse.HalfAngle | include/sapf/AccelerateCompat.hpp:399-400 | the sine got by halving stays on the unit circle, and the square of the halved root is the root |
| Rings.ComplexLaws | include/sapf/AccelerateCompat.hpp:402-408 | the complex numbers over the reals are a commutative ring |
| Inheritance.MergeIsExact | src/engine/CoreOps.cpp:225-246 | the merge of two duplicate-free chains fails if and only if some two tables occur in opposite orders; otherwise it is duplicate-free, holds exactly the union and keeps both orders |
| Inheritance.Merge2 | src/engine/CoreOps.cpp:225-246 | the three-pointer loop over arrays computes that merge, with the size of the union and the first chain's tables first wherever the orders allow, or reports the conflict; the buffer needs room for the tables of both chains counted once |
| Inheritance.MergePrefersLeft | src/engine/CoreOps.cpp:229-241 | a table only of the second chain comes before one of the first only where the orders force it: it precedes, in the second chain, a table that the first has there or earlier |
| Inheritance.MergeIsUnique | src/engine/CoreOps.cpp:225-246 | so the merge is the one list with exactly the union, both orders and no unforced precedence of the second chain |
| Inheritance.HasItem | src/engine/CoreOps.cpp:216-223 | the scan finds a table exactly if it is in the rest of the chain |
| Inheritance.MergeAllKeepsOrders | src/engine/CoreOps.cpp:270-299 | the merge of all parents keeps every parent's order and holds exactly their union |
| Inheritance.ParentsAnswer | src/engine/Object.cpp:360-371 | if the table that answers a key in the merged chain belongs to a parent, it is the one that parent answers with: a table shadowed inside a parent never shadows its shadower |
| Inheritance.Linearize | src/engine/CoreOps.cpp:248-299 | rotating the three buffers through the merges computes the merge of all chains, each cut to the 1023 tables that a buffer takes; one argument, or none, is returned as it is |
| Inheritance.MergeAllFailsIff | src/engine/CoreOps.cpp:289-297 | several parents cannot be linearized if and only if at some point the next one conflicts with the result so far |
| Inheritance.CommonOrderCanBeMissed | src/engine/CoreOps.cpp:289-297 | parents [x], [y] and [y x] cannot be linearized although [y x] keeps all their orders |
| Probing.SomeSlotIsEmpty | src/engine/Object.cpp:2112-2125 | because at least half the slots are empty, every probe sequence meets an empty one |
| Probing.ProbeTells | src/engine/Object.cpp:2145-2162 | a probe that meets an empty slot proves the key absent; one that meets the key has its lowest index |
| Probing.StoreKeepsIndexed | src/engine/Object.cpp:2164-2179 | storing in the first empty slot keeps every key findable |
| Tables.TableMap.GetIndex | src/engine/Object.cpp:2145-2162 | the probing loop ends and returns the index at which the key was put first, or says it is absent |
| Tables.TableMap.Put | src/engine/Object.cpp:2164-2179 | putting a key at any index that is not yet used, in whatever order, adds it and keeps every key findable |
| Tables.Set.Locate | src/engine/SetOps.cpp:82-126 | the probing loop of has, indexOf and put stops at the value, or at the empty slot that proves it absent |
| Tables.Set.Put | src/engine/SetOps.cpp:161-188 | the value is added at the end if it is new, with its index; through growth the first occurrences stay in order |
| Tables.Set.Grow | src/engine/SetOps.cpp:144-159 | doubling and reinserting keeps contents and order |
| Tables.Set.IndexOf | src/engine/SetOps.cpp:105-126 | the index recorded with the value, or -1 |
| Tables.Set.Equals | src/engine/SetOps.cpp:65-80 | equal size and inclusion decide set equality |
| Tables.SubsetOfSameSize | src/engine/SetOps.cpp:71-79 | a duplicate-free subset of equal size is the whole set |
| Tables.AddAllIsNub | src/engine/SetOps.cpp:228-233 | filling a set keeps exactly the first occurrences of the list, in order, with their indices |
| Tables.SetAnd | src/engine/SetOps.cpp:245-257 | the distinct elements of a that are in b; of two of them the one whose first occurrence in a is earlier comes first |
| Tables.SetMinus | src/engine/SetOps.cpp:259-271 | the distinct elements of a that are not in b; of two of them the one whose first occurrence in a is earlier comes first |
| Tables.SetXor | src/engine/SetOps.cpp:273-289 | the distinct elements of exactly one list: those of a in the order of their first occurrences in a, then those of b in that of b |
| Tables.SetOr | src/engine/SetOps.cpp:236-243 | the distinct elements of both: those of a in the order of their first occurrences in a, then the others in that of b |
| Tables.OrderDecides | src/engine/SetOps.cpp:251-254 | the members and their order of first occurrence leave exactly one list |
| Tables.NubOrder | src/engine/SetOps.cpp:228-233 | a list without its repetitions stands in the order of first occurrences |
| Tables.Subset | src/engine/SetOps.cpp:291-302 | true exactly if every element of a is in b |
| Tables.SetEquals | src/engine/SetOps.cpp:304-310 | true exactly if the lists have the same elements |
| Tables.IndexInList | src/engine/SetOps.cpp:105-126 | the first index of the value in the list the set was filled from, or -1 |
| Random.HashUndone | include/Hash.hpp:93-106 | every key can be recovered from its 64-bit hash: the hash is injective |
| Random.HashUpdates | include/Hash.hpp:93-106 | the hash is what eight updates leave, four of them products with odd constants, the others stated bit by bit: each bit changes where the bit so many places higher is there and set, or is there and clear |
| Random.Hash64 | include/Hash.hpp:93-106 | the key can be recovered from what the eight updates of the local word leave |
| Random.Xoroshiro128 | include/rgen.hpp:47-57 | the sum of the words; and bit by bit, which bits of both words are added without carry into each bit of the new ones: i + 9 of the first, i and i - 14 of both for the first, i + 28 of both for the second |
| Random.StepsBitsDecide | include/rgen.hpp:52-54 | the law about the bits holds of exactly one next state, the one the step gives |
| Random.StepIsBijection | include/rgen.hpp:47-57 | the generator step has an inverse on all states |
| Random.ZeroNeverReached | include/rgen.hpp:47-57 | after any number of draws the state is all zero only if it was at the start |
| Random.SeedsAreSound | include/rgen.hpp:106-110 | every seed gives a nonzero state at every draw, and two seeds share a state at the same draw only if they are equal |
| Random.SeededKeys | include/rgen.hpp:106-110 | the keys that the two words are hashes of are the seed plus the two constants |
| Random.AfterAdds | include/rgen.hpp:47-57 | drawing m times and then n times is drawing m + n times |
| Random.RepeatMeansCycle | include/rgen.hpp:47-57 | a run that meets a state twice has come back to its start |
| Random.RGen.Init | include/rgen.hpp:106-110 | seeding sets the two words to the hashes of the shifted seed, never both zero |
| Random.RGen.Trand | include/rgen.hpp:112-115 | a draw returns the sum of the two words, changes every bit of them as the law about the bits says, and keeps the state nonzero |
| LazyLaws.PendingIsUnique | src/engine/Object.cpp:980-984 | the only node that waits for an unfinished generator is its output node |
| LazySessions.Run | src/engine/Object.cpp:1062-1074 | any run of operators, scans, series, calls, each-mappings, forced nodes and reads by any number of readers, in any order: every act takes effect, in the end every result shows what its operation makes of its operands, every reader has read the first elements of its list, marked lists end if no linked operator and no mask without the lowest level was used, and every list is marked exactly if it ends as long as there was no each-mapping either |
| LazySessions.Step | src/engine/Object.cpp:1280-1308 | one act: a reader gets some more elements, at most as many as it asks for, or learns that there are none; nothing that was read or made before changes |
| LazySessions.ReaderSees | src/engine/Object.cpp:1280-1308 | what a reader has got is what its list held at the start of the run, whatever happened in between |
| LazySessions.ReadersAgree | src/engine/Object.cpp:1280-1308 | readers of one list in two different runs from the same start got the same elements |
| LazySessions.DoneReadersGotAll | src/engine/Object.cpp:1280-1308 | a reader that was told there is no more has read exactly the elements of its list |
| LazyStore.ProduceKeeps | src/engine/Object.cpp:994-1002 | filling the output node with a block and hanging a new pending node behind it changes no label of any list |
| LazyStore.FillKeeps | src/engine/Object.cpp:986-992 | ending a list, or filling its node for good, changes no label of any list |
| LazyLists.StepKeepsLabels | src/engine/Object.cpp:994-1060 | a heap step that replaces one thunk by what it stands for preserves the meaning of every list that shares it |
| LazyRun.Store.Force | src/engine/Object.cpp:1062-1074 | forcing ends, fills the node, preserves the meaning of every list and leaves generators above it alone |
| LazyRun.Store.Read | src/engine/Object.cpp:1280-1308 | a cursor skips empty nodes and hands out the next elements of its list, at most as many as asked, or none exactly at the end |
| LazyRun.Store.One | src/engine/Object.cpp:1421-1445 | the single-element read does the same one element at a time |
| LazyStore.Advanced | src/engine/Object.cpp:1410-1419 | the advanced cursor reads what the old one reads that much further on, and never rests at the end of a node |
| LazyRun.Store.PullUnary | include/MathOps.hpp:31-50 | one block of a unary generator, for every block size and every chunking of the input; like every pull it is full unless the generator has ended, and keeps marks right both ways |
| LazyRun.Store.UnaryOp | src/engine/MathOps.cpp:66-73 | the list that a unary operator makes has the operator applied to every leaf; if every list was marked finite exactly when it ends, so is every list now |
| LazyRun.Store.PullBinary | include/MathOps.hpp:64-84 | one block of a binary generator, narrowed to both cursors |
| LazyRun.BinaryLabels | include/MathOps.hpp:54-62 | the list of a binary generator is the pointwise combination, cut to the shorter input at every depth |
| LazyRun.Store.PullLinked | include/MathOps.hpp:97-125 | one block of a linked generator, and the splice of the remaining input when the other one ends |
| LazyTurns.LinkKeeps | src/engine/Object.cpp:1352-1379 | splicing the rest of a list behind the emitted block, from any cursor offset, gives the linked list in full |
| LazyLaws.LinkedFlat | include/MathOps.hpp:97-125 | zip-longest: elements are combined while both lists last, then those of the longer list follow; a scalar stops with its list |
| LazyLaws.LinkedLength | include/MathOps.hpp:107-116 | the linked list is exactly as long as the longer input |
| LazyRun.Store.PullScan | include/MathOps.hpp:345-373 | one block of a scan, accumulator carried over blocks |
| LazyRun.Store.PullIScan | include/MathOps.hpp:385-413 | one block of a seeded scan: the seed goes out before anything is consumed |
| LazyRun.Store.PullPairs | include/MathOps.hpp:424-451 | one block of pairwise application, the previous element carried over blocks |
| LazyRun.Store.PullIPairs | include/MathOps.hpp:460-490 | one block of the seeded form, the seed in place of the first result |
| LazyRun.Store.PullSeries | src/engine/StreamOps.cpp:1641-1660 | one block of an endless arithmetic or geometric series |
| LazyRun.Store.PullMapper | src/engine/MultichannelExpansion.cpp:43-67 | one block of a multichannel mapper, one row of arguments at a time |
| LazyRun.Store.PullEach | src/engine/MultichannelExpansion.cpp:274-398 | one block of an each-mapper: for each row of arguments a call, or the mapper one level down, at every level; a marked list one level down does end |
| LazyRun.Store.Fold | src/engine/MathOps.cpp:193-268 | the list that a scan or pairwise primitive makes is the scan or the pairs of its operand; marks that were exact stay exact |
| LazyRun.Store.NewSeries | src/engine/StreamOps.cpp:2105-2112 | the list that by and grow make is the endless series of its start and step; marks that were exact stay exact |
| LazyRun.Store.Call | src/engine/Object.cpp:269-301 | a call of a function made of arguments, numbers, multichannel primitives and list literals leaves a value with the labels of the function's meaning |
| LazyRun.Store.ScanLoop | src/engine/MathOps.cpp:88-96 | each output combines the accumulator with the element; the accumulator is the last output |
| LazyRun.Store.PairsLoop | src/engine/MathOps.cpp:98-107 | each output combines the element with its predecessor |
| LazyRun.Store.BinaryOp | src/engine/Object.cpp:684-687 | the double dispatch gives the pointwise combination at every depth, whichever operands are lists; if every list was marked finite exactly when it ends, so is every list now, unless the operator is linked |
| LazyRun.Store.MakeVList | src/engine/MathOps.cpp:888-893 | the shortcuts for special scalars and the general generator denote the same list |
| LazyRun.Store.Multichannel | src/engine/MultichannelExpansion.cpp:71-99 | the re-applied multichannel primitive gives the pointwise combination of all its arguments; marks that were exact stay exact |
| LazySpec.DispatchShows | src/engine/Object.cpp:684-702 | on operands that show trees the result shows the recursive application: at the leaves, scalars broadcast, lists cut to the shortest (or linked to the longest) |
| LazySpec.ShowsOneTree | src/engine/Object.cpp:684-702 | a value shows at most one tree, so that tree is its whole content |
| LazySpec.MultichannelShows | src/engine/MultichannelExpansion.cpp:71-99 | the same for functions of any number of arguments |
| LazySpec.LiftIsPointwise | src/engine/MathOps.cpp:66-73 | the recursive application is the pointwise one |
| LazySpec.LiftAllIsPointwise | src/engine/MultichannelExpansion.cpp:43-67 | the same for functions of any number of arguments |
| LazySpec.ArithmeticIsFaithful | src/engine/MathOps.cpp:1064-1078 | the 0, 1 and -1 shortcuts of plus, minus and mul agree with the operators on all numbers |
| LazyPaths.GenClosed | include/MathOps.hpp:54-125 | in every generated list nothing lies inside a missing element, and an element that is a scalar is the same at every deeper path |
| LazyLaws.AbsentOn | src/engine/Object.cpp:1076-1092 | after a missing element a list has no more |
| LazyRun.BinaryEndsIff | include/MathOps.hpp:60-60 | the list of a binary generator ends if and only if one of its operands is a list that ends |
| LazyRun.MapperEndsIff | src/engine/MultichannelExpansion.cpp:43-67 | the list of a multichannel mapper ends if and only if some argument is a list that ends |
| LazyRun.FoldEndsIff | src/engine/MathOps.cpp:193-268 | a scan or pairwise list ends if and only if its operand ends |
| LazyLaws.LinkedEndsIff | include/MathOps.hpp:93-93 | a linked list ends if and only if every operand that is a list ends |
| LazyLaws.FlagWrongIff | include/Object.hpp:1037-1040 | the finite flag of a binary generator is wrong exactly if an operand is marked finite and no list operand ends |
| LazyLaws.FlagWrongCheck | include/Object.hpp:1037-1040 | where the flags of list operands are right, it is wrong exactly if a scalar operand calls itself finite and no list operand is marked |
| LazyLaws.FlagCanBeWrong | include/Object.hpp:1037-1040 | adding any signal to the endless V list 1 2 3 ... gives an endless list marked finite |
| LazyStore.ProduceHonest | src/engine/Object.cpp:994-1002 | forcing keeps marks right both ways: if every marked list ends, no scalar is marked and nothing is linked, the same holds afterwards; and if no list that ends is unmarked, neither is one afterwards |
| LazyUse.Length | src/engine/Object.cpp:1076-1092 | on a list whose flag is true the loop ends with the exact number of elements; an unmarked list is refused; where marks are exact, exactly the endless lists are refused |
| LazyUse.Pack | src/engine/Object.cpp:1955-1980 | one filled node with nothing behind it, the same elements in the same order, as many as the list has |
| LazyUse.Reduce | src/engine/MathOps.cpp:270-315 | the reduction ends and is the last element of the scan, or the given value for an empty list |
| LazyUse.IReduce | src/engine/MathOps.cpp:317-356 | the seeded reduction ends and is the last element of the seeded scan, or the seed |
| LazyLeaves.FoldHolds | src/engine/MathOps.cpp:193-268 | on a flat list, element by element: a scan holds the elements combined from the left, pairs each element with the one before it, the seeded forms with the seed in front |
| LazyLeaves.RunningSums | src/engine/MathOps.cpp:193-268 | element i of the scan of plus is the sum of the elements up to i |
| LazyLeaves.SeededSumsUndone | src/engine/MathOps.cpp:317-356 | the seeded differences of the seeded running sums are the new seed followed by the list |
| LazyLeaves.ReducedIs | src/engine/MathOps.cpp:270-315 | a reduction of a flat list is its elements combined from the left, after the seed if there is one, and the given value if there is nothing |
| LazyLeaves.ReducedSum | src/engine/MathOps.cpp:270-315 | the reduction by plus is the sum of the list |
| LazyLeaves.BinaryHolds | include/MathOps.hpp:54-125 | two flat lists combine element by element up to the end of the shorter one; a linked operator goes on with the rest of the longer one |
| LazyLeaves.UnaryHolds | include/MathOps.hpp:31-50 | the operator is applied to each element |
| LazyLeaves.BySeries | src/engine/StreamOps.cpp:2105-2112 | element i of a by series is the start and i steps |
| LazyLeaves.GrowSeries | src/engine/StreamOps.cpp:2267-2274 | element i of a grow series is the start times the i-th power of the step |
| LazyCalls.CallShows | src/engine/Object.cpp:269-301 | what a call leaves shows, on arguments that show trees, the meaning of the function by recursion on it: its arguments, primitives at the leaves, lists of results |
| LazyCalls.TableOfPairs | src/engine/MultichannelExpansion.cpp:401-438 | with the first of two flat lists iterated at the first level and the second at the next, element j of element i is the call on element i of the first and element j of the second, and there is none beyond either end |
| LazyCalls.RowsOfTable | src/engine/MultichannelExpansion.cpp:401-438 | that list has as many rows as the first list has elements |
| LazyCalls.PairsSideBySide | src/engine/MultichannelExpansion.cpp:401-438 | with both iterated at the first level, element i is the call on both elements i, up to the end of the shorter list |
| LazyLaws.SeededScanLength | include/MathOps.hpp:395-407 | a seeded scan of a list that is not empty has one element more than the list; of an empty list none |
| LazyLaws.DifferencesOfSums | README.md:343 | on the lists that the primitives make, the differences of the running sums give back an element if and only if all elements before it, at that path, are numbers |
| LazyLaws.SumsOfDifferences | README.md:343 | the same for the running sums of the differences |
| LazyLaws.SumsAndDifferencesUndo | README.md:343 | on every list of numbers both ways round give the list back, the same elements and the same length |
| LazyLaws.RunningSumLosesElements | README.md:343 | on the nested list [[1] [3 4]] they do not: the running sum has lost the 4 |
| Comparison.Compare | include/ObjectInlines.hpp:127-141 | negative exactly if the left value precedes: a smaller number, a number before any object, String before VList before ZList, and in one kind the sequence that has the smaller byte, number or element at the first difference or ends there; positive exactly the other way round, zero exactly on values with the same elements |
| Comparison.PrecedesDecides | include/ObjectInlines.hpp:115-141 | of two values exactly one of three holds: the one precedes, the other precedes, or they have the same elements |
| Comparison.PrecedesIsTransitive | include/Object.hpp:870-906 | preceding is transitive |
| Comparison.CompareVLists | include/Object.hpp:870-886 | the loop over two cursors, stopping at the first difference or the shorter list |
| Comparison.CompareZLists | include/Object.hpp:887-901 | the same on signals |
| Comparison.StrCmp | include/String.hpp:77-81 | strings compare by their bytes |
| Comparison.Equals | src/engine/Object.cpp:1822-1884 | structural equality is the same kind and the same elements, at every depth: V lists go one element at a time (include/VM.hpp:80), signals in stretches of any block size |
| Comparison.EqualZLists | src/engine/Object.cpp:1860-1882 | the loop over stretches of both signals finds the first difference wherever the blocks end |
| Comparison.ZeroIffEqual | include/ObjectInlines.hpp:115-125 | the order is zero exactly on equal values |
| Comparison.Antisymmetric | include/Object.hpp:870-906 | swapping the operands flips the sign |
| Comparison.Transitive | include/Object.hpp:870-906 | the order is transitive, so with the other two a total order |
| Comparison.BlocksDoNotMatter | include/Object.hpp:870-906 | only the elements of a list count, not how they are cut into blocks |
| EachMapping.Comprehension | src/engine/MultichannelExpansion.cpp:274-398 | as long as every level has some argument to iterate, the mapping is a list; at indices where no level is left or the next one has none, and below, it shows the call on the arguments, each indexed by exactly the indices of its own mask bits, and nothing exactly if some argument has nothing there |
| EachMapping.EachOpsComprehend | src/engine/MultichannelExpansion.cpp:401-438 | the list that each-mapping returns in the lazy store is that comprehension, for endless arguments too, at every path of indices |
| EachMapping.DeeperSelects | src/engine/MultichannelExpansion.cpp:386-396 | one level down every argument is what it was at its own indices; a scalar where a list was marked is the same as indexing it |
| EachMapping.HandleEachOps | src/engine/MultichannelExpansion.cpp:401-438 | a mapper is made exactly for accepted masks; if some mask has the lowest bit every marked list still ends, and if also the arguments iterated at the top level are all endless or all finite, every list that ends is still marked |
| EachMapping.EndsIff | src/engine/MultichannelExpansion.cpp:408-428 | the list ends if and only if some argument iterated at the top level ends |
| EachMapping.FiniteMarkWrongIff | src/engine/MultichannelExpansion.cpp:408-428 | where the marks of the arguments are right, that of the list is wrong if and only if no mask has the lowest bit |
| EachMapping.MarkExactIff | src/engine/MultichannelExpansion.cpp:408-428 | where the marks of the arguments are exact, the list is marked exactly when it ends if and only if some mask has the lowest bit and the arguments iterated at the top level are all marked or all not |
| EachMapping.MixedArgumentsLoseTheMark | src/engine/MultichannelExpansion.cpp:408-428 | a finite and an endless argument iterated together give a list that ends and is not marked |
| EachMapping.ZeroMaskIsEndless | src/engine/MultichannelExpansion.cpp:430-433 | each operators without levels are accepted; their list is marked finite and never ends |
| EachMapping.AcceptedUse | src/engine/MultichannelExpansion.cpp:430-437 | accepted masks whose union is positive use exactly the levels that are counted |
| Masks.AcceptedIff | src/engine/MultichannelExpansion.cpp:430-437 | a mask that is positive as a signed number is accepted exactly if no level below its highest is empty, and its levels are counted right; zero and masks with the sign bit are always accepted |
| Masks.NoGapsMeansOnes | include/clz.hpp:88-103 | a mask without gaps is one less than a power of two |

## Left out

- Names are integers without collisions; 32-bit hash collisions in workspace tables are assumed away.
- Characters, numbers, comments, strings and help texts are not lexed: programs are sequences of items. List destructuring `= [..]`, forms, `.` and `,`, each-operators inside the machine and signal literals are not in the compiled subset.
- Duplicate argument names in a lambda get one slot each in the source; the model's lookups find the first one, as the source's do, and nothing more is said about them.
- Exceptions are returned statuses; the destructors that restore the thread run on both ways out.
- `OutOfFuel` cuts off deep calls; `Depth.BoundIsImmaterial` says that it never changes a run that ends.
- Reference counts, destructors, memory reuse and node serial numbers; pure puts racing with impure ones.
- Inheritance chains have no duplicates and no null table, and all tables of two or more parents, counted once, fit into one buffer of 1024.
- Keys whose equality and hash disagree; the empty `TableMap`; a second put at an index of a `TableMap` that is already used.
- Lazy lists: a block is gathered in a local buffer and attached when it is complete, where the source attaches it first under the list's lock. The lock itself, exceptions thrown by mapped functions, `BothIn`, `AutoMapper`, plugs and the signal generators, which run the same loops on numbers only, are not modelled; objects other than V lists are atoms with an arbitrary operator.
- LazySessions.Run: after an each-mapping only one direction is promised, that marked lists end: a mapping over a finite and an endless argument loses the mark (`EachMapping.MixedArgumentsLoseTheMark`), and the mappers it makes one level down for nested arguments can do so at any element.
- Acts of a session: lengths, packing and reductions are proved one call at a time, not as acts of `LazySessions.Run`.
- Scans and pairs of the linked addition: the linked operator is modelled for element-wise application only.
- `List::pack` with a limit, `packSome`, `chase` and `fillz`.
- The vectorised loops of minus, division and power, and `BinaryOpLinkZGen`.
- Each-mapping maps functions made of arguments, numbers, multichannel primitives and list literals (`Fun`); functions that consume lists, throw, or have effects are not among them, nor are signals iterated by an each operator.
- ComplexTower: that cosines with the half-angle formula exist is not shown; they are a parameter.
- Comparison covers numbers other than NaN, strings and finite lists; other objects compare by address.
- Rounding, the trigonometric tables behind the twiddle factors, and the packed real transforms around the inner one.
- Audio, MIDI, files, images, printing, the line editor and the unit generators.
