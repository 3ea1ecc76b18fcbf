# Verified model of the 1y language implementation

1y is a small language with two back ends that share one front end: a
tree-walking interpreter, and a one-pass compiler for a stack machine. It has
`shared` cells with software transactions, actors with mailboxes, coroutines
driven by a scheduler, closures with Lua-style upvalues, and modules. This
project models the parts whose correctness is not evident from any one function,
and proves what they promise.

## What is modelled

**Transactions** (`Transactions`, `TransactionLaws`, `WriteLaws`, `ControlLaws`, `Serializability`,
`Flattening`, `StaticTransactions`, `TransactionInterpreter`, `OneLanguage`). Transaction bodies are
expressions over a chain of scopes (`ScopeChains`, shared with the compiler's reference
semantics) and shared cells. Other writers are a script: before every access
to a cell, and before an outermost commit, one arbitrary batch of direct writes is
applied, so a statement about every script is one about every interleaving. The
main results are isolation, atomicity, serializability and the flattening of
nested transactions, and what is left behind: a read yields what was assigned last, and
a committed transaction leaves in every cell its last assignment. On what transaction
bodies have in common with the tree-walker of the compiler model, they mean the same
(`OneLanguage`). The reads of a nested attempt that is thrown away inside the
committed attempt are not validated, so a transaction can commit what no serial run
yields: `try { transact { raise x } } rescue as e { y = e }` does. Validation is complete
exactly if every version the attempt used is on record (`ValidationDecides`).
`StaticTransactions` gives a condition that is read off the body's text and
under which both results hold for every interleaving and every step budget: no
nested `transact` can be left by `raise`, `retry`, `break` or `continue`. `break` and
`continue` leave a transaction like an exception: they roll it
back.

**Compiler against tree-walker** (`TreeWalker`, `Bytecode`, `CodeGen`, `Machine`,
`Slots`, `Unfoldings`, `CompilerCorrectness`, `MatchCorrectness`, `CompilerTheorem`,
`CompiledScripts`, `StaticScopes`, `CodeShape`, `CodeHeights`, `OperandBlocks`,
`ScriptCompiler`). The tree-walker is the reference. `CodeGen` says which bytes the
compiler emits, with every jump target written directly; `ScriptCompiler` is the
compiler as it runs, with a growing buffer and back-patched jumps, and emits exactly
those bytes. `Machine` is the stack machine of `src/vm/vm.rs` on one script frame.
Scope chains are represented by slots, and compiled code simulates the tree-walker,
errors and endless runs included. Expressions are literals, variables, operators,
assignments, conditionals, blocks, `while` and `match` with guards. The premises are
those the compiler relies on without checking: code shorter than 65536 bytes, at most
256 constants and patterns (the compiler panics beyond), at most 255 locals at a time
(the number a block drops is cast to a byte), or-patterns whose alternatives name
alike, and blocks and `match` only where no operand lies above the locals.

- The back ends part in two places: assigning an unbound name raises in the
  tree-walker and defines a global in compiled code, and a value that no arm of a
  `match` takes raises in the tree-walker and is nil in compiled code. `StaticScopes`
  rules both out by the text of the script, and then the machine ends in exactly the
  ways the tree-walker does (`EndsAlike`).
- `CodeShape` and `CodeHeights` assign every instruction of compiled code one height
  of the stack, the same on every path that leads to it, equal to the locals and
  temporaries the compiler counts; running such code never crashes.
- `OperandBlocks`: where a block declares a local above a waiting operand, the local
  takes the operand's place, and the code ends a value short. Above any locals and
  temporaries, and for whole scripts, the code of an operator or compound assignment over
  a block is right exactly if the block declares no local; over a `match`, which keeps
  what is matched in a local, it is never right.

**Closures** (`UpvalueResolution`, `Upvalues`, `OpenUpvalues`). At compile time,
resolving a captured name is lexical scoping. At run time, upvalues refine shared
variables if and only if no variable has two upvalues. The machine creates a new
upvalue at every capture, so two closures over one local stop sharing it once the
local's scope ends, although the header of `src/vm/closure.rs` promises lexical
scoping.

**Parser** (`Grammar`, `GrammarUnfoldings`, `GrammarLaws`, `SourceParser`, `Pratt`,
`PrattLaws`, `PrattSoundness`, `PrattPrinting`, `PrecedenceGrammar`, `ExpressionUnfoldings`,
`OperatorAgreement`, `GrammarLocality`, `Recovery`, `LanguageGrammar`, `GrammarParts`,
`GrammarCompleteness`, `GrammarSoundness`). `Grammar` is the whole parser: expressions with blocks, maps and all
control flow, patterns, types, every declaration, and the two statement loops with
their resynchronisation, mutually recursive as in the source. It terminates on every
list of tokens, every result consumed a token, and while no error is recorded every
token is accounted for, in order. `SourceParser` is the parser as it runs, on a
cursor. Errors are local: what follows a semicolon is parsed as on its own, whatever
precedes it without opening braces and without `actor`; an actor that lacks its brace
takes the rest as its body. On operator expressions the whole parser does what the parser of
`Pratt` does, errors included, and what it accepts there is decided: exactly the trees
that respect the binding powers (`AcceptsExactly`), and printing with as few parentheses
as possible is parsed back. `PrecedenceGrammar` says the same with a grammar in layers that
names the operators and has no binding powers. `LanguageGrammar` is a grammar of the whole
language, apart from the functions that parse it: the trees of every construct, and the
tokens that may not follow it. A file is parsed without an error, and as which
statements, exactly as that grammar says, and the grammar is unambiguous. Some of what it
shows is easily overlooked: `lazy` may be followed by any keyword in place of `import`,
because `expect` compares kinds of tokens; nothing can be applied to the conditional behind
`else if`; and braces whose first token begins declarations are never a map. The lookahead for arrow functions refuses a name in
parentheses before `=>`, which is also the shape of a guard such as `if (ok) =>`.

**Scheduler** (`Scheduling`, `SchedulingLaws`, `SchedulingAnswers`, `SchedulerLoop`). Coroutines are
finite scripts of awaits; the answers of polls, the ready tokens and the time are
inputs of each tick. What a coroutine receives is stated with a log of answers: the
first to be answered for a task gets its value, everyone after that nil.

**Modules** (`Modules`). Depth-first loading with a cache and a load stack decides
whether the reachable imports are sound and acyclic. A failed load leaves its file on
the stack, so the exact condition for any state of the loader includes that nothing
reachable is on the stack.

**Patterns** (`Patterns`) and **mailboxes** (`Mailboxes`). Both matchers decide the
same meaning; their bindings agree when the alternatives of an or-pattern name
alike. Draining mailboxes loses, repeats and reorders nothing.

**Lexer** (`Delimiters`, `Literals`, `Lexer`, `Spellings`, `LexicalGrammar`). The cursor with its lookahead buffer,
block comments that nest, strings of both kinds with escapes and interpolations,
numbers, identifiers and punctuation, and the loop over tokens. What is skipped ends
exactly where well-nested text ends, a string without complaint is exactly one that is
written with legal pieces, and the position counts what was consumed. `Spellings` and
`LexicalGrammar` say how every token is spelled and what may follow it, apart from the loops
that read it: a text is read without a report, as which tokens, exactly as they say. Which characters
are white space or belong to identifiers are arbitrary functions.

**Values between threads** (`SendValues`). What can be sent, what arrives, and what
equality says on the way: the equality of `SendValue` has no arm for bytes, although
its comment in `src/value.rs` calls it structural for all data types.

`Values` holds the values and operators the two back ends share, and `OperatorLaws` what the
operators mean: sums and differences, quotients and remainders, the order of numbers,
which operands are errors, and which values are false.

## Model

| member | source | states |
|---|---|---|
| Transactions.Eval | src/interpreter/mod.rs:1581-1639 | however a body ends (value, error, `raise`, `retry`, `return`, `reply`, `break`), the stack of transaction contexts has its entry depth again and every enclosing context is untouched |
| TransactionLaws.EvalFollows | src/interpreter/mod.rs:543-581 | inside a transaction no committed cell changes by the body's own doing: the cells are those the direct writers left, and every version the attempt used stays covered by the records the contexts keep |
| TransactionLaws.MergeFollows | src/interpreter/mod.rs:1649-1659 | merging a committed child into its parent loses no recorded read: the parent keeps the earlier version, so what is covered stays covered |
| TransactionLaws.EvalNames | src/interpreter/mod.rs:759-768 | names are declared in the innermost frame and in no other, however evaluation ends and however often a transaction is tried again |
| TransactionLaws.ScopeNames | src/interpreter/mod.rs:759-768 | what a block or a `rescue` declares is gone with its scope: no frame around it has gained or lost a name |
| ScopeChains.InnermostBinds | src/interpreter/env.rs:49-68 | the innermost frame that binds a name decides what it is, and is the one an assignment changes |
| TransactionLaws.OthersEvolve | src/interpreter/mod.rs:1669-1675 | whatever is written directly, a cell whose version is unchanged still has the same value |
| Serializability.Replay | src/interpreter/mod.rs:561-581 | if every committed version a body used is still current, running the body alone on the final cells gives the same outcome and state, step for step, nested attempts included |
| Serializability.SerializableIfCurrent | src/interpreter/mod.rs:1581-1676 | a committed outermost transaction whose final attempt used only versions current at its commit equals that attempt run alone, atomically, on the cells of that moment |
| Serializability.Serializable | src/interpreter/mod.rs:1581-1676 | serializability for every interleaving of direct writes, provided the committed attempt threw no nested attempt away: same outcome, locals and cells as running it alone at the commit |
| Serializability.ValidationIsComplete | src/interpreter/mod.rs:1661-1668 | validating only the recorded first-read versions validates every read of the attempt, if no nested attempt was thrown away |
| Serializability.ValidationDecides | src/interpreter/mod.rs:1661-1668 | exactly when validation is complete, for any body and run: whatever the others write last, an attempt that passes has used current versions only, if and only if it is in conflict already or every version it used is the one on record, those of discarded nested attempts included |
| Serializability.SerializableIfOnRecord | src/interpreter/mod.rs:1581-1676 | under that condition the committed transaction is serializable, whether or not nested attempts were thrown away |
| Serializability.DroppedReadIsNotValidated | src/interpreter/mod.rs:1627-1631 | the proviso is needed: `try { transact { raise x } } rescue as e { y = e }`, whose only read of `x` is in a nested attempt that raised, commits a value no serial run produces |
| Serializability.Atomicity | src/interpreter/mod.rs:1566-1639 | all or nothing: a transaction that does not commit leaves the cells as the direct writers left them; one that commits raises the version of exactly the written cells by one, in one step, however often or deep they were written |
| Serializability.NestedRollback | src/interpreter/mod.rs:1600-1631 | leaving a nested transaction other than by a commit gives back the enclosing contexts exactly |
| WriteLaws.BufferedWrite | src/interpreter/mod.rs:2022-2053 | a write inside a transaction, also one to a cell written before: the cell reads as the value written, every other cell reads as before, and no committed cell changes but by the others |
| WriteLaws.DirectWriteLands | src/interpreter/mod.rs:2022-2053 | a write outside transactions: the cell holds the value, its version is one higher, and the other cells stay |
| WriteLaws.BatchLands | src/interpreter/mod.rs:2022-2053 | several direct writes leave in every cell the last value written to it, and raise its version once for each |
| WriteLaws.ReadLands | src/interpreter/mod.rs:561-581 | a read yields the buffered value if there is one and the committed one otherwise, and changes neither cells nor what cells read as |
| WriteLaws.EvalLeaves | src/interpreter/mod.rs:2022-2053 | after any evaluation inside a transaction, nested ones included, a cell reads as the last assignment made to it, those of nested attempts thrown away not counted, or as it read before |
| WriteLaws.ReadsBack | src/interpreter/mod.rs:561-581 | whatever lies between an assignment and a read in one transaction, if it assigns the cell no more, the read yields the value assigned |
| WriteLaws.CommitLeaves | src/interpreter/mod.rs:1648-1676 | a committed transaction leaves in each cell the last value it assigned to it, the version raised by one, and every other cell as it was at the commit |
| ControlLaws.LeavesItsWrites | src/interpreter/mod.rs:1600-1626 | a transaction left by its end, by `reply` or by `return` has committed: its last assignments are in the cells and the value is handed on |
| ControlLaws.LeavesNothing | src/interpreter/mod.rs:1627-1639 | left in any other way (an error, `raise`, `retry` given up, `break`, `continue`, no budget) it leaves no trace in the cells |
| ControlLaws.CommitsAtOnce | src/interpreter/mod.rs:1581-1626 | where nobody else writes, a transaction whose body ends with a value, by `reply` or by `return` commits at its first attempt |
| ControlLaws.EvalStays | src/interpreter/mod.rs:561-581 | while nobody else writes, nothing in a transaction changes a cell or puts a version on record that is not the current one, nested transactions included |
| ControlLaws.GivesUp | src/interpreter/mod.rs:1581-1639 | a transaction that never stops wanting another attempt is given up after sixty-four |
| ControlLaws.RescueHasTheValue | src/interpreter/mod.rs:1068-1113 | `try { raise e } rescue as x { x }` is `e`, state included |
| ControlLaws.TryPasses | src/interpreter/mod.rs:1068-1113 | `try` keeps out of everything but exceptions: values, jumps and errors pass through |
| ControlLaws.ContinueAtTheEnd | src/interpreter/mod.rs:994-1013 | `while c { b; continue }` is `while c { b }` |
| ControlLaws.BreakAtTheEnd | src/interpreter/mod.rs:994-1013 | `while c { b; break }` is `if c { b; nil }` where nothing in `b` jumps |
| OneLanguage.EvalAgrees | src/interpreter/mod.rs:517-1070 | expressions that transaction bodies share with the compiled fragment mean the same in both models: same value or error and same scopes, at every budget |
| Flattening.CollapseLookup | src/interpreter/mod.rs:563-568 | looking a cell up through the stack of contexts finds what it finds in the single context they merge into |
| Flattening.MergeAssociates | src/interpreter/mod.rs:1649-1659 | merging contexts is associative, so nesting depth does not matter |
| Flattening.CollapseMerge | src/interpreter/mod.rs:1649-1659 | a nested commit leaves the merged view of the whole stack unchanged |
| Flattening.FlattenCorrect | src/interpreter/mod.rs:1649-1659 | a body with committed nested `transact` blocks, at any depth, runs like the body with the blocks inlined |
| Flattening.FlattenTransaction | src/interpreter/mod.rs:1581-1639 | a whole transaction and the one with its nested `transact` markers removed have the same outcome, locals and cells under every interleaving, retries included |
| StaticTransactions.OutcomeForeseen | src/interpreter/mod.rs:1600-1639 | the ways out of a body read off its text are right: it raises, retries or breaks out only if its text allows it |
| StaticTransactions.NothingDiscarded | src/interpreter/mod.rs:1600-1631 | if no nested `transact` can be left by `raise`, `retry`, `break` or `continue`, no nested attempt is thrown away unless the whole transaction is abandoned |
| StaticTransactions.SerializableIfQuiet | src/interpreter/mod.rs:1581-1676 | such a body is serializable under every interleaving of direct writes and every step budget, with nothing assumed of the run |
| StaticTransactions.FlattenQuietTransaction | src/interpreter/mod.rs:1581-1639 | such a transaction and the one without its nested markers have the same outcome, locals and cells under every interleaving and budget, whether they commit, fail, retry or exceed the budget |
| TransactionInterpreter.Interpreter.CommitTxn | src/interpreter/mod.rs:1648-1676 | the commit as it runs on the interpreter's fields (merge into the parent, or validate and publish, in any order of the write map) settles the attempt as specified |
| TransactionInterpreter.Interpreter.ReadShared | src/interpreter/mod.rs:561-581 | the read of a shared cell: write sets innermost first, then the committed value with its version recorded once |
| TransactionInterpreter.Interpreter.AssignVar | src/interpreter/env.rs:58-68 | the search from the innermost frame outwards assigns to the innermost binding, or changes nothing if there is none |
| TransactionInterpreter.Interpreter.EvalScope | src/interpreter/mod.rs:759-768 | a block runs in a child frame, which is gone however it ends |
| TransactionInterpreter.Interpreter.EvalTransact | src/interpreter/mod.rs:1581-1639 | the attempt loop computes what the specification of a transaction says, at most 64 attempts |
| TransactionInterpreter.Interpreter.EvalExpr | src/interpreter/mod.rs:517-1013 | the evaluator that updates its fields in place computes the evaluation function the theorems speak of |
| OperatorLaws.ErrorsExactly | src/interpreter/ops.rs:23-218 | which operators take which kinds of operands, and when a division by zero is reported: exactly then is there an error |
| OperatorLaws.SumLessTerm | src/interpreter/ops.rs:23-55 | a sum less one of its terms is the other, for integers, decimals and both |
| OperatorLaws.Joined | src/interpreter/ops.rs:23-41 | the sum of strings is one followed by the other |
| OperatorLaws.DifferenceAndRest | src/interpreter/ops.rs:43-55 | a difference and what was taken away make up what there was; two integers have an integer difference |
| OperatorLaws.ProductOfFactors | src/interpreter/ops.rs:57-71 | a product divided by a factor is the other factor, and a product with zero is zero |
| OperatorLaws.ProductOfIntegers | src/interpreter/ops.rs:57-71 | for integers likewise, without a remainder |
| OperatorLaws.QuotientTimesDivisor | src/interpreter/ops.rs:73-106 | a quotient times the divisor is the dividend, and it is an integer exactly where integers divide without a remainder |
| OperatorLaws.RemainderExactly | src/interpreter/ops.rs:108-120 | the remainder is the only number that leaves a multiple of the divisor, is smaller than it, and has the sign of the dividend |
| OperatorLaws.UnaryLaws | src/interpreter/mod.rs:679-694 | a number and its negation make zero, only numbers are negated, and `not` is true exactly of false values |
| OperatorLaws.ComparesNumbers | src/interpreter/ops.rs:186-218 | the six comparisons of numbers are those of the real numbers they stand for |
| OperatorLaws.Equates | src/value.rs:417-460 | equality is symmetric, decided, and the negation of inequality; values of different kinds are never equal, an integer and a decimal included; numbers of one kind, strings and vectors are compared by order, characters and elements |
| OperatorLaws.FalsyExactly | src/value.rs:358-371 | exactly nil, false, zero, the empty string and the empty vector are false |
| Bytecode.DecodeEncode | src/vm/chunk.rs:315-386 | what the compiler writes is what the machine reads back: opcode, operands of the documented width in little-endian order, and the address of the next instruction |
| Bytecode.NumberedAsDeclared | src/vm/chunk.rs:94-290 | opcodes are numbered in the order of their declaration |
| Slots.LookupAgrees | src/compiler/mod.rs:318-327 | the slot the compiler resolves a name to holds what the scope chain yields for it; no slot means a global or nothing |
| Slots.AssignAgrees | src/compiler/mod.rs:318-327 | writing the resolved slot is assigning the innermost binding of the scope chain; without a slot the globals are written or the name is unbound |
| Slots.Declare | src/interpreter/env.rs:44-47 | a `let` in a block: the next slot represents the new binding, which hides earlier ones of its name |
| Slots.LeaveBlock | src/compiler/mod.rs:278-292 | the locals dropped at the end of a block are exactly those of its frame, and what remains represents the enclosing scope chain |
| Slots.EnterArm | src/compiler/mod.rs:1607-1624 | the bindings of a pattern become the locals of the arm, above the unnamed local that holds what is matched |
| CompilerTheorem.CompileExpr | src/compiler/mod.rs:696-1070 | compiler correctness for every expression of the fragment, from every state that represents a scope chain: if the tree-walker yields a value the code runs from its start to its end, pushes exactly that value and leaves slots and globals representing the tree-walker's environment; if it raises, so does the code, but for the two errors the machine does not have; if it exceeds its budget, the code runs on for as many steps at least |
| CompilerTheorem.CompileStmts | src/compiler/mod.rs:570-629 | the same for statement lists, whose `let`s become slots or globals |
| CompilerTheorem.CompileLoop | src/compiler/mod.rs:1027-1070 | the same for any number of turns of a loop, by induction on its budget |
| CompilerTheorem.CompileMatch | src/compiler/mod.rs:1589-1667 | the same for `match`: the value matched in a hidden local, bindings, guards that fail and give the bindings back, and the arm's value kept above |
| MatchCorrectness.ArmEntered | src/vm/vm.rs:1102-1118 | the test of a matching pattern leaves exactly the values the pattern binds, in the order of the compiler's names |
| CompiledScripts.ScriptCorrect | src/compiler/mod.rs:54-96 | a whole script compiled and run halts with the tree-walker's result and globals, or fails with its error, or runs on for as long as the tree-walker's budget |
| CompiledScripts.ScriptDiverges | src/compiler/mod.rs:54-96 | if interpreting a script exceeds every budget, the machine never halts, fails or crashes on it |
| CompiledScripts.HaltsAlike | src/vm/vm.rs:1007-1030 | if interpreting a script ends, the machine ends in that way and in no other |
| StaticScopes.EvalFine | src/interpreter/mod.rs:735-757 | if every assigned name is declared around the assignment and every `match` has an unguarded arm that takes anything, evaluation raises neither of the two errors on which the back ends part, and unbinds no name |
| StaticScopes.EndsAlike | src/compiler/mod.rs:54-96 | on such scripts compiling and interpreting agree in both directions: the machine ends with a value and globals, or with an error, if and only if the tree-walker does at some budget |
| StaticScopes.NeverExcused | src/vm/vm.rs:1031-1118 | no run of any code ends in one of those two errors: the machine does not have them |
| CompiledScripts.UnboundAssignDefines | src/vm/vm.rs:1031-1072 | the one error on which the back ends part: where the tree-walker raises for assigning an unbound name, the compiled code defines a global and goes on |
| CompiledScripts.UnmatchedIsNil | src/compiler/mod.rs:1651-1660 | the other place: where patterns and guards pass over every arm, the tree-walker raises, and the compiled code goes on with nil in the state the guards left |
| OperandBlocks.OperandOverwritten | src/vm/vm.rs:2830-2843 | where the stack assumption fails: above any locals and temporaries, in any surrounding code and however it is run, an operator or compound assignment over a block that declares a local, or over a `match`, comes to its end with at least one value too few |
| OperandBlocks.RightIfNoneAbove | src/compiler/mod.rs:862-876 | the exact condition: for code with nothing behind it, in any scope and above any temporaries, where the tree-walker yields a value the code of the operator or compound assignment simulates it if and only if the block declares no local; over a `match` never |
| OperandBlocks.NeverHalts | src/compiler/mod.rs:572-585 | a script that ends with such an operator never halts: where it would return, the stack is empty |
| OperandBlocks.ScriptRightIfNoneAbove | src/compiler/mod.rs:54-96 | the exact condition for whole scripts: one that ends in such an operator, and that the tree-walker runs to a value, halts with that value and its globals if and only if the operand declares no local |
| CodeHeights.MatchHeights | src/compiler/mod.rs:1589-1667 | a `match` at any height: its end is one above its start exactly where nothing lay above the locals |
| OperandBlocks.OnePlusBlockDiverges | src/compiler/mod.rs:862-876 | `1 + { let x = 2; x }` is 3 for the tree-walker and crashes the machine |
| CodeHeights.ExprHeights | src/compiler/mod.rs:692-1070 | the code of an expression of the fragment, `match` included: every instruction has one height of the stack on whatever path it is reached, finds its operands, slots and constants, and the end lies one above the start, for any number of locals and temporaries below |
| CodeHeights.StmtsHeights | src/compiler/mod.rs:570-629 | statement lists: the height stays the number of locals and temporaries, each `let` adding one or taking a temporary's place |
| CodeHeights.ArmsHeights | src/compiler/mod.rs:1589-1667 | the arms of a `match`: the next arm is reached at one height from a failed test and from a failed guard, and the end at one height from every body |
| CodeHeights.BlockHeights | src/compiler/mod.rs:862-876 | a block at any height: exactly how high it ends, which is one above its start if there were no temporaries or it declares no local |
| CodeHeights.ProgramHeights | src/compiler/mod.rs:54-96 | the code of a script is well shaped: whole instructions, jumps and handlers to their starts, one height for each, and a single return, at the end, with one value |
| CodeHeights.NeverCrashes | src/vm/vm.rs:560-830 | however long a compiled script runs, it never takes from an empty stack, reads a missing slot or decodes bytes that are no instruction, and it is always at the assigned height |
| CodeShape.RunsAtHeights | src/vm/chunk.rs:100-218 | code that keeps the assigned heights instruction by instruction, with the stack effects documented for the opcodes, runs at those heights |
| CodeShape.LinearSplit | src/vm/chunk.rs:315-356 | instruction boundaries are determined by the operand widths: two runs of decoding from one address agree |
| ScriptCompiler.Compiler.EmitConst | src/compiler/mod.rs:214-228 | the pool search returns the first equal constant and appends only new ones |
| ScriptCompiler.Compiler.EndScope | src/compiler/mod.rs:278-292 | the loop pops exactly the trailing locals of the innermost depth and says how many |
| ScriptCompiler.Compiler.ResolveLocal | src/compiler/mod.rs:318-327 | the backward search finds the last visible local of a name |
| ScriptCompiler.Compiler.PatchJump | src/compiler/mod.rs:237-247 | patching overwrites the two operand bytes with the current address, truncated to 16 bits |
| ScriptCompiler.Compiler.CompileLogical | src/compiler/mod.rs:1535-1556 | short-circuit operators with one back-patched jump emit the specified code |
| ScriptCompiler.Compiler.CompileIf | src/compiler/mod.rs:841-852 | both back-patched jumps of a conditional end up at the specified targets |
| ScriptCompiler.Compiler.CompileWhile | src/compiler/mod.rs:1027-1070 | a loop's handler addresses and four jumps end up at the specified targets |
| ScriptCompiler.Compiler.CompileMatch | src/compiler/mod.rs:1589-1667 | `match` with its list of jumps to the end, all patched at last, emits the specified code and takes its hidden local and the bindings back |
| ScriptCompiler.Compiler.CompileBlock | src/compiler/mod.rs:862-876 | a block emits the specified code and restores locals and depth |
| ScriptCompiler.Compiler.CompileStmts | src/compiler/mod.rs:570-629 | a statement list appends the specified code and leaves the specified scope |
| ScriptCompiler.Compiler.CompileExpr | src/compiler/mod.rs:692-1070 | the compiler as it runs, appending and back-patching, emits the code and constants of the specification, appends only, and restores locals and scope depth |
| ScriptCompiler.Compiler.CompileProgram | src/compiler/mod.rs:54-96 | the same for a script |
| UpvalueResolution.ResolvesLexically | src/compiler/mod.rs:338-364 | resolving a captured name is lexical scoping: a descriptor is found exactly when an enclosing function has the name, it leads to the innermost such local, and every earlier descriptor denotes what it did |
| UpvalueResolution.DenotesInjective | src/compiler/mod.rs:366-377 | deduplication is complete: two descriptors of a function never denote the same variable |
| UpvalueResolution.StepKeepsDenotations | src/compiler/mod.rs:273-309 | no step of a compilation (opening and closing functions and scopes, declaring, resolving) changes what an existing descriptor denotes |
| UpvalueResolution.AlwaysWellScoped | src/compiler/mod.rs:338-377 | descriptors are in range and duplicate-free throughout every compilation |
| UpvalueResolution.AlwaysNested | src/compiler/mod.rs:278-309 | throughout every compilation the locals of a function lie in the order of their depths, none deeper than the current one |
| UpvalueResolution.BlockUndone | src/compiler/mod.rs:278-292 | whatever a block declares, its end gives back the function as it was |
| UpvalueResolution.CapturedMarked | src/compiler/mod.rs:338-364 | the local a captured name is resolved to is marked as captured |
| UpvalueResolution.ClosureCaptures | src/vm/vm.rs:2625-2656 | following the descriptors when closures are created captures exactly the stack slots of the denoted variables |
| UpvalueResolution.Resolver.ResolveUpvalueAt | src/compiler/mod.rs:338-364 | the recursive method on the function stack computes the specified resolution |
| UpvalueResolution.Resolver.ResolveUpvalue | src/compiler/mod.rs:330-336 | the compiler's entry point: found iff some enclosing function has the name, and then denoting the innermost one |
| UpvalueResolution.Resolver.AddUpvalue | src/compiler/mod.rs:366-377 | the search returns an equal descriptor if there is one and appends otherwise |
| Upvalues.RunRefines | src/vm/closure.rs:56-101 | upvalues refine shared cells: with one upvalue per variable, over every sequence of slot writes, upvalue writes, captures and cuts, every read returns the last value written to its variable |
| Upvalues.SharingSurvives | src/vm/closure.rs:56-101 | from a state that represents the variables, every continuation without captures reads right if and only if no variable has two upvalues |
| Upvalues.TwoClosuresPart | src/vm/vm.rs:2625-2656 | two closures over one local get an upvalue each, so some continuation tells them apart |
| OpenUpvalues.VmCtx.Capture | src/vm/vm.rs:2625-2674 | capturing adds a new open upvalue for the slot and keeps the list sorted, topmost slot first, also for a slot that is not filled yet |
| OpenUpvalues.VmCtx.PushValue | src/vm/vm.rs:2743-2745 | a push is the push of the specification, and fills a slot that was captured before |
| OpenUpvalues.VmCtx.PushCapturing | src/vm/vm.rs:2625-2656 | a local function that captures itself finds itself through its upvalue |
| OpenUpvalues.VmCtx.LoadUpvalue | src/vm/vm.rs:649-673 | a load through an upvalue reads its slot while it is open and its own value afterwards |
| OpenUpvalues.VmCtx.InsertOpenUpvalue | src/vm/vm.rs:2658-2674 | sorted insertion: the list stays descending and gains exactly the new upvalue |
| OpenUpvalues.VmCtx.CloseUpvaluesAbove | src/vm/vm.rs:2676-2687 | the loop closes exactly the open upvalues at or above the floor with the values in their slots, and takes exactly those off the list |
| OpenUpvalues.VmCtx.PopLocalKeep | src/vm/vm.rs:802-811 | the end of a block is the cut of the specification under the kept value |
| OpenUpvalues.VmCtx.ReturnFromFrame | src/vm/vm.rs:1730-1750 | a return is the cut of the specification at the frame's base |
| OpenUpvalues.VmCtx.AssignUpvalue | src/vm/closure.rs:67-72 | a write through an upvalue goes to the slot while it is open and to the upvalue afterwards |
| PrattSoundness.ParsesExactly | src/parser/mod.rs:661-888 | parsing decided: a token list parses without an error to a tree with a remainder exactly when the tree respects the binding powers, yields the tokens before the remainder, the remainder does not extend it, and it is not mistaken for an arrow function |
| PrattLaws.Completes | src/parser/mod.rs:661-744 | every tree that respects the binding powers is what its tokens parse to, in any context that does not extend it |
| PrattSoundness.SoundExpr | src/parser/mod.rs:661-744 | whatever parses without an error respects the binding powers and is a maximal prefix |
| PrattSoundness.FittingTreeUnique | src/parser/mod.rs:748-790 | precedence leaves no choice: a token list is the yield of at most one tree |
| PrecedenceGrammar.FitsIffDerivable | src/parser/mod.rs:748-817 | a tree respects the binding powers if and only if a grammar in layers derives it: products of unaries, sums of products, comparisons, conjunctions, disjunctions, sends and requests, pipes, each to the left, and assignments to the right |
| PrecedenceGrammar.Layers | src/parser/mod.rs:748-790 | layer by layer, which operators bind tighter than which |
| PrecedenceGrammar.ParsesWhatIsDerived | src/parser/mod.rs:661-888 | parsing decided by that grammar: a token list parses without an error to a tree with a remainder exactly when the grammar derives the tree from the tokens before it, nothing behind goes on with it, and it is no name in parentheses before `=>` |
| PrecedenceGrammar.DerivationUnique | src/parser/mod.rs:748-790 | the grammar derives one token list in at most one way |
| PrecedenceGrammar.AcceptsWhatIsDerived | src/parser/mod.rs:661-1008 | what the whole parser accepts among operator expressions, and with which tree, in terms of that grammar |
| PrattSoundness.Traps | src/parser/mod.rs:170-200 | a name in parentheses before `=>` is refused as an arrow function wherever it ends an expression, as in the guard of a match arm |
| PrattLaws.ArrowAfter | src/parser/mod.rs:170-200 | the lookahead fires on a parenthesised expression exactly when it is a single name followed by `=>` |
| PrattPrinting.PrintParse | src/parser/mod.rs:661-817 | printing with the parentheses of `Minimal` and parsing back gives the tree, up to parentheses |
| PrattPrinting.MinimalIsLeast | src/parser/mod.rs:661-817 | no way of parenthesising an expression that the parser reads back needs fewer parentheses |
| PrattPrinting.MinimalFits | src/parser/mod.rs:661-817 | the minimally parenthesised tree respects the binding powers and is the same expression |
| Grammar.Expr | src/parser/mod.rs:661-744 | an expression, with everything that can occur in one: a result consumed a token, and while nothing is recorded the tokens of the tree followed by those left are the tokens there were |
| Grammar.Stmt | src/parser/mod.rs:252-659 | the same for statements of every form; a statement that fails consumed a token if it began with a keyword |
| Grammar.BlockLoop | src/parser/mod.rs:1209-1234 | the loop over the statements of a block, errors and resynchronising inside it included, terminates and accounts for its tokens |
| Grammar.StmtList | src/parser/mod.rs:204-227 | a statement list ends at the end of the file, or before the closing brace of what encloses it, whatever the tokens are |
| Grammar.Resync | src/parser/mod.rs:230-250 | resynchronising consumes a token unless it stands before the start of a statement or the closing brace of a block |
| GrammarLaws.NothingLost | src/parser/mod.rs:43-63 | a file that parses without a recorded error is, token by token, what was parsed |
| GrammarLaws.ListAdvances | src/parser/mod.rs:204-250 | each iteration of both statement loops consumes a token, also one that ends in an error and resynchronises |
| GrammarLaws.ResyncStops | src/parser/mod.rs:230-250 | resynchronising stops at the first semicolon, start of a statement, or closing brace of a block, and takes the semicolon |
| GrammarSoundness.ParsesExactly | src/parser/mod.rs:43-63 | the whole parser decided: a file is parsed without an error, as which statements, exactly when these are a program of a grammar that is independent of the parser and their tokens are those of the file |
| GrammarSoundness.AcceptsExactly | src/parser/mod.rs:43-63 | a file is accepted without an error exactly when it is a program |
| GrammarCompleteness.ProgramParses | src/parser/mod.rs:204-227 | no construct is missing: every program of the grammar is parsed as it stands, and nothing is reported |
| GrammarCompleteness.Unambiguous | src/parser/mod.rs:204-227 | one list of tokens is at most one program |
| GrammarCompleteness.ExprReads | src/parser/mod.rs:661-888 | every expression of the grammar, with whatever occurs in it, is read whole where nothing behind it goes on with it |
| GrammarSoundness.ExprWas | src/parser/mod.rs:661-888 | whatever is read as an expression without an error is one, and nothing behind it goes on with it |
| GrammarCompleteness.KeywordReads | src/parser/mod.rs:904-1127 | conditionals, matches, loops, `try`, functions, spawns, jumps and marked expressions are read as the grammar has them |
| GrammarSoundness.KeywordWas | src/parser/mod.rs:904-1127 | and whatever is read behind one of their keywords without an error is such a construct |
| GrammarCompleteness.BraceReads | src/parser/mod.rs:1129-1234 | braces: nothing in them is a map, a colon behind the first expression makes one, and all else is a block |
| GrammarSoundness.BraceWas | src/parser/mod.rs:1129-1234 | and whatever is read between braces without an error is one of these |
| GrammarCompleteness.PatternReads | src/parser/mod.rs:1398-1590 | patterns of every form and their alternatives are read as the grammar has them |
| GrammarSoundness.PatternWas | src/parser/mod.rs:1398-1590 | and whatever is read as a pattern without an error is one |
| GrammarCompleteness.TypeReads | src/parser/mod.rs:543-633 | types: names with parameters, unions and functions |
| GrammarSoundness.TypeWas | src/parser/mod.rs:543-633 | and whatever is read as a type without an error is one |
| GrammarCompleteness.StmtReads | src/parser/mod.rs:252-525 | statements and declarations of every form, and which begin like a declaration but are expressions |
| GrammarSoundness.StmtWas | src/parser/mod.rs:252-525 | and whatever is read as a statement without an error is one |
| GrammarCompleteness.ListedReads | src/parser/mod.rs:890-902 | lists with commas: no comma before the closing token, `..` only at the end of patterns |
| OperatorAgreement.OperatorsAgree | src/parser/mod.rs:661-1008 | on the tokens of operator expressions the whole parser succeeds where the parser of `Pratt` does, stops at the same token, records as many errors, and without errors yields the same tree |
| OperatorAgreement.AcceptsExactly | src/parser/mod.rs:661-1008 | what the whole parser accepts without an error among operator expressions, and with which tree: exactly the trees that respect the binding powers, that what follows does not extend, and that are not taken for an arrow function |
| SourceParser.Parser.Parse | src/parser/mod.rs:43-63 | the parser as it runs reads the whole file, whatever is wrong with it, and returns the specified trees and errors |
| SourceParser.Parser.StmtList | src/parser/mod.rs:204-227 | the loop on cursor and error list computes the specified statements, errors and remaining tokens |
| SourceParser.Parser.BlockLoop | src/parser/mod.rs:1209-1234 | likewise the loop over a block, which ends at a tail, a closing brace or the end of the file |
| SourceParser.Parser.StmtOrResync | src/parser/mod.rs:219-225 | one iteration: a statement, or its error recorded and the cursor at the next place to start; the cursor advances |
| SourceParser.Parser.ResyncTo | src/parser/mod.rs:230-250 | the resynchronising loop stops where the specification says |
| SourceParser.Parser.Stmt | src/parser/mod.rs:252-287 | the dispatch on the first tokens of a statement |
| SourceParser.Parser.Expr | src/parser/mod.rs:661-744 | an operand and the loop over infix operators compute the specified outcome |
| SourceParser.Parser.PostfixLoop | src/parser/mod.rs:819-888 | likewise the loop over calls, indexes, fields and methods |
| SourceParser.Parser.Primary | src/parser/mod.rs:904-1122 | the dispatch on the first token of an operand |
| SourceParser.Parser.Brace | src/parser/mod.rs:1129-1194 | a brace begins a map or a block, decided by its first tokens or by what follows its first expression |
| SourceParser.Parser.Items | src/parser/mod.rs:890-902 | lists with commas: arguments, elements, parameters, types, fields, variants and patterns; a missing closer is recorded and parsing goes on |
| SourceParser.Parser.ArmsLoop | src/parser/mod.rs:1284-1318 | the arms of a `match`, each with its pattern, guard and body, the commas optional |
| SourceParser.Parser.Pattern | src/parser/mod.rs:1398-1577 | patterns of every form and their alternatives |
| SourceParser.Parser.ArrowAhead | src/parser/mod.rs:170-200 | the scanning loop decides the lookahead of the specification without moving the cursor |
| GrammarLocality.ExprSame | src/parser/mod.rs:661-744 | parsing an expression depends on nothing but its tokens: neither on errors recorded before nor, up to a semicolon with no brace opened, on what comes after it |
| GrammarLocality.StmtSame | src/parser/mod.rs:252-659 | the same for statements of every form |
| GrammarLocality.SemicolonSeparates | src/parser/mod.rs:230-250 | recovery is local in the whole language: whatever tokens without opening braces and without `actor` come before a semicolon, errors and all, the statements and errors before and after it are those both parts have on their own |
| Recovery.ActorSwallows | src/parser/mod.rs:204-227 | why `actor` is excluded: `actor A;` without its brace takes what follows, where no brace closes it, as its body, with two errors recorded, so that the file is not parsed in two parts |
| Recovery.PrintParse | src/parser/mod.rs:204-250 | printed statements parse back to their trees, without an error |
| Recovery.StatementsSurvive | src/parser/mod.rs:230-250 | sound statements after a semicolon all survive any garbage without opening braces before it |
| SchedulingLaws.TickConserves | src/runtime/scheduler.rs:373-528 | a tick loses, doubles and invents no coroutine: each is in exactly one of ready, parked, timers or results before and after, with the same number of awaits in all |
| SchedulingLaws.CompleteRun | src/runtime/scheduler.rs:547-568 | a run that completes leaves all queues empty and has exactly one result per coroutine, made of one value for each of its awaits |
| SchedulingAnswers.TickAnswers | src/runtime/scheduler.rs:373-528 | what a tick hands out: a log of answers accounts for all coroutines, each answer is the task's value for the first, what the poll says for a pending task, and nil for a task handed out before, and the answers lie on the ready stack in the order of the log |
| SchedulingAnswers.RunAnswers | src/runtime/scheduler.rs:547-568 | over whole runs: one log for each tick accounts for everything the coroutines receive, and only the first answer for a task has its value, over all ticks together |
| SchedulingAnswers.FinishedReceived | src/runtime/scheduler.rs:547-568 | whatever has finished has received one value for each task of its script, in order, each as the log of fair answers has it |
| SchedulingAnswers.NobodyOverlooked | src/runtime/scheduler.rs:445-520 | who still waits after a tick waits for a token that was not ready, a task whose poll had no answer, or a later time |
| SchedulingAnswers.LastReadyFirst | src/runtime/scheduler.rs:375-403 | the ready coroutines are resumed from the last to the first, and finish in that order |
| SchedulingAnswers.TokensGo | src/runtime/scheduler.rs:445-483 | a tick deregisters the tokens of the coroutines it answers, and only tokens that were ready |
| SchedulingLaws.TimerSafety | src/runtime/scheduler.rs:485-520 | no coroutine in the timer heap is resumed before its deadline, and after a tick no deadline has passed |
| Scheduling.FireTimerDue | src/runtime/scheduler.rs:485-520 | each turn of the timer loop lowers the number of due timers, also when a pending task is put back, so the loop ends |
| SchedulingLaws.CompletesInTime | src/runtime/scheduler.rs:547-568 | if tokens are ready, polls answer and deadlines have passed, a run completes within the largest number of awaits plus one tick |
| SchedulingLaws.TickProgress | src/runtime/scheduler.rs:373-528 | under the same conditions every tick brings every coroutine one await further |
| SchedulingLaws.ConsumedForGood | src/runtime/scheduler.rs:461-478 | a task's value is handed out once: who awaits it later gets nil |
| SchedulerLoop.Scheduler.RunAllReady | src/runtime/scheduler.rs:375-403 | the loop over the ready stack, last in first out, does what the specification says |
| SchedulerLoop.Scheduler.PollAllParked | src/runtime/scheduler.rs:445-483 | the polling loop keeps the parked in order, wakes those whose task answers and collects their tokens |
| SchedulerLoop.Scheduler.FireAllTimers | src/runtime/scheduler.rs:485-520 | the timer loop does what the specification says and terminates |
| SchedulerLoop.Scheduler.RunTick | src/runtime/scheduler.rs:373-528 | one tick on the scheduler's fields: the specified state, nothing lost, no timer due, and true exactly when all three queues are empty |
| SchedulerLoop.Scheduler.RunUntilComplete | src/runtime/scheduler.rs:547-568 | ticks until done and hands over exactly one result per coroutine |
| SchedulerLoop.Scheduler.SpawnHandler | src/runtime/scheduler.rs:336-361 | spawning adds one coroutine and nothing else |
| Modules.LoadDecides | src/interpreter/mod.rs:422-498 | a load succeeds exactly when everything the file reaches by eager imports resolves, reads, parses and evaluates, no cycle is reachable, and nothing reachable is on the load stack |
| Modules.FreshLoadDecides | src/interpreter/mod.rs:422-498 | from an empty cache and stack, loading decides whether the reachable import graph is sound and acyclic |
| Modules.OnceOnly | src/interpreter/mod.rs:441-466 | no file is evaluated twice; the load stack has no duplicates and is disjoint from the cache |
| Modules.AlwaysValid | src/interpreter/mod.rs:422-498 | these invariants hold after any sequence of loads, failed ones included |
| Modules.FailureLooksCircular | src/interpreter/mod.rs:480-484 | a file whose evaluation failed stays on the stack: every later import of it reports a cycle |
| Modules.FailureCause | src/interpreter/mod.rs:422-498 | the files a failed load leaves on the stack lead, import by import, to the statement that failed, and the error reported is its error |
| Modules.InOrder | src/interpreter/mod.rs:480-484 | the statements of a file are evaluated in order: a list of them is its first part and, if that did not fail, the rest |
| Modules.FalseCycle | src/interpreter/mod.rs:446-460 | a concrete module that imports nothing, raises, and is then reported as a circular import |
| Modules.RoomShrinks | src/interpreter/mod.rs:446-484 | the recursion terminates: files not on the stack get fewer |
| Modules.Importer.LoadModule | src/interpreter/mod.rs:422-498 | the recursive method on cache and stack computes the specified load and decides soundness |
| Modules.Importer.EvalModule | src/interpreter/mod.rs:480-484 | evaluating statements stops at the first failure, leaving the stack as it is |
| Patterns.TreeMeets | src/interpreter/mod.rs:2146-2264 | the tree-walker's matcher decides the declarative meaning of a pattern, and on success binds what the pattern binds and nothing from failed alternatives |
| Patterns.VmMeets | src/vm/vm.rs:2496-2608 | the machine's matcher decides the same and collects the same values in the same order |
| Patterns.NamesAreBound | src/compiler/mod.rs:1678-1712 | if or-patterns name alike, the names bound are exactly the compiler's binding names, in order |
| Patterns.BackEndsAgree | src/vm/vm.rs:2496-2608 | then compiled matching gives the same frame as the tree-walker |
| Patterns.OrNamesFirst | src/compiler/mod.rs:1703-1707 | otherwise the compiled names are right for a value exactly when its first matching alternative names like the first one |
| Patterns.FramesAgree | src/compiler/mod.rs:1678-1712 | for any pattern, with or-patterns anywhere in it: where no name and no value comes twice, the compiled frame is the tree-walker's if and only if the alternatives chosen bind the compiler's names in order, or the first of them |
| Patterns.SlotsLineUp | src/compiler/mod.rs:1678-1712 | as many values are pushed as the compiler counts slots, and each name has its value, if and only if the names bound are those the compiler listed: a name more or less puts every slot above out of place |
| Patterns.SwappedNames | src/compiler/mod.rs:1703-1707 | `A(x, y) \| B(y, x)` on `B(1, 2)`: compiled code swaps the two variables |
| Patterns.Scope.MatchPattern | src/interpreter/mod.rs:2146-2264 | the matcher that binds as it goes computes the specified match |
| Patterns.Scope.MatchAlternatives | src/interpreter/mod.rs:2237-2252 | each alternative binds in a frame of its own, merged only on success |
| Mailboxes.ActorSystem.Send | src/interpreter/mod.rs:1299-1304 | a message goes to the end of its actor's mailbox, and conservation is kept |
| Mailboxes.ActorSystem.Receive | src/interpreter/mod.rs:1789-1793 | taking a message takes the oldest |
| Mailboxes.DeliverableKeeps | src/interpreter/mod.rs:1299-1304 | of the messages a handler sends, exactly those to live actors are queued, in order |
| Mailboxes.ActorSystem.SendAll | src/interpreter/mod.rs:1299-1304 | all of them are sent: what was sent before, then these, each at the end of its mailbox |
| Mailboxes.ActorSystem.Run | src/interpreter/mod.rs:1795-1799 | a handler first spawns, then sends, to the spawned actors too; nothing else changes |
| Mailboxes.ActorSystem.Dispatch | src/interpreter/mod.rs:1789-1804 | the oldest message is dispatched, and what its handler sends is queued |
| Mailboxes.ActorSystem.Drain | src/interpreter/mod.rs:1781-1804 | one reaction for each message dispatched, actor after actor: what has been sent is what was sent before followed by what these reactions send, and the actors are those before and those spawned; what was dispatched to an actor followed by its mailbox is what was sent to it, in order; the drain is cut short exactly by a handler that fails, and else every mailbox holds what was sent to its actor after its visit |
| Lexer.PositionCounts | src/ast/span.rs:34-53 | the position after any text: its offset is the length in UTF-8, its line counts the newlines, its column counts the characters of the last line, carriage returns apart |
| Lexer.PositionMovesOn | src/ast/span.rs:34-53 | consuming anything moves the offset strictly on, so spans of successive tokens are ordered and disjoint |
| Delimiters.CommentCloses | src/lexer/mod.rs:315-337 | well-nested text followed by `*/` takes a comment from any depth down by one level |
| Delimiters.CommentWasNested | src/lexer/mod.rs:315-337 | whatever a closed comment skips was well nested, at every depth |
| Delimiters.CommentEndsExactly | src/lexer/mod.rs:315-337 | a comment ends leaving `rest` if and only if the text splits into well-nested text, a closing delimiter and `rest` |
| Delimiters.StringWasClosed | src/lexer/mod.rs:691-714 | whatever is skipped as a nested string is a string literal whose quote closes it, escapes honoured |
| Delimiters.InterpolationCloses | src/lexer/mod.rs:656-686 | balanced text and a closing brace are collected verbatim, at any depth; braces inside string literals do not count |
| Delimiters.InterpolationEndsExactly | src/lexer/mod.rs:651-687 | an interpolation yields `text` and leaves `rest` if and only if the source is balanced text `text`, its closing brace and `rest` |
| Literals.StringReads | src/lexer/mod.rs:470-539 | a string written with legal pieces (characters, escapes, Unicode escapes, balanced interpolations) ends at its quote and denotes the parts the pieces stand for |
| Literals.StringEndsExactly | src/lexer/mod.rs:470-539 | a string is read without complaint, denoting `parts` and leaving `rest`, if and only if the text splits into legal pieces that stand for `parts`, the closing quote and `rest` |
| Literals.StringWasSpelled | src/lexer/mod.rs:470-573 | whatever is read without complaint was written with legal pieces; a missing brace of a Unicode escape passes only where the whole string is unterminated |
| Lexer.Lexer.Fill | src/lexer/mod.rs:72-79 | filling the lookahead loses and reorders nothing: buffer and unread characters together stay the same |
| Lexer.Lexer.Peek2 | src/lexer/mod.rs:88-91 | the second lookahead is the second unconsumed character, and looking consumes nothing |
| Lexer.Lexer.Bump | src/lexer/mod.rs:94-103 | what was consumed followed by what is left is always the source, and the position is the fold of `advance` over what was consumed |
| Lexer.Lexer.EatBlockComment | src/lexer/mod.rs:315-337 | the depth-counting loop stops exactly where the comment ends, or at the end of the text with one error there |
| Lexer.Lexer.SkipNestedString | src/lexer/mod.rs:691-714 | the literal is copied behind what was collected, to its closing quote or to the end of the text with one error |
| Lexer.Lexer.CollectInterpolation | src/lexer/mod.rs:656-686 | the loop returns the collected text, leaves what follows the closing brace, and reports exactly what is missing |
| Lexer.Lexer.ReadString | src/lexer/mod.rs:470-539 | the loop over a string, with its escapes and interpolations, computes the specified parts, leaves what follows the closing quote, and reports what is wrong in order |
| Lexer.Lexer.ReadUnicodeEscape | src/lexer/mod.rs:541-573 | a Unicode escape adds the character of its hexadecimal digits, surrogates and numbers out of range reported, and its rest is where the specification says |
| Lexer.Lexer.ReadTriple | src/lexer/mod.rs:575-649 | likewise strings in triple quotes, with fewer escapes and without the first newline |
| Lexer.Lexer.ReadNumber | src/lexer/mod.rs:341-465 | likewise numbers, with underscores between digits, a fraction only before a digit, an exponent whose marker is read even without digits, and a report and the value zero for decimals the conversion refuses |
| Lexer.TokensInOrder | src/lexer/mod.rs:34-49 | the list ends in its only end-of-file token, standing at the end of the text; every other token covers some text; spans are ordered and disjoint |
| Lexer.CommentIsSpace | src/lexer/mod.rs:137-141 | a block comment, whatever it nests, separates tokens and is passed over without a report, exactly as nothing but white space would |
| LexicalGrammar.ReadsExactly | src/lexer/mod.rs:115-311 | lexing decided: a text is read without a report, as tokens of which kinds, exactly when it is laid out from white space, comments and spelled tokens of these kinds, each followed by nothing that goes on with it |
| LexicalGrammar.LexemeReads | src/lexer/mod.rs:115-311 | every token is read as it is spelled: names, numbers, strings of both kinds and punctuation |
| LexicalGrammar.LexemeWas | src/lexer/mod.rs:115-311 | and whatever is read as a token without a report was spelled so |
| LexicalGrammar.SignReads | src/lexer/mod.rs:183-311 | the longest punctuation token that begins the text is read |
| Spellings.FiguresRead | src/lexer/mod.rs:341-465 | digits in groups with underscores between them, a fraction and an exponent are read as one number without the underscores, a decimal exactly if it has a fraction or an exponent |
| Spellings.FiguresWereSpelled | src/lexer/mod.rs:341-465 | and whatever is read as a number without a report was spelled so |
| Spellings.LongReads | src/lexer/mod.rs:575-649 | a string between three quotes ends at the first three quotes that no escape covers, and its pieces mean what they mean between single ones |
| Spellings.LongWasSpelled | src/lexer/mod.rs:575-649 | and whatever is read so without a report was spelled so; a last backslash ends it silently |
| Spellings.EscapesExactly | src/lexer/mod.rs:498-519 | the escapes and the code points they stand for, and the two that strings between three quotes do not have |
| Spellings.EveryCharacter | src/lexer/mod.rs:541-573 | every character can be written with its number in hexadecimal, surrogates and numbers out of range are none |
| Spellings.AnyText | src/lexer/mod.rs:470-539 | any text at all, written with escapes where it must be, is read back as it was |
| Lexer.Lexer.NextToken | src/lexer/mod.rs:115-311 | white space, comments and characters that start no token are passed over, and the token found, with its kind and parts, spans exactly its text; at the end of the text it is the end-of-file token; what is reported on the way is reported in order |
| Lexer.Lexer.Tokenize | src/lexer/mod.rs:34-49 | the loop terminates on every input, consumes all of it, yields the tokens the result above is about, and reports what is wrong in each of them and between them, in order |
| SendValues.SentExactly | src/value.rs:736-795 | a value converts if and only if no actor, function, cell, module, resource, lazy import or task occurs in it at any depth; a refusal names one that does |
| SendValues.SentAsImage | src/value.rs:749-762 | no two keys or elements merge on conversion: every collection keeps its size and order |
| SendValues.RoundTrip | src/value.rs:803-842 | what arrives is the value that was sent, for values of any nesting |
| SendValues.SentInjective | src/value.rs:736-795 | different values are different on the way |
| SendValues.EqualityOnTheWay | src/value.rs:844-870 | two converted values are equal if and only if the values are and no bytes occur in them; one with bytes inside does not even equal itself |
| SendValues.Convert | src/value.rs:736-795 | the conversion with its loops, element by element and stopping at the first refusal, computes the function the results above are about |

## Left out

- Fuel: loops of the tree-walker and of transaction bodies run on a step budget; every statement holds for every budget, and what exceeds all of them is an endless run.
- Decimal precision: decimals are exact reals, and division does not round.
- Expression forms: calls, closures, collection literals, indexing, string interpolation, `for`, `loop`, `try`, `break`, `continue`, `raise`, `return` and exceptions are not part of the compiler theorem.
- Serializability.Serializable: assumes that the committed attempt discarded no nested attempt, because the source drops the reads of discarded attempts; Serializability.SerializableIfOnRecord has the exact condition for their validation, and StaticTransactions.SerializableIfQuiet needs no assumption about the run.
- CompilerTheorem.CompileExpr: excepts the two errors the machine does not have; CompiledScripts.UnboundAssignDefines and CompiledScripts.UnmatchedIsNil say what it does instead, StaticScopes.EndsAlike when they cannot occur.
- SharedRef values in the compiler model: slots and globals hold plain values, so the automatic dereference of shared cells and the write-through of assignments to them are modelled for the tree-walker's transactions only.
- Environments are values: frames shared between closures of the tree-walker are not modelled.
- Transactions.Eval: bodies are without calls, collections, `match`, `ensure` and typed `rescue` clauses; several statements are a sequence of two parts.
- Actor frames, lazy imports, handler stacks across frames and the frame stack of the machine.
- Sharing of cells between threads, creation of cells inside a transaction, and cells passed to native functions, which bypass the write set.
- Upvalues.SharingSurvives: speaks of continuations without captures; Upvalues.RunRefines allows captures of variables not captured yet.
- Truncation of the stack without closing upvalues, which happens when the guard of a match arm fails: compiled code of the model makes no closures.
- UpvalueResolution: descriptor indices are unbounded, while the emitted operand is one byte.
- GrammarLocality.SemicolonSeparates: excludes opening braces before the semicolon, behind which it separates the statements of a block, and `actor`, for which Recovery.ActorSwallows shows that it fails.
- LanguageGrammar.Program: speaks of files that are parsed without an error; what is recorded for others is what SourceParser.Parser.Parse says.
- LexicalGrammar.ReadsExactly: takes for granted that no character of the Unicode tables is white space, begins a name and is a digit or punctuation at the same time.
- Recovery.PrintParse: prints `let` and expression statements over operator expressions.
- Grammar.AtomicPattern: whether a name begins with an upper-case letter, and whether the interpolations inside a string token parse, are given with the token; the interpolations are parsed by the same functions on tokens of their own.
- Grammar.Parse: trees keep the tokens and not the fields of the syntax tree built from them.
- Positions, spans, messages and hints of errors.
- The heap of timers is a list from which the first entry with the earliest deadline is taken; among equal deadlines the source's heap may choose another.
- Scheduling.Tick: tasks and tokens exist from the start, so registering a stream while a coroutine runs is not modelled; the timeout given to the poll call is left out.
- Modules.Load: what a module exports is left out, and std modules are names only.
- Patterns: guards inside patterns, which the machine rejects, and interpolated string patterns.
- Mailboxes.ActorSystem.Drain: what handlers send, spawn and whether they fail are given as reactions; requests with a reply and the coroutine-based drain are left out. A drain visits each actor once, so mailboxes need not be empty at its end.
- Lexer.Lexer.NextToken: spans of reports and of the parts of strings, and the value of numbers; which decimals the conversion refuses is an arbitrary function; depth counters and positions are unbounded.
- SendValues.FromValue: lists stand for the order of iteration of hash collections, which repeat no key; hashes are left out.
- `task_all`, native functions, input and output, sockets, clocks and threads, the command line, the language server and the editor support.
