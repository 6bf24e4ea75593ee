# Gengine, modelled and proved

Gengine is a rule engine. Rules are written in a small language; each rule has a name, a salience and a body.
A builder parses a text into a registry of rules and keeps an index of them by descending salience; an engine
runs the rules serially, concurrently or in combinations of both; a pool hands engines to concurrent requests and
updates the rules while requests are under way. This project models these parts in Dafny and proves what they
promise.

## What is proved

**The rule index** (`GoSlice`, `RuleOrder`, `RuleBuilder`). Go slices are modelled as a window onto a shared backing
array with a length and a capacity, and `append` writes in place when the array has room. On this model the
incremental update keeps the sorted slice a duplicate-free descending arrangement of the current registry with the
index map as its inverse. That includes the branch for a changed salience, whose appends go to a variable that shadows
the caller's slice. A Go map's iteration order is an arbitrary choice of the next key. Incremental update and full
rebuild agree up to rules of equal salience, and rules outside the update keep their order.

**The pool** (`Pool`, `PoolProtocol`, `Snapshot`, `Lookups`, `UpdateSteps`). `Pool` is the rule side at rest: after
any sequence of full update, incremental update, removal and clear, every worker serves the pool's registry and the
queries answer for every worker. `Snapshot` is the rule side in motion: a transition system in which updates, removals
and clears rewrite the knowledge contexts field by field while executions read them without a lock. An execution works
throughout on one complete sorted list of one version, and no array that was ever in a context is written again.
`Lookups` says which versions the rules come from that an execution looks up by name; `UpdateSteps` ties the steps to
the code of the rule index. `PoolProtocol` is the worker side, a transition system at lock granularity with any number
of callers and returners: conservation of workers, no sharing, safe list heads, no deadlock, who gets which worker,
and what a run can see of other requests.

**The front end** (`Text`, `ParseTree`, `Listener`, `FrontEnd`, `TreeWalk`, `Records`, `ParserListener`). Parse trees
follow the grammar's productions; a tree determines the events of a walk. `Listener` is the stack machine that the
callbacks drive, `Records` says what header fields, literals and conc blocks hold, `ParserListener` is the imperative
listener over a stack, proved to be that machine. For every program tree the walk makes every type assertion succeed,
reports an error exactly when a rule is not acceptable or a name repeats, and otherwise registers exactly the records
that `FrontEnd` describes.

**The interpreter** (`Runtime`, `Evaluator`, `Execution`, `Interpreter`, `Meaning`, `Preservation`, `Operators`,
`Calls`, `Access`, `Conditions`). `Evaluator` and `Execution` are the engine's evaluation branch by branch: three
results, sentinel errors for break and continue, a flag for return. `Interpreter` is the code with its loops and
updates in place, proved to compute them. `Meaning` gives the language a meaning directly on parse trees, with
outcomes normal, return, break, continue and error, and `Preservation` proves that executing what the listener builds
is that meaning. Indexing a slice yields a reference to the element, which is looked into only where a value is
needed; slices are windows of arrays and may overlap. `Operators`, `Calls`, `Access` and `Conditions` say what the
building blocks of both sides yield, down to which operand stands where. What lies outside the language is a parameter
that may be any function: injected functions, fields of host objects, reflective conversions, floating-point results,
the order of map keys and the scheduler.

**Properties of the language** (`Numeric`, `IntegerMath`, `Aliasing`, `Loops`, `Bounds`, `Conc`, `Interleaving`).
Wrapping mixed-sign arithmetic, and comparison through float64 with its exact limits; which variables alias slice
elements; loops that never leak their sentinels, run a bounded number of times and visit each key once; a bound on
host calls; conc blocks, where tasks are sequences of steps at the granularity of variable and element accesses.

**Execution strategies** (`Traces`, `Concurrency`, `Strategies`, `Modes`, `Engine`). Every mode is a function of what
it does not control: how rules behave, when the context is cancelled, when the stop tag is set, what the scheduler
picks. Its event trace follows the plan of the mode; `Modes` says exactly how far it gets with which options. `Engine`
is the code with its loops.

## Findings

- A variable assigned from a slice element aliases the element and sees later writes to it, so the usual swap of two
  elements loses one of them (internal/base/map_var.go:153, context/data_context.go:389; `Aliasing.SwapOverwrites`,
  `Aliasing.SwapSucceedsIff`). `Aliasing.WriteSeenIff` says exactly when a write is seen.
- A request that passes a name of the API set, even with a nil value that is never bound, deletes that API from the
  worker's context for good (engine/gengine_pool.go:563; `PoolProtocol.NilErasesApi`);
  `PoolProtocol.ContextRestoredIff` is the exact condition.
- The sorted list is read twice without a lock. If the pool is cleared, or all its rules removed, between the two reads,
  an execution goes on with no rules, and in the sort and the concurrent mode reports success (engine/exec_opts.go:141-144;
  `Snapshot.ClearBetweenReads`, `Snapshot.EmptyAfterLengthIff`, `Strategies.EmptiedRunsNothing`).
- An execution with selected names, or a layered one, looks each name up in the registry of the moment, so an update
  beside it can hand it rules of different versions (engine/exec_opts.go:153, engine/exec_opts.go:258;
  `Lookups.TwoVersionsInOne`); `Lookups.RulesOfVersions` says which versions they can be.
- `@name` is not the rule's name if the name contains a quote (internal/iparser/gengine_parser_listener.go:713;
  `TreeWalk.QuotedNameDiffers`, exactly when: `TreeWalk.AtNameIsRuleName`).
- The lexer takes `tRue` as a boolean literal, the listener rejects it
  (internal/iparser/gengine_parser_listener.go:489; `TreeWalk.BooleanSpelling`).
- `&&` and `||` always evaluate both operands (internal/base/expression.go:100-124; `Preservation.ExpressionAgrees`).
- A break or continue outside any loop ends the rule with an error (internal/base/break_stmt.go:17; `Loops.BareBreakLeaks`).
- A for loop fails after 10000 runs even if its condition would have turned false next (internal/base/for_stmt.go:46-52);
  the most that succeed without a break are 9999 (`Loops.ForSucceedsIff`), while a forRange succeeds with 10000
  (`Loops.RangeSucceedsIff`).
- The size check of the N-M modes is fooled by an overflowing N+M (engine/exec_opts.go:102; `Strategies.OverflowingWindow`).
- Integers above 2^53 may compare equal without being equal (internal/base/expression.go:178; `Numeric.CompareInexact`);
  `Numeric.CompareExactIff` says exactly which integers compare exactly.

## Model

| member | source | states |
|---|---|---|
| `GoSlice.Append` | builder/rule_builder.go:193-204 | Go's append: with room the elements are written into the shared backing array, else they are copied to a new one and the old array keeps its contents; either way the result's elements are the concatenation |
| `RuleBuilder.BinarySearch` | internal/tool/tool.go:5-21 | on a descending slice the two results, read as mid unless it is 0 and low otherwise, split the slice at the salience; a hit is only lost at position 0, where low is 0 as well |
| `RuleBuilder.Splice` | builder/rule_builder.go:197-204 | two appends insert one rule at a position, in place when the backing array has room |
| `RuleBuilder.InsertSorted` | builder/rule_builder.go:217-226 | inserting where the search points keeps the descending order |
| `RuleBuilder.Reposition` | builder/rule_builder.go:192-212 | the branch whose appends go to a shadowing variable still leaves the outer slice with the rule moved, because both appends write the outer backing array in place and end at its length |
| `RuleBuilder.IndexOf` | builder/rule_builder.go:206-211 | the rebuilt index map is the exact inverse of the sorted slice |
| `RuleBuilder.SortRegistry` | builder/rule_builder.go:108-120 | sorting the registry's values gives a duplicate-free descending arrangement of it, with its index |
| `RuleBuilder.UpdateOne` | builder/rule_builder.go:185-236 | one step of the incremental loop, each of its three branches: the slice stays a descending arrangement of the overridden registry with the index as inverse, rules outside the update keep their order, no array but the working copy is written |
| `RuleBuilder.UpdateIncremental` | engine/gengine_pool.go:263-334 | for every iteration order of the parsed map: the registry is the old one overridden by the new, the index invariant holds, rules not named keep their relative order, and the published slice is a fresh array |
| `RuleBuilder.KnowledgeContext.ClearRules` | internal/base/knowledge_context.go:18-22 | leaves an empty, consistent index on a fresh array |
| `RuleBuilder.RuleBuilder.BuildRuleFromString` | builder/rule_builder.go:72-124 | a rejected text changes nothing; an accepted one replaces the context by a consistent one of exactly the parsed rules |
| `RuleBuilder.RuleBuilder.BuildRuleWithIncremental` | builder/rule_builder.go:130-243 | rejected or empty texts change nothing; otherwise the registry is overridden rule by rule and the index invariant is kept |
| `RuleBuilder.RuleBuilder.RemoveRules` | builder/rule_builder.go:245-291 | leaves exactly the rules whose name is not listed, rearranged and reindexed; an empty list is an error that changes nothing |
| `RuleBuilder.RuleBuilder.IsExist` | builder/rule_builder.go:293-306 | answers name by name whether a rule is registered |
| `RuleBuilder.Kept` | builder/rule_builder.go:250-265 | the two nested loops keep exactly the rules not listed |
| `RuleBuilder.UpdateBothWays` | builder/rule_builder.go:72-243 | two runs from the same old rules: the incremental update by a text and the full build of the overridden registry end with the same registry, and their lists hold the same rules with the same salience at every position |
| `RuleBuilder.IncrementalRefinesRebuild` | builder/rule_builder.go:130-243 | the reason: any two arrangements of the overridden registry agree up to the order of rules of equal salience |
| `RuleOrder.ArrangementsAgree` | builder/rule_builder.go:108-116 | any two descending arrangements of one registry are permutations with the same salience at every position |
| `RuleOrder.ReplaceArranges` | builder/rule_builder.go:189-191 | replacing a rule by one of the same salience in place keeps the arrangement |
| `RuleOrder.InsertArranges` | builder/rule_builder.go:215-226 | inserting a new rule at a splitting position gives an arrangement of the extended registry |
| `RuleOrder.RemoveArranges` | builder/rule_builder.go:193-193 | cutting a rule out gives an arrangement of the registry without it |
| `RuleOrder.ArrangementSize` | engine/gengine_pool.go:492-500 | an arrangement has as many entries as the registry, so the count of rules is the length of the execution order |
| `RuleOrder.StableSortIsStable` | engine/exec_opts.go:160-164 | the stable sort of selected rules keeps the caller's order among rules of equal salience |
| `Pool.NewGenginePool` | engine/gengine_pool.go:75-133 | a pool exists exactly for 0 < min < max, a model from 1 to 4 and accepted rules; all its workers then serve the one registry, under that model |
| `Pool.GenginePool.UpdatePooledRules` | engine/gengine_pool.go:209-230 | on success every worker serves the new registry, else nothing changes; no array that existed before is written |
| `Pool.GenginePool.UpdatePooledRulesIncremental` | engine/gengine_pool.go:343-364 | on success every worker serves the overridden registry; no array that existed before is written (executions under way beside it: `Snapshot`) |
| `Pool.GenginePool.ClearPoolRules` | engine/gengine_pool.go:366-375 | every worker's context is empty afterwards, and no published array is written |
| `Pool.GenginePool.RemoveRules` | engine/gengine_pool.go:377-390 | main builder and all workers lose exactly the named rules, and no published array is written |
| `Pool.GenginePool.IsExist` | engine/gengine_pool.go:435-458 | the answer about a name is right for every worker |
| `Pool.GenginePool.GetRuleSalience` | engine/gengine_pool.go:460-474 | the salience reported is the one every worker sorts by, and both error answers are right for every worker |
| `Pool.GenginePool.GetRulesNumber` | engine/gengine_pool.go:492-500 | the number is that of the rules in every worker's registry and in its execution order |
| `PoolProtocol.ExactlyOnePlace` | engine/gengine_pool.go:156-200 | in every interleaving each worker is in exactly one of free list, addition list, held, on its way back; each list holds its own kind without repetition |
| `PoolProtocol.NeverShared` | engine/gengine_pool.go:552-570 | two executions under way never have the same worker, hence never the same data context |
| `PoolProtocol.ElementZeroExists` | engine/gengine_pool.go:160-180 | element 0, taken under the list lock after a look at the length outside it, always exists |
| `PoolProtocol.DeadlockFree` | engine/gengine_pool.go:156-200 | as long as a request or a returner is under way some step is possible |
| `PoolProtocol.SpinsOnlyWhenEmpty` | engine/gengine_pool.go:158-182 | a getter comes to spin only by a step at which the addition list is empty, having come past the free list only when that was empty, goes for a list exactly if it read it non-empty, and takes its head |
| `PoolProtocol.GetterTakesHead` | engine/gengine_pool.go:156-184 | from any state with free locks and a worker in either list, a getter's own steps end with it holding the head of the free list, or of the addition list if the free one is empty |
| `PoolProtocol.RequestServed` | engine/gengine_pool.go:552-570 | from any reachable state with an idle caller, free locks and a worker in either list, the caller's own steps lead to the execution of its request on that worker, in a context of the remaining APIs and its usable data |
| `PoolProtocol.ReturnerAppends` | engine/gengine_pool.go:187-200 | a returner that finds its lock free puts its worker at the end of the worker's own list and is gone |
| `PoolProtocol.RunSeesOnlyItsOwn` | engine/gengine_pool.go:521-570 | a run sees the APIs not deleted by earlier requests on its worker plus its own usable data, and nothing of any other request |
| `PoolProtocol.ContextRestoredIff` | context/data_context.go:34-50 | after any run, an idle worker's context equals its initial one exactly when none of the requests it served passed a name of an API |
| `PoolProtocol.ContextRestored` | engine/gengine_pool.go:521-570 | over any history of requests whose names avoid the API names, idle workers have their initial context |
| `PoolProtocol.NilErasesApi` | engine/gengine_pool.go:521-570 | a concrete run in every pool with 0 < min < max: a request passing nil under an API's name binds nothing and still erases that API |
| `Snapshot.OneListThroughout` | engine/exec_opts.go:139-145 | whatever updates, removals and clears run beside it field by field, what an execution has resolved is the complete sorted list of one version in force when it entered or later, and every rule it fetches is that list's at that position |
| `Snapshot.InFlightIsolation` | engine/gengine_pool.go:263-334 | over any further steps of updaters and other executions, a running execution keeps its list, and the list its rules |
| `Snapshot.PublishedNeverWritten` | builder/rule_builder.go:170-240 | no step of an update, removal, clear or execution writes an array that was ever in a knowledge context |
| `Snapshot.QuiescentConsistent` | engine/gengine_pool.go:209-230 | whenever no update is under way, all three fields of every worker's context are consistent and hold the last version, which is empty after a clear |
| `Snapshot.EmptyAfterLengthIff` | engine/exec_opts.go:139-145 | of the two unlocked reads the second yields an empty list although the first saw a positive length exactly if a clear, or a removal of all rules there were, came into force in between and is the version the second read meets |
| `Snapshot.ClearBetweenReads` | engine/exec_opts.go:139-145 | a concrete run in which that happens, in a pool of any rules and any number of workers the constructor accepts |
| `Snapshot.EntersUnlessCleared` | engine/gengine_pool.go:552-556 | an execution gets under way exactly if the pool is not marked as cleared |
| `Snapshot.RefusedIffNoRules` | engine/exec_opts.go:141-143 | in a pool at rest an execution is refused for want of rules exactly if no rule is in force |
| `Lookups.RulesOfVersions` | engine/exec_opts.go:151-156 | executions with selected names and layered ones, whatever updates run beside them: every rule looked up is, under a name asked for, that of a version in force at entry or later, a name not found is missing in such a version, and with no newer version all come from the one |
| `Lookups.TwoVersionsInOne` | engine/exec_opts.go:151-156 | a concrete run in which the two names of one execution are resolved in two versions, in a pool of any rules and any number of workers the constructor accepts |
| `UpdateSteps.MergeRound` | engine/gengine_pool.go:277-330 | what one round of the incremental loop leaves is what the merging step allows |
| `UpdateSteps.RoundIsStep` | engine/gengine_pool.go:277-330 | while an update merges, the working copy meets what a round asks for, and whatever a round may leave is an enabled step that keeps the invariant |
| `UpdateSteps.SortRound` | builder/rule_builder.go:108-120 | what sorting a registry leaves is what the steps that build a context take |
| `UpdateSteps.Publishes` | engine/gengine_pool.go:209-390 | which version each step puts in force: the parsed rules, the last rules overridden by them, the last rules without the names, or none; no other step puts one in force |
| `UpdateSteps.UpdatesBegin` | engine/gengine_pool.go:209-390 | a pool at rest can be updated in full by any rules, cleared and, unless cleared, updated incrementally and thinned out |
| `UpdateSteps.UpdaterMoves` | engine/gengine_pool.go:209-390 | an update under way can always make its next step |
| `UpdateSteps.ExecutionMoves` | engine/exec_opts.go:139-166 | so can an execution |
| `Snapshot.StepInv` | engine/gengine_pool.go:343-390 | every single field write of an update, removal or clear and every read of an execution keeps the invariant behind these results |
| `Numeric.TreeCongruent` | internal/core/math.go:10-157 | any tree of +, -, * over integer values, wrapped at every node, is congruent to the exact result modulo 2^64, signed exactly if a leaf is |
| `Numeric.TreeExactIff` | internal/core/math.go:10-157 | and equals the exact result exactly when that fits, whatever overflowed in between |
| `Numeric.DivLaw` | internal/core/math.go:159-208 | division is an error exactly for a zero divisor of the original kind, and otherwise the truncated quotient of the converted operands, except that the least int64 over -1 is itself |
| `Numeric.TruncDivLaw` | internal/core/math.go:159-208 | the truncated quotient and its remainder satisfy the division law, the remainder taking the dividend's sign |
| `Numeric.F64IsNearest` | internal/base/expression.go:172-199 | the conversion to float64 yields a representable number nearest to the integer (section 4.3.1 of IEEE 754-2008) |
| `Numeric.F64Monotone` | internal/base/expression.go:172-199 | the conversion is monotone on all integers |
| `Numeric.CompareExact` | internal/base/expression.go:201-220 | comparing through float64 is exact when both magnitudes are at most 2^53, or either is below it |
| `Numeric.CompareSound` | internal/base/expression.go:201-220 | a strict result never contradicts the exact order, and equal integers compare equal |
| `Numeric.CompareInexact` | internal/base/expression.go:201-220 | a concrete pair, 2^53 and 2^53 + 1, that compares equal |
| `Numeric.CompareExactIff` | internal/base/expression.go:172-224 | the exact condition: a 64-bit integer shares its float64 value with no other one if and only if its magnitude is below 2^53, or between 2^53 and 2^54 and twice an odd number |
| `IntegerMath.CompareExactlyIff` | internal/base/expression.go:172-224 | all six comparisons of an integer with every integer of the 64-bit kinds are exact if and only if it meets that condition |
| `IntegerMath.MathExactIff` | internal/base/math_expression.go:40-93 | evaluating the record of an integral expression: what it yields reads as an integer that is signed if an atom is, congruent modulo 2^64, and exact if and only if the exact result fits |
| `IntegerMath.CompareIsExact` | internal/base/expression.go:172-224 | all six comparison operators are exact on integers of which one is below 2^53 in magnitude |
| `IntegerMath.CompareTrichotomy` | internal/base/expression.go:172-224 | on all integers exactly one of <, == and > holds, and < and > agree with the exact order |
| `Operators.DivisionYields` | internal/core/math.go:159-208 | evaluating l / r on integers fails exactly for a zero divisor, and otherwise yields the truncated quotient of the left by the right after conversion to the common sign, the least int64 over -1 being itself |
| `Operators.ArithmeticYields` | internal/base/math_expression.go:52-93 | what every operator yields on integers, strings and values left to the host, operands evaluated left first, and that all other pairs are errors |
| `Operators.CompoundLeaves` | internal/base/assignment.go:61-112 | a compound assignment leaves the old content combined with the source's, the old content on the left, or fails as the operation does and leaves the variable as it was |
| `Operators.PlainLeaves` | internal/base/assignment.go:57-118 | a plain assignment leaves what the source yielded, and succeeds exactly if the source did |
| `Operators.LessIsBefore` | internal/base/expression.go:144-167 | strings are ordered by their first difference, a prefix first |
| `Operators.ComparisonYields` | internal/base/expression.go:127-240 | what every comparison yields: strings by that order, integers by their float64 values, booleans for equality only, host values by the host, anything else an error |
| `Operators.LogicYields` | internal/base/expression.go:98-124 | and and or of two booleans, both evaluated, left first; anything else is an error |
| `Operators.OperandFails` | internal/base/expression.go:98-108 | a failing operand fails the operation, and after a failing left operand the right is not evaluated |
| `Operators.NegationYields` | internal/base/expression.go:243-256 | negation turns true into false and false into true and panics on anything else |
| `Operators.AtomNegationYields` | internal/base/expression.go:243-256 | the same for an atom, which is an error if it has no value |
| `Runtime.SetThenGet` | context/data_context.go:380-392 | setting a local variable makes it readable with that value and changes nothing looked up through another name |
| `Runtime.InjectedHides` | context/data_context.go:303-310 | an injected name hides a variable of the same name for reading and writing |
| `Runtime.CallNeedsCallee` | context/data_context.go:123-151 | a call looks among injected names, then variables; without a callee the host is not called, with one it is called once and a panic comes back as an error |
| `Calls.FunctionCalls` | context/data_context.go:123-151 | a function call hands the function found exactly the contents of its arguments, in their order, once, and yields its answer; a panic is an error |
| `Calls.MethodCalls` | context/data_context.go:157-239 | a method call hands them to the method of the object before the first dot |
| `Calls.BareCalls` | internal/base/function_call.go:40-43 | a call without arguments hands over none |
| `Calls.FailsUncalled` | internal/base/function_call.go:44-54 | without a callee, or with a failing argument, the host is not called and the call is an error |
| `Calls.ArgumentsInTurn` | internal/base/args.go:66-79 | arguments are evaluated from first to last, each in the world the one before left |
| `Calls.TwoLiterals` | internal/base/function_call.go:23-56 | f(x, y) on two literals calls f with the first and the second |
| `Access.NameReads` | context/data_context.go:302-320 | a plain name reads the injected value, else the variable, else is an error |
| `Access.FieldReads` | context/data_context.go:245-300 | a dotted name reads a field of the object before its first dot |
| `Access.NamesWrite` | context/data_context.go:323-394 | writing a dotted or an injected name sets the field or what was injected, to what the value reads as |
| `Access.MapReads` | internal/base/map_var.go:95-136 | indexing a map yields the entry or the element type's zero, and panics for a key that does not convert |
| `Access.SliceReads` | internal/base/map_var.go:138-157 | indexing a slice yields a reference to the element for exactly the good indexes, and which bad ones are errors and which panics |
| `Access.NothingElseReads` | internal/base/map_var.go:159-159 | nothing else can be indexed |
| `Access.MapWritesIff` | context/data_context.go:484-526 | a write into a map succeeds exactly if key and value convert and the map can be written |
| `Access.SliceWritesIff` | context/data_context.go:527-556 | a write into a slice succeeds exactly for a good index and a value that converts, and what it leaves |
| `Runtime.WriteThenReadMap` | context/data_context.go:407-447 | a successful write into a map is read back under its key, a missing value deletes the key, no other key or object changes |
| `Runtime.WriteThenReadSlice` | context/data_context.go:450-478 | a successful write into a slice is read back at its position, and changes what exactly those values read that refer to the written cell |
| `Aliasing.ReferenceSourceIff` | internal/base/map_var.go:71-89 | a source hands on a reference to a slice element exactly if it is, brackets apart, the bare reading of that element or of a variable that refers to it; operators, negation and calls yield values of their own |
| `Aliasing.RefersIff` | context/data_context.go:380-392 | after any sequence of assignments, a variable refers to an element exactly if its last successful assignment was a plain one whose source yielded the reference |
| `Aliasing.WriteSeenIff` | context/data_context.go:380-392 | a write to an element changes what a variable reads exactly if it changes the element and the variable's last successful assignment was a plain one with that element as its source |
| `Aliasing.SwapSucceedsIff` | internal/base/map_var.go:138-153 | `t = s[i]  s[i] = s[j]  s[j] = t` leaves the old s[j] in both positions, so it swaps exactly if the elements were equal |
| `Aliasing.SwapThroughOperator` | internal/base/math_expression.go:61-67 | reading the first element through an operator, as in `t = s[i] + 0`, makes the swap of integers work |
| `Aliasing.SwapOverwrites` | internal/base/map_var.go:138-153 | the concrete input s = [1, 2], which ends as [2, 2] |
| `Runtime.FailedWrite` | context/data_context.go:397-560 | a write that fails changes nothing |
| `Runtime.PositionIff` | internal/base/map_var.go:72-89 | an index is good exactly if it is a signed integer from 0 up to the length; strings never are |
| `Runtime.StringTrichotomy` | internal/base/expression.go:141-169 | of two strings exactly one is less, or they are equal |
| `Runtime.LessTransitive` | internal/base/expression.go:141-224 | on strings as on integers less-than is transitive |
| `Runtime.ComparisonsAgree` | internal/base/expression.go:141-224 | on strings as on integers the six comparison operators are those of one total order |
| `Text.TrimIs` | internal/iparser/gengine_parser_listener.go:85-87 | trimming takes off exactly the outer quotes |
| `Text.ParseIntRoundTrip` | internal/iparser/gengine_parser_listener.go:689-703 | every 64-bit integer in decimal is read back, one outside the range is an error |
| `TreeWalk.IntegerRange` | internal/iparser/gengine_parser_listener.go:689-703 | an integer literal is accepted exactly if its value is a 64-bit integer, and stands for that value |
| `Text.StripQuotesIdentityIff` | internal/iparser/gengine_parser_listener.go:708-716 | removing quotes changes a text exactly if it contains one |
| `Text.SalienceText` | internal/iparser/gengine_parser_listener.go:99-113 | in whatever case the keyword is spelled, lowering and cutting it leaves the integer's own text |
| `Listener.ErrorsStick` | internal/iparser/gengine_parser_listener.go:53-803 | after the first error every later callback is a no-op |
| `TreeWalk.WalkConstant` | internal/iparser/gengine_parser_listener.go:442-510 | walking a constant hands its value to the holder below or reports an unreadable literal, and no type assertion fails |
| `TreeWalk.WalkMapVar` | internal/iparser/gengine_parser_listener.go:766-785 | an indexing keeps the kind of its key: integer, non-empty string or variable |
| `TreeWalk.WalkCall` | internal/iparser/gengine_parser_listener.go:267-371 | walking a call with its arguments hands the built record to the holder below |
| `TreeWalk.WalkAtom` | internal/iparser/gengine_parser_listener.go:241-265 | walking an atom fills exactly the one slot of its record and hands it on |
| `TreeWalk.WalkMath` | internal/iparser/gengine_parser_listener.go:188-213 | left operand, operator and right operand end up in their own fields; brackets nest |
| `TreeWalk.WalkExpression` | internal/iparser/gengine_parser_listener.go:223-239 | the same for expressions with comparison, logical and not operators |
| `TreeWalk.WalkAssignment` | internal/iparser/gengine_parser_listener.go:162-186 | target, operator and source of an assignment end up in the record handed on |
| `TreeWalk.WalkTasks` | internal/iparser/gengine_parser_listener.go:145-160 | tasks of a conc block are sorted by kind, keeping their order within each kind |
| `TreeWalk.WalkStatement` | internal/iparser/gengine_parser_listener.go:605-620 | walking any statement appends exactly its record to the statement list |
| `TreeWalk.WalkStatements` | internal/iparser/gengine_parser_listener.go:622-642 | a block with its return statement is handed to the holder below |
| `TreeWalk.WalkRule` | internal/iparser/gengine_parser_listener.go:53-77 | a rule is registered under its name exactly when it is accepted and the name is new, else an error is reported; header fields are those of this rule |
| `TreeWalk.ParseProgram` | internal/iparser/gengine_parser_listener.go:53-803 | for every program tree: no type assertion ever fails, there is no error exactly when all rules are accepted and names are distinct, and then the stack is empty and the registry holds exactly the built rules |
| `TreeWalk.ParsedKeyed` | internal/iparser/gengine_parser_listener.go:67-77 | the parsed registry is keyed by rule name, as the rule index requires |
| `TreeWalk.AtNameIsRuleName` | internal/iparser/gengine_parser_listener.go:708-716 | @name is the rule's own name if and only if the name contains no quote |
| `TreeWalk.QuotedNameDiffers` | internal/iparser/gengine_parser_listener.go:708-716 | the rule named `a""b`, inside which @name is ab |
| `TreeWalk.AtSalIsSalience` | internal/iparser/gengine_parser_listener.go:755-764 | @sal is the salience the rule is sorted by |
| `Records.HeaderReads` | internal/iparser/gengine_parser_listener.go:79-134 | a rule's name, description and salience are those its header's texts stand for, and @desc is the description without quotes |
| `Records.AtIdReads` | internal/iparser/gengine_parser_listener.go:733-753 | a rule named by a 64-bit integer, within any spaces, has it as its @id |
| `Records.AtIdZero` | internal/iparser/gengine_parser_listener.go:733-753 | a rule whose name holds anything but digits, signs and spaces has the @id 0 |
| `Records.LiteralsAccepted` | internal/iparser/gengine_parser_listener.go:442-510 | which literals and map keys are accepted, by their texts |
| `Records.ProgramsAccepted` | internal/iparser/gengine_parser_listener.go:53-77 | the walk of a program reports no error exactly if every rule is acceptable and the names differ; a rule without a name is not |
| `Records.BlockHolds` | internal/iparser/gengine_parser_listener.go:145-160 | a conc block's record holds the records of exactly its tasks, by kind and in order |
| `TreeWalk.BooleanSpelling` | internal/iparser/gengine_parser_listener.go:484-495 | of the boolean literals the lexer accepts in any mix of cases, only six spellings convert, and those to the right value |
| `ParserListener.NodeStack.Push` | internal/iparser/stack.go:13-15 | appends on top |
| `ParserListener.NodeStack.Pop` | internal/iparser/stack.go:17-26 | undoes the last push, and yields nil on an empty stack |
| `ParserListener.GengineParserListener.ExitProduction` | internal/iparser/gengine_parser_listener.go:136-371 | popping a finished record and offering it to the holder below does what the listener model's step does |
| `ParserListener.GengineParserListener.ExitRuleEntity` | internal/iparser/gengine_parser_listener.go:67-77 | registers the rule or reports its duplicate name |
| `ParserListener.GengineParserListener.ExitStringLiteral` | internal/iparser/gengine_parser_listener.go:464-480 | sets name, description, constant or map key, and rejects an empty map key |
| `ParserListener.GengineParserListener.ExitAt` | internal/iparser/gengine_parser_listener.go:708-764 | @name, @id, @desc and @sal become constants of the current rule's header |
| `ParserListener.GengineParserListener.Walk` | internal/iparser/gengine_parser_listener.go:53-803 | walking a whole program: never a panic, no parse error exactly when the program is accepted, and then an empty stack and exactly the built rules |
| `Preservation.AtomAgrees` | internal/base/expression_atom.go:67-83 | an atom's record evaluates to the atom's meaning |
| `Preservation.CallAgrees` | internal/base/function_call.go:23-56 | a call's record evaluates its arguments in order, recovers faults in them, and calls |
| `Preservation.ElementAgrees` | internal/base/map_var.go:20-160 | m[k] with an integer, string or variable key reads what the tree means, for maps and slices, directly or through a pointer |
| `Preservation.MathAgrees` | internal/base/math_expression.go:40-93 | an arithmetic record evaluates to the meaning of its tree |
| `Preservation.ExpressionAgrees` | internal/base/expression.go:65-270 | an expression record, with its priorities among arithmetic, atom and operands, evaluates to the meaning of its tree: both operands are always evaluated, and a missing value is an error |
| `Preservation.AssignmentAgrees` | internal/base/assignment.go:23-130 | an assignment's record, plain or compound, has the effect of its tree and succeeds exactly when the tree does |
| `Preservation.StoreAgrees` | context/data_context.go:323-560 | storing to a variable or an element reaches the target the tree names |
| `Preservation.IfAgrees` | internal/base/if_stmt.go:16-51 | the else-if chain takes the first branch whose condition holds |
| `Conditions.IfTakes` | internal/base/if_stmt.go:16-30 | an if whose condition reads as true ends as its body; an error in the condition, or a value that is no boolean, is its fault |
| `Conditions.ElseIfTakes` | internal/base/if_stmt.go:32-43 | one whose condition reads as false ends as the first else-if whose condition reads as true |
| `Conditions.ElseTakes` | internal/base/if_stmt.go:45-49 | if all conditions read as false it ends as the else branch, if there is one |
| `Conditions.IfExecutes` | internal/base/if_stmt.go:16-51 | the same of the engine's evaluation of the record |
| `Conditions.OperationEnds` | internal/base/statement.go:23-71 | calls, assignments and conc blocks as statements end normally exactly if they succeed, and else as their error; their values are dropped |
| `Conditions.LiteralIf` | internal/base/if_stmt.go:23-50 | the rule if true, return 1, else return 2 returns 1, and with false 2 |
| `Conditions.OwnVariables` | internal/base/rule_entity.go:36-37 | a rule neither sees nor keeps the variables of another run |
| `Conditions.ReturnHandsOut` | internal/base/rule_entity.go:36-42 | a rule that only returns hands out what its expression reads as, with the flag set, or its error |
| `Preservation.ForAgrees` | internal/base/for_stmt.go:35-93 | the for loop's results and sentinels encode the structured meaning of the loop |
| `Preservation.ForRangeAgrees` | internal/base/for_range_stmt.go:20-69 | the same for forRange |
| `Preservation.StatementAgrees` | internal/base/statement.go:23-71 | the same for every statement; for a conc block, whose meaning is given by its tasks' steps, the content is in `Preservation.ConcMeansSequence` |
| `Preservation.StatementsAgree` | internal/base/statements.go:13-29 | a block's three results encode normal end, return, break, continue or error of its tree |
| `Preservation.RuleAgrees` | internal/base/rule_entity.go:36-42 | executing the record built for an accepted rule ends as the rule's tree means, in every environment and from every world |
| `Preservation.ProgramAgrees` | internal/iparser/gengine_parser_listener.go:53-803 | end to end: in an accepted program the rule registered under a tree's name executes as the tree means |
| `Preservation.ConcMeansSequence` | internal/base/conc_statement.go:57-124 | a conc block of independent assignments means their sequence, for every schedule, and succeeds exactly when each would |
| `Interpreter.Run.Assign` | internal/base/assignment.go:23-130 | leaves the state and error of the assignment specification, panics recovered |
| `Interpreter.Run.Statements` | internal/base/statements.go:13-29 | the loop stops at the first error or return and leaves exactly the specified state and results |
| `Interpreter.Run.If` | internal/base/if_stmt.go:16-51 | the early-return loop over the else-if list computes the specified chain |
| `Interpreter.Run.For` | internal/base/for_stmt.go:35-93 | the counted loop with break, continue and return leaves exactly the specified state and results |
| `Interpreter.Run.ForRange` | internal/base/for_range_stmt.go:20-69 | so does the loop over an iterator, which fixes its keys on creation |
| `Interpreter.Run.NewIterator` | internal/iter/iter.go:66-74 | an iterator yields exactly the keys present at its creation; pointers and other values are refused |
| `Interpreter.Iteration.Key` | internal/iter/iter.go:19-50 | yields the key at the old position and advances; past the end a map yields nil and stays |
| `Interpreter.Run.Concurrently` | internal/base/conc_statement.go:57-124 | fork, interleave and join leave exactly the specified state, and an error exactly if a task failed |
| `Interpreter.ListStops` | internal/base/statements.go:13-29 | a statement list ends where a prefix of it ended with an error or a return |
| `Conc.SoloAssignment` | internal/base/conc_statement.go:74-83 | the steps of an assignment run without interruption do what evaluating the assignment does |
| `Conc.SoloCall` | internal/base/conc_statement.go:85-116 | the same for a call |
| `Conc.ExpressionRuns` | internal/base/expression.go:65-270 | the steps of an expression compute its value, in evaluation order |
| `Records.BlockForks` | internal/base/conc_statement.go:74-116 | a conc block forks one task for each of its tasks, running that task's own code |
| `Interleaving.ConcOfAssignment` | internal/base/conc_statement.go:74-82 | a block of one assignment does what the assignment does |
| `Interleaving.ConcOfCall` | internal/base/conc_statement.go:85-116 | a block of one call, of any kind, does what the call does |
| `Interleaving.AnyTaskCanMove` | internal/base/conc_statement.go:57-118 | any task with something left can be the next to move |
| `Interleaving.OneErrorPerFailure` | internal/base/conc_statement.go:42-55 | whatever the tasks and the schedule, all tasks finish, the error list has exactly one entry per failed task, and the block fails exactly if a task did |
| `Interleaving.ConcIsSequential` | internal/base/conc_statement.go:57-124 | independent assignments end, for every schedule of locked reads and writes, in the variables of the source order, and exactly those fail that fail from the block's start |
| `Interleaving.InvStep` | context/data_context.go:302-319 | every single step of every task keeps the invariant behind that result |
| `Loops.LoopNeverLeaks` | internal/base/for_stmt.go:58-90 | a loop never ends by break or continue |
| `Loops.RuleNeverLeaks` | internal/base/statements.go:13-29 | a rule whose breaks and continues lie inside loops never finishes with either sentinel as its error |
| `Loops.BareBreakLeaks` | internal/base/break_stmt.go:15-18 | a break outside any loop does surface as the rule's error |
| `Loops.ForSucceedsIff` | internal/base/for_stmt.go:45-92 | without a break a for loop succeeds if and only if its condition turns false after at most 9999 uneventful runs; 10000 of them are an error |
| `Loops.ForEndsAt` | internal/base/for_stmt.go:47-92 | how a for loop ends after n uneventful runs: by a condition that reads as false, a break, a return, or a fault of condition, body or update, and in which world |
| `Loops.ForNeedsInit` | internal/base/for_stmt.go:36-43 | a for loop whose first assignment fails does nothing else |
| `Loops.BlockEndsAt` | internal/base/statements.go:13-29 | a block runs its statements in order up to the first that does not end normally, whose outcome is the block's; then comes the return |
| `Loops.RangeSucceedsIff` | internal/base/for_range_stmt.go:34-67 | without a break a forRange over given keys succeeds if and only if they are at most 10000 and every visit is uneventful |
| `Loops.RangeEndsAt` | internal/base/for_range_stmt.go:35-68 | how a forRange ends after n uneventful visits, and in which world |
| `Loops.RangeKeysIff` | internal/iter/iter.go:66-74 | what can be ranged over, slices by their indexes from 0 up and maps by their keys, and what is an error or a panic |
| `Loops.ForRangeVisitsOnce` | internal/iter/iter.go:14-74 | a forRange visits every key its collection had on entry exactly once, whatever its body does to the collection or the key variable |
| `Bounds.RuleBound` | internal/base/for_stmt.go:45-92 | a rule makes at most as many host calls as a bound computed from its tree, which multiplies by 10000 per loop level |
| `Bounds.EvalConcCalls` | internal/base/conc_statement.go:57-124 | in every interleaving a conc block makes at most one host call per calling step of its tasks |
| `Traces.PlanOrder` | engine/exec_opts.go:78-345 | a trace that follows its plan: phases do not overlap, all of a phase finishes before the next starts, serial phases keep the resolved order, no position runs twice |
| `Concurrency.RunObeys` | engine/concurrency.go:20-67 | every interleaving and cancellation: each rule starts at most once and finishes if started, results are those of the trace, exactly one error per failed or panicked rule, and all rules run unless cancelled |
| `Concurrency.RunExactlyOnce` | engine/concurrency.go:20-67 | without cancellation every rule runs exactly once whatever its siblings do, and the joined error names it once if it failed and not otherwise |
| `Concurrency.ResultsIndependentOfSchedule` | engine/gengine.go:28-45 | for distinct names the result map is the same for every schedule |
| `Concurrency.StepAdds` | engine/concurrency.go:34-66 | a rule is launched and starts only while the context is not cancelled, and one that has started comes to its end |
| `Concurrency.AnyActorCanMove` | engine/concurrency.go:34-62 | any goroutine, or the launcher, can be the next to move |
| `Strategies.ResolvedOrder` | engine/exec_opts.go:139-166 | the resolved rules are the existing selected ones, in the caller's order or stably sorted by descending salience, or the published list |
| `Strategies.ExecuteObeys` | engine/exec_opts.go:78-345 | all eight modes: the trace follows the mode's plan, the results are those of the trace, the returned errors are exactly the failures, and without an error or a stop nothing of the plan is left out |
| `Modes.SortMode` | engine/exec_opts.go:168-194 | the sort mode's exact events and errors from its options: as far as the first panic, stop, cancellation or, unless it is to continue, error |
| `Modes.SortFailsFast` | engine/exec_opts.go:183-184 | without continueOnError no event follows the first failing rule |
| `Modes.SortContinues` | engine/exec_opts.go:180-181 | with it every position finishes unless there is a panic, a cancellation or a stop |
| `Modes.SortStops` | engine/exec_opts.go:186-188 | with a stop tag, the rule after which it is first set is the last |
| `Modes.ConcurrentMode` | engine/exec_opts.go:125-126 | the concurrent mode is one group of all resolved rules |
| `Modes.MixMode` | engine/exec_opts.go:196-214 | a cancellation, or a panic, an error or a stop at the first rule, ends the mixed mode; otherwise the others run as a group |
| `Modes.InverseMixOfFew` | engine/exec_opts.go:220-223 | up to two rules run serially, collecting errors |
| `Modes.InverseMixOfMany` | engine/exec_opts.go:224-245 | all but the last run as a group and then the last, whatever failed before, unless the context is cancelled |
| `Modes.NSortMMode` | engine/exec_opts.go:272-299 | the serial phase's exact events from the options, and exactly when the second phase runs |
| `Modes.NConcurrentMMode` | engine/exec_opts.go:304-345 | exactly when the second phase runs, and its exact events if it is serial |
| `Modes.FirstPhaseDecides` | engine/exec_opts.go:305-308 | without continueOnError a failure in the first phase keeps the second from running |
| `Modes.RefusedIff` | engine/exec_opts.go:78-165 | a call is refused exactly if no rule is found, a bound of the window is bad, the mode is unknown, or a mixed mode is left with nothing |
| `Strategies.CleanRun` | engine/exec_opts.go:78-345 | without an error and a stop every position of the mode's window finishes exactly once, and without failing |
| `Strategies.WindowOf` | engine/exec_opts.go:95-111 | the window is all resolved rules, or the first N+M |
| `Strategies.SortGood` | engine/exec_opts.go:168-194 | the sort mode keeps its one serial phase |
| `Strategies.MixGood` | engine/exec_opts.go:196-214 | the mixed mode runs the first rule alone, fail-fast, then the others |
| `Strategies.InverseMixGood` | engine/exec_opts.go:216-246 | the inverse mixed mode runs all but the last together, then the last, and degenerates to serial for up to two rules |
| `Strategies.DagFrom` | engine/exec_opts.go:248-267 | each layer is a phase of the names that exist |
| `Strategies.DagFailsFast` | engine/exec_opts.go:248-267 | a layer with a failing rule is the last layer with an event |
| `Strategies.NSortMGood` | engine/exec_opts.go:272-299 | N rules serially, then M concurrently |
| `Strategies.NConcurrentMGood` | engine/exec_opts.go:304-345 | N rules concurrently, then M serially or concurrently |
| `Strategies.SerialFailsFast` | engine/exec_opts.go:168-194 | failing fast, nothing runs after the first failing rule |
| `Strategies.SerialContinues` | engine/exec_opts.go:168-194 | collecting errors, only a cancellation, a stop or a panic keeps a serial phase from running every rule |
| `Strategies.SerialExtent` | engine/exec_opts.go:168-194 | how far a serial phase gets: the context is asked before every rule, the stop tag after it, and it ends exactly at the first cancellation, stop, panic or, failing fast, error |
| `Strategies.CancelledFromStart` | engine/exec_opts.go:168-345 | called under a cancelled context no mode runs a rule, and whatever is not refused and has something to run reports the cancellation |
| `Strategies.ExistingCounts` | engine/exec_opts.go:151-156 | a rule is listed as often as its name is selected, names without a rule are dropped |
| `Concurrency.CancelledGroup` | engine/concurrency.go:34-66 | a group begun under a cancelled context runs nothing and reports the cancellation |
| `Strategies.EmptiedRunsNothing` | engine/exec_opts.go:117-133 | an execution handed an empty list after it saw a positive length runs nothing, and reports success exactly in the sort and the concurrent mode |
| `Strategies.OverflowingWindow` | engine/exec_opts.go:102-107 | the size check lets a window through that does not exist exactly when N+M overflows 64 bits, and then the call panics before any rule has run |
| `Engine.Gengine.RunRulesConcurrently` | engine/concurrency.go:20-67 | leaves exactly the log and errors of the group specification |
| `Engine.Gengine.RunSerially` | engine/exec_opts.go:168-194 | the serial loop with its exits leaves exactly the specified log, errors and way of ending |
| `Engine.Gengine.ExecMix` | engine/exec_opts.go:196-214 | the first rule alone and then the others: events in that plan, results those of the events, errors exactly the failures, nothing left out without an error or a stop |
| `Engine.Gengine.ExecInverseMix` | engine/exec_opts.go:216-246 | all others and then the last, or up to two rules serially: events in that plan, results those of the events, errors exactly the failures, nothing left out without an error |
| `Engine.Gengine.ExecDAG` | engine/exec_opts.go:248-267 | the two nested loops end as specified for the layered mode |
| `Engine.Gengine.ExecNSortM` | engine/exec_opts.go:272-299 | N serially and then M concurrently: events in that plan, results those of the events, errors exactly the failures, nothing left out without an error |
| `Engine.Gengine.ExecNConcurrentM` | engine/exec_opts.go:304-345 | N concurrently and then M in the chosen way: events in that plan, results those of the events, errors exactly the failures, nothing left out without an error |
| `Engine.Gengine.ResolveRules` | engine/exec_opts.go:139-166 | the loop over the selected names resolves as specified, with both error cases; the length and the list are two reads that may find different lists |
| `Engine.Gengine.ExecuteOpts` | engine/exec_opts.go:78-133 | for every mode: a refusal leaves no event and an empty result map; otherwise the events follow the mode's plan, the results are those of the events, the errors exactly the failures, nothing is left out without an error or a stop; refused exactly for the listed reasons, and in the sort mode exactly as its options say |
| `Engine.Gengine.AddResult` | engine/gengine.go:28-32 | sets one entry of the result map and nothing else |
| `Engine.Gengine.GetRulesResultMap` | engine/gengine.go:37-45 | the copy equals the result map |

## Left out

- The generated lexer and parser, and parse trees of erroneous texts: the model starts from well-formed trees. A text with syntax errors is the `Rejected` case of the builder.
- The order in which productions that raise no event are entered and left, and the positions and texts of errors and source code kept in records.
- Records under construction are kept as values in their stack slots; the source keeps pointers there, and no two slots ever share a record.
- `ParserListener.GengineParserListener.ExitProduction`: stands for the Exit callbacks that differ only in the record's kind, and `EnterProduction` for the Enter callbacks; the source spells each out.
- Struct fields and methods reached by dotted names, conversions to element and key types, and writes to injected names: any function of the owner, the heap and the host. A field read may yield a reference, as an element read does. Arrays and structs held by value inside other values are not copied element by element.
- Injected functions: any function of their arguments, the heap and the host, executed as one step; that a host function may itself change the rule's variables or the injected names is not modelled.
- Floating-point arithmetic and comparisons with a floating-point or interface operand: any function of the operands. Integers converted for comparison are modelled exactly.
- `Interleaving.ConcIsSequential`: covers assignments to local variables whose calls, if any, have no side effects; with side effects the result depends on the schedule.
- Data races on maps and slices without a lock, which the Go runtime may abort on: an element access is one step, and an operator looks into its operands at once. In `Snapshot` a read or write of a whole slice header is one step, though Go does not promise that.
- `Concurrency.ResultsIndependentOfSchedule`: assumes that each rule behaves the same whenever it is executed; rules that influence each other through the host can make results depend on the schedule.
- `Strategies.ExecuteObeys`: takes what the reads of the context found as parameters, among them one registry, while `Snapshot` and `Lookups` say what the reads of an execution can meet. What a rule does is a parameter too, and the subject of `Execution`.
- `Snapshot.StepInv`: one rule's merging into the working copy is one step, with any result that the contract of `RuleBuilder.UpdateOne` allows (`UpdateSteps`); nobody else can reach the working copy. The refusals of an execution whose selected names match nothing are in `Strategies`, not here.
- A nil builder, a nil context, and errors returned beside a panic, which nobody sees.
- Pool removal and incremental update after a clear: the source's main builder is nil then, and the model requires it is not.
- Progress of the getter's spinning loop, which needs fairness; `PoolProtocol.DeadlockFree` says only that some step is possible.
- The single-line Execute variants, `prepare` with its request and response names, rule-length limits, plugin loading, rule descriptions in queries, logging and stack traces.
