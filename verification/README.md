# PointerScript: verified model

PointerScript compiles a small dynamic language to machine code in one pass over the syntax tree. This project
models the parts of it that carry the language's meaning, and proves that what the parser and the code generator
produce means what the script says. The code generation library libjit is replaced by a small instruction list with
labels, branches, a jump table, stores and calls (`Machine`), for which running a program is defined step by step;
everything else follows the C sources branch by branch.

The modules, by component:

* **Control flow.** `Machine` (instructions and runs), `Expressions` (`&&`, `||`, `^^`, `!`, `?:`, assignment and
  calls), `Statements`, `Growth`, `Dispatch`, `Lowering` (statements, `loop`, the three forms of `switch`), `Source`
  (what the parser makes of `while`, `do` and `for`), `Programs` (the compiler theorem), `Emitter` (the handlers as
  they are written: methods that append to a function and overwrite the fields of a scope), `Compiler` (the handlers
  run on whole scripts), `Hazards` (where the generated code is wrong, and exactly when), `Operators` (laws of the
  values that operators yield), `Counting` and `Selecting` (a loop, and any switch, from the source to the state its code
  stops in).
* **Type prediction.** `Flow` (the analysis, and an execution that stops when a recorded type is wrong), `FlowSound`
  (soundness), `FlowKnows` (completeness: the types that are found), `FlowLaws` (laws of conditions, returns and
  values), `FlowExact` (exactly when the facts the analysis goes on with are true), `FlowPasses` (the passes over a
  loop), `FlowScripts` and `FlowChain` (whole scripts whose recorded types are wrong, and in which executions),
  `FlowLists` (the linked prediction lists behind it).
* **Structs.** `NameIndex` (the open-addressing table of names, and `foreach`), `StructLayout` (offsets),
  `StructObject` (byte codecs, instances as maps from members to values), `NamedObject` (all three together: an object
  as a plain map from names to values), `Numbers`.
* **Others.** `Imports` (script imports), `ExprParser` (precedence climbing), `Catch` (try statements), `CallAbi`
  (typed calls), `Slices` (slices and addresses of elements), `Symbols` (scopes and wildcard imports),
  `FormatString` (interpolated strings), `SwitchParser` (the parser of `switch`).

How the parts fit together:

* A source program is desugared by `Source.Desugar`, generated by `Statements.GenStmt`, and run by `Machine.Run`.
  `Programs.CompileCorrect` says that the generated code stops in a state if and only if the program ends in that
  state; `Emitter` shows that the imperative handlers build exactly that code, and `Compiler.CompileScript` puts the
  two together. Execution of the source is by fuel (the
  number of loop turns), so "ends" means "ends for some fuel", and a program that never ends is one that is unfinished
  for every fuel.
* The generator numbers labels and temporaries when they are created (libjit does it when a label is first used) and a
  label keeps its first placement, which is what overlapping case ranges need (tests/runtime/switch.ptrs).
* An error (`+` or `-` on operands that are not both ints) stops a program: meaning and machine then stay in the state they
  have reached, which is marked as failed. So "ends in a state" covers ending by an error.
* The generated code does four things in its own way. A strict operator whose left operand is a variable (also one handed
  through assignments) reads it only after its right operand (`Expressions.LeftWord`); a loop's condition of unknown
  static type counts as true if its value is not undefined or not zero (`Statements.Passes`); a switch without a default
  that is compiled to a compare chain falls into its first body (`Statements.FallsInto`); and a `continue` in a `do` leaves
  the condition out (the parameter `tested` of `Source.Mean`). `World.code` chooses between the language's reading of the
  first three and the code's.
* The compiler theorem is stated for both readings. Every script that the generator handles computes what the code's
  reading says, in every run; and it computes what it is meant to in every run in which none of the four makes a
  difference (`Source.Harmless`: a late operator has the same result, a condition's type and payload agree, a test left
  out is true and has no effect, a body fallen into does nothing). For one operator, condition, turn or switch that is the
  exact condition (`Expressions.StrictExact`, `Source.PassesExact`, `Source.DoTurnExact`, and `Hazards` on the code
  itself). Scripts that avoid the four constructs are harmless in every run (`Programs.OrderlyHarmlessRun`).
* What remains of hypotheses is `Programs.SourceOk`: the generator reports no error (`break` and `continue` in loops, no
  `+` or `-` on operands known to be undefined, no unknown value for a variable known to be an int), a switch on a
  constant finds a body, and a jump table's interval does not wrap (`Hazards.TableWraps` says when it does).
* In the analysis, `Exec` runs the annotated tree and yields `Bad` when an identifier's value has another type than
  the one recorded for it. `Oracle` supplies what the model leaves open: which conditions the analysis has predicted,
  and which operations were folded; a condition predicted wrongly ends the execution.
* The analysis goes on with facts that need not hold in four places: after an operand that was skipped, on leaving a loop
  by its first condition, on the sides of a condition, and after a loop whose third pass still changed something. The
  tree records whether the first two and the last kept the known facts (`keeps`, `stable`). A wary execution stops at
  such a place unless the facts are kept; `FlowSound.TypesSound` says that no wary execution of any script goes bad, so
  that any other one goes bad only where the wary one stops (`FlowExact.BadIsSeen`), and scripts for which everything is
  recorded as kept never do (`FlowExact.TypesSettled`). `FlowExact` says exactly when the facts hold at each place.

## Model

| member | source | states |
|---|---|---|
| Machine.Wrap | jit/statements.c:829-863 | the signed 64-bit number that C arithmetic wraps to: in range, and equal modulo 2^64 |
| Expressions.RunExpr | jit/ops/special.c:6-175 | the code of every expression over `&&`, `\|\|`, `^^`, `!`, `?:`, comparisons, `+`, `-`, assignment and calls, on operands of known and unknown type, computes its value, evaluates exactly the operands short-circuiting prescribes, in order (variables and call trace agree), and leaves an operand denoting the value, or stops with the error it causes; variables on the left of strict operators are read late |
| Expressions.RunIntrinsic | jit/ops/binary.c:100-345 | an operator compiled for two ints, for a comparison, or as a call of its intrinsic gives the result the language has for the operands, or the error |
| Operators.Comparisons | jit/ops/binary.c:285-365 | of any two operands, `<` yields 1 or 0 as the left payload is the smaller one or not, `>=` is its negation, `>` and `<=` are the same with the operands exchanged, and `!=` is the negation of `==`; none of them fails |
| Operators.SumsFail | jit/ops/binary.c:100-131 | `+` and `-` yield an int if both operands are ints, and otherwise stop the program with an error |
| Operators.Sums | jit/ops/binary.c:100-131 | on ints they yield the exact sum and difference if that is a 64-bit number, and otherwise the 64-bit number equal to it modulo 2^64 |
| Operators.SubtractUndoes | jit/ops/binary.c:367-368 | `(x + y) - y` is `x` for all ints, also when the sum wraps around |
| Operators.ReadAssigned | jit/specialexpr.c:927-1067 | a variable holds what was last assigned to it, one that never was assigned is undefined, and an assignment changes no other |
| Operators.Truths | jit/ops/special.c:163-175 | `!` yields 1 exactly for undefined values and for zero |
| Counting.CodeCounts | jit/statements.c:953-992 | for all 64-bit bounds the code generated for `x = a; while(x < b) x = x + 1;` stops in exactly one state: the one it started in, with the greater bound in `x` |
| Selecting.CodeSelects | jit/statements.c:824-951 | for every list of cases with 64-bit bounds, every int and every default, by whichever form the switch is compiled: its code stops in exactly one state, where `y` has the number of the first case that contains `x`, or the default's |
| Expressions.LiveRead | jit/specialexpr.c:927-982 | the operand of an identifier, also one handed through assignments, is the variable's own storage and denotes what it holds at the time of use |
| Expressions.EarlyOrLate | jit/ops/special.c:98-113 | the late reading is the language's wherever no operator has another result with the later value of the variable on its left |
| Expressions.StrictExact | jit/ops/binary.c:132-222 | for one strict operator, exactly then |
| Expressions.OrderedInOrder | jit/ops/binary.c:132-222 | so it is in every state if no right operand assigns the variable on its left |
| Expressions.ConstSame | jit/statements.c:829-852 | whether an operand is a constant, and which, does not depend on the code generated before it |
| Expressions.RunShortCircuit | jit/ops/special.c:6-96 | `\|\|` and `&&`: folded or branched, the second operand runs exactly when the first does not decide, and the result is the truth value |
| Expressions.RunSkip | jit/ops/special.c:20-36 | a first operand that decides branches to the end with its truth stored as the result; otherwise the run reaches the second operand |
| Expressions.RunXor | jit/ops/special.c:98-113 | `^^` evaluates both operands once, in order, and yields whether exactly one is true, the left one read late |
| Expressions.RunTernary | jit/ops/special.c:115-151 | `?:` evaluates the condition and exactly one arm; value and meta come through the two result temporaries |
| Expressions.RunNot | jit/ops/special.c:163-175 | `!` yields 1 for values that are not true and 0 for those that are |
| Expressions.RunAssign | jit/specialexpr.c:983-1067 | an assignment stores payload and meta, and the operand it hands on still denotes the value although it may be the variable's own storage |
| Expressions.RunBool | jit/lib/conversion.c:99-129 | the value computed is 1 exactly for true operands, for constant, statically typed and dynamic operands alike, and nothing else changes |
| Expressions.RunBranchIfNot | jit/lib/conversion.c:60-97 | the branch is taken exactly when the operand is not true, whatever is known of it statically |
| Expressions.ExprGrows | jit/ops/special.c:6-175 | an expression's code is appended, places no label of others, uses only its own temporaries, and its static type is that of the tree |
| Dispatch.RunInt | jit/lib/conversion.c:131-169 | the switch value is the payload, or 0 for undefined |
| Dispatch.TableIndex | jit/statements.c:855-867 | with wrapping `val - min` the table is entered exactly for the values between the least and the greatest case |
| Dispatch.RunDispatch | jit/statements.c:855-867 | for every 64-bit value the jump table goes to the label of that value, or to the default's outside of the table |
| Dispatch.TableChosen | jit/statements.c:853-853 | a jump table is built for three cases or more, if it has at most 4095 entries and fewer than 50 for each case |
| Dispatch.TableEntry | jit/statements.c:869-885 | the label of a value leads to the body of the first group that contains it, also when ranges overlap, and that body ends with a branch to the end of the switch |
| Dispatch.DefaultEntry | jit/statements.c:887-895 | table values without a case lead to the default |
| Dispatch.RunTests | jit/statements.c:903-924 | the compare chain goes to the label of the first case that contains the value, or falls through if there is none |
| Dispatch.RunTest | jit/statements.c:905-921 | one test (equality, or two bounds) branches exactly for the values of its range |
| Dispatch.ChainEntry | jit/statements.c:932-947 | the label of the first matching case leads to its body, which ends with a branch to the end |
| Lowering.RunStmt | jit/statements.c:378-421 | the code of every statement follows its meaning in the code's reading: a normal end reaches the end of the code, `break` and `continue` reach the labels of the innermost loop (also from inside a switch), in the right state; an error stops the run in its state; and a loop that goes on makes the code go on at least as long |
| Lowering.RunIf | jit/statements.c:786-822 | `if` with and without either branch runs exactly the selected branch |
| Lowering.RunLoop | jit/statements.c:953-992 | a loop repeats its body, ends at `break`, and `continue` goes on at the loop's own continue label if it has one and at the end of the body otherwise |
| Lowering.RunSwitch | jit/statements.c:824-951 | a switch runs the body of the first group that contains the value, else the default if there is one, else nothing (or its first body, in a compare chain), by whichever of its three forms |
| Lowering.RunConstant | jit/statements.c:834-852 | on a constant only the selected body is generated |
| Lowering.RunTable | jit/statements.c:853-896 | the jump table form runs the selected body, and nothing if there is neither a case nor a default |
| Lowering.RunChain | jit/statements.c:897-948 | the compare chain form runs the selected body, with and without a default |
| Lowering.DynamicOperand | jit/lib/conversion.c:21-58 | an operand of unknown static type is never a constant, so the constant cases of the branches do not concern it |
| Lowering.SelectedOk | jit/statements.c:834-852 | the body that is selected is one of the switch's own well-formed bodies, or empty |
| Source.Append | parser/ast.c:337-352 | appending to a statement makes it a list whose first entry is what it was; it needs a first entry to follow |
| Source.DesugarKeepsMeaning | parser/ast.c:670-791 | the tree built for `loop`, `while`, `do`, `for`, `if` and `switch` has the meaning of the statement, for every program and any number of turns, where a `continue` in `do` starts the body again at once |
| Source.SkeletonFalls | jit/statements.c:853-945 | which form a switch takes depends on its cases only, not on what their bodies become |
| Source.TurnsKeepMeaning | parser/ast.c:748-791 | the loop of a `for` tests, runs the body and then the step, and a `continue` in the body goes on with the step |
| Source.DesugarCorrect | parser/ast.c:670-791 | read as the generated code reads it, the tree means what the program means, in every harmless execution |
| Source.PassesExact | jit/lib/conversion.c:21-58 | a loop's condition has the same outcome in the code if and only if its type is known or its value's type and payload are both zero or both not |
| Source.DoTurnExact | parser/ast.c:689-708 | for every body and condition of a `do`: a turn goes on as it should if and only if it does not end by `continue`, or the condition is true there and testing it changes nothing |
| Source.DoUnfold | parser/ast.c:689-708 | a `do` takes exactly these turns, one after the other, in both readings |
| Source.AsCode | parser/ast.c:670-791 | in a harmless execution the code's reading of a program is its meaning |
| Source.OrderlyHarmless | parser/ast.c:670-791 | every execution is harmless if no `do` has a `continue` of its own, no right operand assigns the variable on its left, loop conditions have known types and no switch falls into its first body |
| Source.DoContinueDiverges | parser/ast.c:689-708 | an instance: `do continue; while(c)` with a false condition ends at once by its meaning, but its tree never ends |
| Programs.RunFollowsMeaning | jit/statements.c:378-992 | every run of the generated program follows the script, in the code's reading and, where that is harmless, by its meaning: it reaches the end in the state of the script, or survives at least as many steps as the script took turns |
| Programs.CompileCorrect | jit/statements.c:378-992 | the generated code stops in a state (normally or by an error) if and only if the script ends in that state: in the code's reading for every run, by its meaning for every harmless run |
| Programs.OrderlyHarmlessRun | parser/ast.c:670-791 | such scripts are harmless in every run |
| Programs.DivergesCorrect | jit/statements.c:953-992 | the generated code runs for ever if and only if the script does, in the same two readings |
| Programs.NoEscape | jit/statements.c:378-404 | no `break` or `continue` escapes a script whose loop controls stand inside loops |
| Programs.DesugarOk | parser/ast.c:670-791 | what the parser builds from a script that `SourceOk` admits is admitted by the generator |
| Compiler.CompileScript | jit/statements.c:378-992 | parser's tree, handlers and run together: for every script that `SourceOk` admits the handlers report no error, and the function they leave stops, from every state, exactly in the state in which the script ends, in the code's reading and in harmless runs by its meaning |
| Compiler.CompileComputes | jit/statements.c:378-992 | the specified code of such a script computes it |
| Compiler.OkCompiles | jit/statements.c:378-421 | every statement that `StmtOk` admits is generated without an error |
| Emitter.Function.Add | jit/statements.c:953-992 | appending an instruction; a label that was placed before keeps its place |
| Emitter.HandleExpr | jit/ops/special.c:6-175 | the handlers together build the code that is proved correct |
| Emitter.HandleOr | jit/ops/special.c:6-50 | ptrs_handle_op_logicor, in its own order of steps, builds the specified code |
| Emitter.HandleAnd | jit/ops/special.c:52-96 | ptrs_handle_op_logicand builds the specified code |
| Emitter.HandleXor | jit/ops/special.c:98-113 | ptrs_handle_op_logicxor builds the specified code |
| Emitter.HandleTernary | jit/ops/special.c:115-151 | ptrs_handle_op_ternary builds the specified code |
| Emitter.EmitArith | jit/ops/binary.c:132-345 | the handlers of the arithmetic and comparison operators build the specified code for operands of known and unknown type |
| Emitter.VarToBool | jit/lib/conversion.c:99-129 | ptrs_jit_vartob builds the specified code |
| Emitter.VarToInt | jit/lib/conversion.c:131-169 | ptrs_jit_vartoi builds the specified code |
| Emitter.BranchWhen | jit/lib/conversion.c:21-58 | ptrs_jit_branch_if builds the specified code |
| Emitter.BranchUnless | jit/lib/conversion.c:60-97 | ptrs_jit_branch_if_not builds the specified code |
| Emitter.HandleStmt | jit/statements.c:378-421 | the handlers build the specified code, report an error only for a loop control outside of loops or a switch on a constant that has neither a case for it nor a default, and leave the scope's labels as they were |
| Emitter.HandleList | jit/statements.c:41-56 | ptrs_handle_body runs the handlers of its entries in order and notes a continue label of its own |
| Emitter.HandleIf | jit/statements.c:786-822 | ptrs_handle_if builds the specified code |
| Emitter.HandleLoop | jit/statements.c:953-992 | ptrs_handle_loop saves, overwrites and restores the scope's fields, and builds the specified code whether or not the body sets the continue label |
| Emitter.HandleSwitch | jit/statements.c:824-951 | ptrs_handle_switch chooses the form and builds the specified code |
| Emitter.HandleConstant | jit/statements.c:834-852 | the search for the constant's case finds the first one |
| Emitter.EmitDispatch | jit/statements.c:855-867 | the labels of the table, the default's label, the shifted index and the jump |
| Emitter.HandleGroups | jit/statements.c:869-885 | the bodies with their labels; afterwards `hasCase` marks exactly the table entries with a case |
| Emitter.PlaceCase | jit/statements.c:874-878 | the labels of one range are placed, and exactly its entries of `hasCase` are set |
| Emitter.HandleTable | jit/statements.c:853-896 | the whole jump table form |
| Emitter.HandleChain | jit/statements.c:897-948 | the whole compare chain form |
| Emitter.SelectShaped | jit/statements.c:834-852 | the case that the search for a constant selects is one of the bodies |
| Hazards.BranchIfExact | jit/lib/conversion.c:21-58 | ptrs_jit_branch_if, which the loop conditions use, is right exactly for operands that are typed statically, or constant, or whose type and payload are both zero or both non-zero |
| Hazards.LateRead | jit/ops/binary.c:132-222 | for every arithmetic operator, comparison and `^^` with a variable on the left, also one handed through assignments: the code applies the operator to what the variable holds after the right operand, or stops with the error this causes, and is right exactly when that is the operator's result for what it held before |
| Hazards.XorOfAssignment | jit/ops/special.c:98-113 | `x ^^ (x = v)` always yields 0, which is right exactly when `v` is as true as `x` was |
| Hazards.SubtractAssignment | jit/ops/binary.c:132-222 | `x - (x = v)` for an int `v` always yields 0, which is right exactly when `x` was the same int |
| Hazards.TableWraps | jit/statements.c:829-855 | a jump table is built with the wrong size exactly when the cases reach from the least to the greatest 64-bit number |
| Hazards.ChainWithoutDefault | jit/statements.c:926-945 | without a default the compare chain falls into its first body when nothing matches; it is right for a value exactly when a case contains it or that body has no effect |
| FlowSound.TypesSound | jit/lib/flow.c:2130-2145 | after the dry run and the analysis of any whole script, no wary execution meets an identifier whose value has another type than the one recorded for it |
| FlowSound.StmtSound | jit/lib/flow.c:1829-2128 | from a store the state describes, no recorded type is wrong, and the state after a statement describes the store after it |
| FlowSound.ExprSound | jit/lib/flow.c:919-955 | the same for expressions, and the predicted type of the result is its type |
| FlowSound.ShortCircuitSound | jit/lib/flow.c:1604-1669 | `&&` and `\|\|`: the state and the prediction of the result are right whether or not the second operand was evaluated, if skipping it keeps the facts |
| FlowSound.TernarySound | jit/lib/flow.c:1507-1531 | the same for `?:`, whose arms are analysed one after the other |
| FlowSound.BinarySound | jit/lib/flow.c:732-830 | what is predicted for an operator is the type of its result wherever the operand types were predicted rightly (`FlowKnows.BinaryExact` has the converse) |
| FlowKnows.ResultTypes | jit/ops/binary.c:100-365 | the type of every operator's result, operator by operator, from the types of its operands, and where there is none |
| FlowKnows.BinaryExact | jit/lib/flow.c:732-830 | for operands of known types exactly the type of the result is predicted, folded or not, with one gap: of `^^` it is known only for two ints or when folded |
| FlowKnows.BinaryUnknown | jit/lib/flow.c:1726-1762 | with an operand of unknown type, the type of the result is known exactly for comparisons |
| FlowKnows.BinaryMeta | jit/lib/flow.c:1708-1762 | the meta is known exactly for operations that are folded |
| FlowKnows.UnaryExact | jit/lib/flow.c:1671-1704 | the prediction for every prefix operator |
| FlowKnows.GetPut | jit/lib/flow.c:323-427 | in a real run a variable has the prediction it was given last, and others keep theirs; type and meta predicted for it are what is recorded at an identifier |
| FlowKnows.MergeExact | jit/lib/flow.c:211-291 | after a merge a type or a meta is known exactly if both states knew it; a dead end does not count, nor a state that has not met the variable |
| FlowKnows.ExprKnows | jit/lib/flow.c:919-955 | from a state that knows the types of the variables read, the analysis records the type of every identifier in an expression, and the type of the result by the typing rules |
| FlowKnows.TypesFound | jit/lib/flow.c:2130-2145 | completeness: in every script whose variables have one type each, are surely assigned before they are read and are tested for no other type, the type of every identifier is recorded, through branches, loops and returns, whatever conditions are predicted |
| FlowKnows.RunsTyped | jit/ops/binary.c:100-365 | and where an expression of such a script has a value, the value has the type that the rules give |
| FlowLaws.TestTeaches | jit/lib/flow.c:879-917 | `typeof x` compared with an int literal on either side teaches that type exactly on the side where they are equal |
| FlowLaws.OthersTeach | jit/lib/flow.c:879-917 | `!` swaps the sides, `&&` teaches what both operands do on that side, other conditions teach nothing |
| FlowLaws.TaughtKnown | jit/lib/flow.c:824-848 | what is taught is known afterwards, as the meta too if the meta was known |
| FlowLaws.ValueTests | jit/lib/flow.c:886-910 | which sides of which conditions also refine by a value |
| FlowLaws.ReturnEnds | jit/lib/flow.c:1879-1890 | behind a return the state is a dead end |
| FlowLaws.OtherBranch | jit/lib/flow.c:1955-1989 | so of two branches of which one returns, what is known afterwards is what the other knows |
| FlowLaws.PredictedBranch | jit/lib/flow.c:1955-1989 | a condition that is predicted leaves the other branch out of the analysis, and the prediction is recorded |
| FlowLaws.GuessExact | jit/lib/flow.c:460-500 | conditions without variables are predicted in both runs, others in the real run only |
| FlowLaws.LogicLaws | jit/ops/special.c:6-96 | in the execution too, `\|\|` and `&&` yield truth values and evaluate no more than needed |
| FlowLaws.PrefixLaws | jit/lib/flow.c:1671-1704 | `+` yields its operand, `!` the opposite truth value, `typeof` the type byte |
| FlowSound.RefineExact | jit/lib/flow.c:824-917 | the state refined by a side of a condition describes a store that the state described exactly if what that side teaches is true of it |
| FlowSound.IfSound | jit/lib/flow.c:1955-1989 | duplicated and merged branches describe the store whichever branch was taken |
| FlowSound.LoopSound | jit/lib/flow.c:2047-2075 | three passes over a loop whose third pass changed nothing are right for any number of turns |
| FlowSound.TurnsSound | jit/lib/flow.c:2047-2075 | a state that a pass leaves unchanged describes the store after any number of turns |
| FlowSound.VarsStmt | jit/lib/flow.c:1829-2128 | the dry run enters exactly the variables the statement touches, and later runs enter no others |
| FlowSound.BlankStmt | jit/lib/flow.c:396-402 | a dry run records no fact about any variable |
| FlowSound.HoldsMerge | jit/lib/flow.c:211-291 | what two states know in common describes every store that one of them describes |
| FlowSound.KeepsStmt | jit/lib/flow.c:1829-2128 | annotating a statement does not change which variables the analysis touches |
| FlowPasses.PassForgets | jit/lib/flow.c:2047-2075 | a pass only turns known types and metas into unknown ones |
| FlowPasses.ForgettingCosts | jit/lib/flow.c:211-291 | a merge that changes the state loses a fact |
| FlowPasses.PassesRest | jit/lib/flow.c:2047-2075 | repeated passes come to rest within the number of facts known before the loop |
| FlowPasses.FixpointSound | jit/lib/flow.c:2047-2075 | after one more pass than that, the recorded types are right for any number of turns, with no assumption about the passes |
| FlowExact.OperandExact | jit/lib/flow.c:919-955 | the state after analysing an operand describes a store from which it was not evaluated exactly if its predictions for the variables that the operand assigns are right there |
| FlowExact.ShortCircuitExact | jit/lib/flow.c:1604-1669 | so after `a \|\| b` and `a && b` with an `a` that decides |
| FlowExact.SkippedAssignExact | jit/lib/flow.c:1604-1669 | after `a \|\| (x = v)` and `a && (x = v)` with an `a` that decides: exactly if the type predicted for `v` is unknown or the type of `x` |
| FlowExact.TernaryExact | jit/lib/flow.c:1507-1531 | both sides of `c ? t : n`: where `n` is analysed after a `t` that was skipped, and after an `n` that was skipped |
| FlowExact.TernaryAssignExact | jit/lib/flow.c:1507-1531 | after `c ? (x = v) : n` with a false `c`: exactly if the type predicted for `v` is unknown or the type of `x` |
| FlowExact.HeadExact | jit/lib/flow.c:2047-2075 | the state after a pass describes the store on leaving a loop by its first condition exactly if its predictions for the variables that the condition assigns are right there |
| FlowExact.HeadAssignExact | jit/lib/flow.c:2047-2075 | for `while(x = v)`: exactly if what is known of `x` after the pass is the type of `v` |
| FlowExact.AssignKeeps | jit/lib/flow.c:1604-1669 | an operand `x = v` is recorded as keeping the facts exactly if the type predicted for `v` was known of `x` before |
| FlowExact.PureKeeps | jit/lib/flow.c:919-955 | an operand that assigns nothing keeps them |
| FlowExact.EntailsExact | jit/lib/flow.c:211-291 | what is recorded is no more than needed: facts are kept exactly if they hold of every store that the facts before allow |
| FlowExact.BadIsSeen | jit/lib/flow.c:2130-2145 | an execution that is not wary meets a wrong type only if the wary one stops |
| FlowExact.ExecWary | jit/lib/flow.c:1829-2128 | a wary execution is the execution, or stops |
| FlowExact.SureTaught | jit/lib/flow.c:824-917 | what a condition with `typeof x ==`, `typeof x !=`, `!` and then-side `&&` teaches is true on the side where it is applied, unless the second operand of the `&&` assigns what the first has tested |
| FlowExact.SettledSame | jit/lib/flow.c:1829-2128 | an execution of a tree in which everything is recorded as kept and stable is the wary one |
| FlowExact.TypesSettled | jit/lib/flow.c:2130-2145 | so the types recorded for such a script are right in every execution |
| FlowScripts.AfterDryRun | jit/lib/flow.c:2130-2145 | between the two runs of the analysis the tree is as it was, and exactly the variables the script touches are entered, with nothing known |
| FlowScripts.SkippedAssignment | jit/lib/flow.c:1604-1669 | the whole script `x = toint(input); input \|\| (x = 0.5); x`, analysed and run, reads `x` with a wrong type exactly if the assignment is skipped |
| FlowScripts.ElseExact | jit/lib/flow.c:879-917 | the else side of `typeof x != int && typeof y != int` describes a store exactly if both are ints |
| FlowScripts.ElseOfAnd | jit/lib/flow.c:879-917 | the whole script that reads `y` on that side goes wrong exactly if `x` is an int and `y` is not |
| FlowScripts.AssigningHead | jit/lib/flow.c:2047-2075 | `x = toint(input); while(x = tofloat(input)) x = toint(input); x` reads `x` with a wrong type whenever it gets past the loop |
| FlowChain.ChainPass | jit/lib/flow.c:2047-2075 | in a loop that hands a type on along n variables, every pass forgets one more of them |
| FlowChain.ThreePassesNotEnough | jit/lib/flow.c:2056-2072 | analysed from the start and run, every script of this kind with three variables or more reads one with a wrong type in its fourth turn |
| FlowChain.ThreePassesExact | jit/lib/flow.c:2056-2072 | the three passes are enough for it exactly if it has at most two variables |
| FlowLists.FlowState.Find | jit/lib/flow.c:396-427 | walking the list finds the entry of a variable if and only if there is one |
| FlowLists.FlowState.GetPrediction | jit/lib/flow.c:396-427 | the prediction of the variable, or nothing known when it has none or in a dry run |
| FlowLists.FlowState.SetPrediction | jit/lib/flow.c:323-394 | afterwards the list stands for the old map with this variable's prediction replaced or added; nothing else changes |
| FlowLists.FlowState.Dup | jit/lib/flow.c:183-199 | the copy stands for the same state and shares no entry with the original |
| FlowLists.FlowState.MergeFrom | jit/lib/flow.c:211-291 | merging in place, moving entries over, stands for the merge of the two states, with dry runs and dead ends treated as in the code |
| NameIndex.HashKey | jit/lib/struct.c:80-104 | both hash functions agree on every key, whether or not it is terminated within its length |
| NameIndex.KeyOf | jit/lib/struct.c:93-104 | the part of a key that counts is what stands before the first terminator |
| NameIndex.MatchesExact | jit/lib/struct.c:106-134 | the comparison with a member's name succeeds exactly for the name the key spells |
| NameIndex.StructIndex.constructor | parser/ast.c:1864-1904 | the table that is built holds every member once, at the first free place of its probe sequence in the order of declaration |
| NameIndex.StructIndex.Create | parser/ast.c:1864-1904 | a table is built for every list of up to 96 members, and the error is reported for every longer one |
| NameIndex.StructIndex.TableSize | parser/ast.c:1858-1884 | the smallest listed prime above the number of members, for up to 96 members |
| NameIndex.StructIndex.Insert | parser/ast.c:1890-1900 | one member is added at the first free place, which exists |
| NameIndex.StructIndex.Find | jit/lib/struct.c:106-134 | the probe ends and returns what a walk over the declarations in their order returns |
| NameIndex.FindsFirst | jit/lib/struct.c:106-134 | that is the first member with the name, not of the excluded kind and not passed over by access protection, or the access error it causes |
| NameIndex.FindsExcluded | jit/lib/struct.c:106-134 | without such a member, the last one of the excluded kind |
| NameIndex.FindsNothing | jit/lib/struct.c:106-134 | without either, nothing |
| NameIndex.StructIterator.Next | jit/statements.c:1030-1074 | a step returns the next member to be shown and moves behind it, or says that the walk is over |
| NameIndex.StructIterator.Walk | jit/statements.c:1030-1104 | the whole walk visits exactly the members that are no setters, without an instance only the static ones, each once, and then stops |
| NameIndex.EachOnce | jit/statements.c:1030-1074 | this holds for every table the parser can build |
| StructLayout.LayoutSound | parser/ast.c:2325-2466 | members of one region are pairwise disjoint, lie inside the final size, scalars are aligned, and both sizes are multiples of 8 |
| StructLayout.BytesApart | parser/ast.c:2325-2466 | in other words: no byte of a region (16 for a `var`, the size of a scalar, each element's size for an array) belongs to two members or lies behind the region's end, and scalars start at multiples of their size, or of 8 |
| StructLayout.LayoutExact | parser/ast.c:2325-2466 | for every declaration list: members are disjoint and inside exactly when every typed `var` (16 bytes) is directly followed by a typed scalar or array of its region |
| StructLayout.NeverShrinks | parser/ast.c:2389-2466 | the running sizes never shrink, for any declaration list |
| StructLayout.SteadyKeeps | parser/ast.c:2389-2466 | every declaration keeps both running sizes multiples of 8, and the last member aligned and inside its region, but for a typed `var` |
| StructLayout.StartFacts | parser/ast.c:2400-2443 | the next typed member starts aligned: not before the end of the typed scalar or array it extends, and at the end of the region otherwise; and the region's end never moves back |
| StructLayout.OffsetFacts | parser/ast.c:2389-2466 | a new member lies behind all others of its region, and inside the new size, but for a typed `var` |
| StructLayout.ParseMembers | parser/ast.c:2325-2466 | the loop over the declarations, with its running sizes, computes this layout |
| StructObject.SignedBytes | jit/lib/nativetypes.c:7-45 | reading back what setInt wrote gives the value truncated to its bytes and sign-extended |
| StructObject.UnsignedBytes | jit/lib/nativetypes.c:47-85 | reading back what setUInt wrote gives the value modulo 256 to the size |
| StructObject.SignedFits | jit/lib/nativetypes.c:7-45 | so a value that fits the member's size comes back unchanged |
| StructObject.DecodeEncode | jit/lib/nativetypes.c:7-139 | for every kind of member, reading what was written gives the value, converted to the member's type |
| StructObject.StoredReadsBack | jit/lib/nativetypes.c:7-85 | a `var` member gives back the value itself; an integer member gives back an int in its range that equals, modulo the size of the range, the payload of an int, 0 for undefined, and the truncation of a float |
| StructObject.FittingExact | jit/lib/conversion.c:386-393 | so an int, undefined as 0, or a float as its truncation is read back as exactly that number with the type int if and only if it lies in the member's range: 1, 2, 4 or 8 bytes, signed or unsigned |
| StructObject.Struct.constructor | jit/lib/struct.c:153-220 | a struct is set up with the layout of its members and memory for the static ones |
| StructObject.Instance.Apart | parser/ast.c:2325-2466 | no two members of a region share a byte of memory |
| StructObject.Instance.Get | jit/lib/struct.c:153-188 | reading a member gives its value |
| StructObject.Instance.Set | jit/lib/struct.c:190-220 | writing a member changes its value, to what `StructObject.StoredReadsBack` says of the written one, and that of no other, through this and any other instance; a static member changes for all instances |
| StructObject.Instance.SetAll | jit/lib/struct.c:190-220 | after any sequence of writes every member holds what was last written to it |
| NamedObject.Visible | jit/lib/struct.c:106-134 | the member a name stands for: the first of that name which access protection does not pass over |
| NamedObject.SearchVisible | jit/lib/struct.c:106-134 | for structs without getters and setters the lookup finds exactly that member, reports its access error, or finds nothing |
| NamedObject.OneChanged | jit/lib/struct.c:190-220 | a changed member value changes the map at its own name and nowhere else |
| NamedObject.Object.Get | jit/lib/struct.c:251-277 | reading by name answers as the map does: the value, no such property, or no access |
| NamedObject.Object.Set | jit/lib/struct.c:380-407 | writing by name changes the map at that name, to a value that reads back as `StructObject.StoredReadsBack` says, or leaves it as it was and reports why |
| NamedObject.Object.Perform | jit/lib/struct.c:251-407 | hash table, layout and codecs together: any sequence of reads and writes by name answers as on a plain map from names to values, and leaves the object standing for that map |
| Imports.Importer.ImportScript | jit/statements.c:198-243 | one import: a circular import is reported only on a cycle that the root reaches, another error only for a script or a name that is missing, and otherwise the script is compiled when the call returns |
| Imports.Importer.Compile | jit/statements.c:212-229 | a script that is not in the cache is entered as in progress, its imports are processed, and then it is done |
| Imports.Importer.ImportAll | jit/statements.c:276-306 | for every finite import graph without other defects the circular-import error is reported if and only if a cycle can be reached from the root; on success every script that can be reached is compiled exactly once, before those that import it |
| Imports.OrderedMeansSound | jit/statements.c:198-243 | an order in which every script comes after what it imports exists only without cycles and defects, and contains everything that can be reached |
| ExprParser.TwoOperators | parser/ast.c:809-857 | of two operators between three operands, the second takes the operand in the middle if and only if it stands in a tighter row of the language's operators, which are listed as sets from `\|\|` to `* / %` |
| ExprParser.ChainParsed | parser/ast.c:809-963 | every chain of operators and terms, which may have prefix operators, is parsed to the tree whose root is the loosest operator (of one row the last), and so on for both operands |
| ExprParser.TernaryParsed | parser/ast.c:926-944 | `?:` is looser than all of them: its first two operands are such chains, its last one is any expression |
| ExprParser.SignsParsed | parser/ast.c:859-869 | `&`, `*`, `+` and `-` in front of an operand are address-of, dereference and the signs |
| ExprParser.ParsePrint | parser/ast.c:879-963 | parsing the tokens of any tree, printed with as few parentheses as the levels allow and left-associative, returns that tree |
| ExprParser.Resumes | parser/ast.c:906-963 | parsing a printed operand and then climbing gives what climbing with that operand's tree gives |
| ExprParser.RightPrinted | parser/ast.c:914-921 | a right operand takes exactly the operators that bind more tightly |
| ExprParser.UnaryPrinted | parser/ast.c:984-1030 | prefix operators and parentheses are parsed back |
| ExprParser.Cursor.Expression | parser/ast.c:879-889 | the cursor's parse function returns the specified tree and leaves the specified tokens, with fewer tokens at every recursive call |
| ExprParser.Cursor.UnaryExpr | parser/ast.c:984-1030 | the same for unary expressions |
| ExprParser.Cursor.BinaryExpr | parser/ast.c:906-963 | the same for the outer loop of precedence climbing, including `?:` |
| ExprParser.Cursor.RightOperand | parser/ast.c:914-921 | the same for its inner loop |
| ExprParser.ParsePrinted | parser/ast.c:879-963 | run on the printed tokens of any tree, the parser returns the tree and consumes everything |
| Catch.DispatchInnermost | jit/lib/error.c:471-491 | for every nesting and sequence of try statements and every instruction of their code, the first range hit in the list is that of the innermost enclosing try body, and none is hit without one |
| Catch.PathDispatch | jit/lib/error.c:471-491 | the same by the way to a statement: an exception in a statement, wherever it stands, goes to the catcher of the last try whose body the way enters, and not to one whose catch or finally body it enters |
| Catch.SomeSpot | jit/statements.c:505-608 | every instruction of the code belongs to a statement at some place |
| Catch.Scope.AddCatcher | jit/lib/error.c:435-447 | the new entry is put before the others |
| Catch.Scope.HandleTry | jit/statements.c:505-608 | try, catch and finally bodies are generated in order, and their ranges end up in the list as the layout says |
| Catch.Scope.HandleBody | jit/statements.c:509-520 | the range of a try covers exactly its body and the branch behind it; ranges of inner tries come before it |
| Catch.Scope.Search | jit/lib/error.c:471-487 | the search takes the first entry whose range contains the pc |
| Catch.CatchIn | jit/lib/error.c:435-491 | for a whole function, generated and then searched, the innermost enclosing try is found, also by the way to the statement |
| CallAbi.CountArguments | jit/lib/call.c:319-387 | counting gives one slot for `this` and those of the parameters, or the error for a parameter without an argument |
| CallAbi.FillArguments | jit/lib/call.c:319-387 | the array the caller fills is `this` followed by the packed words of the arguments; exactly when an argument is missing there is none |
| CallAbi.Retrieve | jit/lib/call.c:250-318 | the callee's loop reads its slots one parameter after the other |
| CallAbi.RetrieveOne | jit/lib/call.c:256-310 | one parameter is read from its one or two slots according to its typing |
| CallAbi.MetaFields | parser/common.h:222-233 | type byte, pointer and array size of the packed meta words |
| CallAbi.RoundTrip | jit/lib/call.c:250-387 | for every parameter list caller and callee agree on every slot and on the count, and everything that is passed on arrives with its value, its own type byte and its meta (for sized pointers the declared meta, with a size no larger than the actual one); a parameter typed as undefined receives undefined |
| CallAbi.Call | jit/lib/call.c:179-387 | a call is carried out if and only if every parameter takes its argument, and then every argument arrives with its own type, or the default in its place |
| CallAbi.CheckExact | jit/lib/error.c:406-433 | in terms of type bytes, struct metas and array sizes: a given argument passes if and only if the parameter has no type, or the argument has its type byte, is an instance of the struct if one is declared, and has at least the declared size; the default takes the place of exactly the undefined arguments, and passes if and only if the parameter has no type, is typed as undefined, or names the struct the default is an instance of |
| Slices.SetArraySizeFields | parser/common.h:276-283 | replacing the size in a packed meta word keeps type and type index |
| Slices.ArrayMetaFields | parser/common.h:223-224 | a packed array meta gives back its size, type index and type |
| Slices.SliceCovers | jit/specialexpr.c:702-736 | a slice is allowed exactly for `0 <= start <= end <= size`, and covers that part of the range |
| Slices.ElementCovers | jit/specialexpr.c:540-601 | the address of an element is given exactly for indices in range, and covers the rest of the range |
| Slices.StaysInside | jit/specialexpr.c:540-736 | every pointer from any chain of slices and element addresses covers a sub-range of the allocation, with its type and type index |
| Slices.BytesInside | jit/specialexpr.c:540-736 | all the bytes such a pointer speaks for belong to the allocation |
| Slices.Scope.HandlePtr | jit/specialexpr.c:570-736 | the handlers, which overwrite the scope's index size and restore it, compute these pointers |
| Slices.Scope.HandleIndex | jit/specialexpr.c:301-309 | inside brackets the length stands for the size of the innermost indexed pointer |
| Symbols.LastAt | parser/ast.c:193-212 | the latest declaration of a name in a scope |
| Symbols.FirstIsLast | parser/ast.c:2760-2783 | the first match in a scope's list is the latest declaration in that scope |
| Symbols.NewestWithout | parser/ast.c:2890-2923 | closing a scope changes no other scope's list |
| Symbols.Code.Open | parser/ast.c:2878-2888 | a new innermost scope, empty |
| Symbols.Code.Close | parser/ast.c:2890-2923 | the innermost scope and its declarations are gone, all others stay |
| Symbols.Code.Declare | parser/ast.c:2760-2783 | the declaration is the latest in the innermost scope |
| Symbols.Code.Search | parser/ast.c:193-264 | the latest declaration in the innermost open scope that has the name, and whether a function boundary lies between |
| Symbols.Code.Lookup | parser/ast.c:193-264 | exactly the variable used across a function boundary (for a member, its `this`) is marked addressable; there is no answer for a member whose `this` is missing or is itself a member |
| Symbols.Code.NewImport | parser/ast.c:1606-1613 | a new import statement with an empty list |
| Symbols.Code.ImportName | parser/ast.c:1632-1663 | a named import is appended, and its symbol's index is its position in the list |
| Symbols.Code.ImportWildcard | parser/ast.c:1617-1629 | a wildcard is remembered in the innermost scope |
| Symbols.Code.FindWildcard | parser/ast.c:2785-2826 | the newest fitting wildcard of the innermost scope that has one |
| Symbols.Code.GetSymbol | parser/ast.c:2785-2846 | an undeclared name that a wildcard covers is appended to that statement's list, with its position as index; other names change nothing |
| FormatString.FormatExists | parser/ast.c:2563-2688 | a literal is refused exactly when a percent sign, not written as an escape, stands before its first insertion |
| FormatString.ExpandFormat | jit/specialexpr.c:36-81 | expanding the compiled format gives the text with the pieces in place |
| FormatString.Faithful | parser/ast.c:2563-2688 | the value of every accepted literal without insertions, or without terminator characters and escapes that yield a percent sign, is its literal text with the stringified pieces in place, percent signs included |
| FormatString.FaithfulExact | parser/ast.c:2563-2688 | an accepted literal has that value for all pieces if and only if it has no insertion, or neither a terminator character nor an escape that yields a percent sign |
| FormatString.SomePiecesWrong | parser/ast.c:2563-2688 | with an insertion and such a character there are pieces for which it has another |
| FormatString.EscapedPercent | parser/ast.c:2563-2688 | an instance: an escaped percent sign in front of `s` and an insertion goes wrong for every piece |
| FormatString.Buffer.Add | parser/ast.c:2666-2670 | the buffer grows before it can overflow, and keeps its contents |
| FormatString.ReadString | parser/ast.c:2563-2688 | across adjacent literals, the loop builds the format and the list of insertions in order |
| SwitchParser.Parse | parser/ast.c:1689-1821 | the parser of a switch returns the cases with their bodies, the default and the extreme values, or the error for a second default |
| SwitchParser.ArmsParsed | parser/ast.c:1689-1821 | for every list of arms, every case and the default get their arm's statements, or those of the last arm before it that has some |
| SwitchParser.TakeHead | parser/ast.c:1719-1795 | at a head, the cases that had no body yet get the one that ends there, and those of a `case` are added |
| SwitchParser.EndDefault | parser/ast.c:1732-1757 | at a head, a default that was being read is complete, and that of a `default` begins |
| SwitchParser.ListHas | parser/ast.c:1719-1747 | the body handed to the generator has these statements in their order |
| SwitchParser.GroupsSelect | jit/statements.c:869-885 | taking consecutive cases with the same body as one group keeps the first match, the number of cases and the extreme values |
| SwitchParser.ParsedSelect | parser/ast.c:1689-1821 | so the switch that is generated selects, for every value, the body that the parser gave to the first case containing it |
| SwitchParser.BodyExact | parser/ast.c:1689-1821 | an arm gets exactly its own statements if and only if it has some or no statement stands before it: an empty arm gets an earlier arm's statements |
| SwitchParser.RunEnds | parser/ast.c:1719-1747 | the body given to an arm is its own statements, or those of the arm before when it has none |
| SwitchParser.FillCases | parser/ast.c:1742-1746 | exactly the cases that have no body yet get the finished one |
| SwitchParser.Extremes | parser/ast.c:1789-1792 | the running minimum and maximum over the case values |

## Left out

The library libjit, closures, machine code and frame pointers, native imports, callbacks, signals, backtraces and all
input and output are not part of this model.

Control flow:

- Lowering.RunStmt: loop controls inside nested functions and `try` (`returnForLoopControl`), `foreach` loops and the float cases of ptrs_jit_vartob are not modelled.
- Programs.CompileCorrect: holds under `SourceOk`; what the code does outside of it (a null pointer, a table that is too small) is not modelled.
- Expressions.RunExpr: of the operators of jit/ops/binary.c it has the comparisons without types, `+` and `-`, on int and undefined operands; floats, pointers, `===`, `!==`, the other int operators and what handles an error (`try`) are left out of this part.
- Source.Append: an empty `for` or `do` body has no first entry and the parser follows a null pointer; `Parses` excludes it. The parser splices linked lists, here sequences of statements are joined as values, and a block of one statement stays a block.
- Emitter.HandleStmt: `ok` is false where the generator stops with an error or (a constant switch without default, no case hit) follows a null pointer; what happens then is not modelled.
- Hazards.TableWraps: what the undersized table does at run time is not modelled.
- Expressions.RunBranchIfNot: for operands that are neither int nor undefined the payload decides; conversions of strings and pointers in conditions are not modelled.

Type prediction:

- FlowSound.TypesSound: types only. Predicted values and predicted native types are left out, because merging keeps a value when only its meta is known; so are `switch`, `try`, functions (variables used across functions), address-of, inner `break` and `continue`, and the results of `++` and `--`. `break` stands first or last in a loop's body (where the parser puts it). Of a meta word only the type byte is kept, and refinement is against int literals; a wary execution stops at a condition that refines by `===` or `!==` on an identifier's value (jit/lib/flow.c:850-877).
- FlowKnows.TypesFound: a variable assigned for the first time inside a loop does not count as assigned behind it, and values of `?:`, of input, and of `^^` on other operands than ints may not be assigned; of such values the analysis knows no type (of `?:` only if it predicts the condition).
- FlowScripts.SkippedAssignment: the scripts are analysed with an oracle that predicts no condition and folds nothing; their conditions depend on input, of which the code predicts nothing either.
- FlowPasses.FixpointSound: describes repeating the pass, which the code does not do; it makes three passes.
- FlowLists.FlowState.MergeFrom: the entries' depth and addressable marks are not modelled.

Structs:

- NameIndex.StructIndex.Find: access protection is a parameter of the lookup. For a key without terminator the C function reads one character behind the key's length, which is not modelled.
- StructLayout.LayoutExact: sizes are unbounded numbers; a struct of more than 2^32 bytes would wrap around. Native types have 1, 2, 4, 8 or 16 bytes.
- StructObject.DecodeEncode: of a `var` member payload and meta word, of an int member the payload and the int type are returned; the other meta bits that reading an int leaves are not specified. Float and pointer members, functions, getters, setters and overloads are not modelled.
- NamedObject.Object.Perform: on an instance whose members are all `var` or int members; overloads, getters, setters, arrays and the errors of static access to instance members are not modelled.
- NameIndex.StructIterator.Walk: values of the visited members and user-defined iterators are not modelled.

Others:

- Imports.Importer.ImportAll: paths are numbers and the cache is a map; resolving and reading files is the parameter `graph`. The root script is not in the cache, so a cycle through it is found when it comes around as an import.
- ExprParser.ParsePrint: works on tokens. Assignment operators, calls, member access, indexing and other suffixes, type names, and the reading of `-5` as a number are not modelled. A missing right operand is a parse failure here, while the code leaves a null child.
- Catch.DispatchInnermost: the error calls of assertions stand outside of every range and rethrowing after `finally` is only code to be skipped.
- CallAbi.CheckExact: states the refusal of defaults as the code behaves: the type that was read before the default was stored is compared. That a default is also stored into the caller's own variable is not modelled, nor are varargs and return values.
- CallAbi.Call: the arguments are as many as the parameters or more, as a closure's checker has them.
- Slices.StaysInside: the element size comes from a constant meta; with an unknown meta the code scales the index twice. `as` casts and pointer subtraction are not modelled.
- Symbols.Code.Lookup: the list of type names is not modelled, and linked lists are sequences.
- FormatString.FaithfulExact: `$%fmt` insertions and names of more than 127 characters are not modelled.
- SwitchParser.Parse: a case without any body reaches the generator as a null pointer, which is not modelled.
