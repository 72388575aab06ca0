# A verified model of the jlox tree-walking interpreter core

This project models the evaluation core of a Java interpreter for Lox, a small
dynamically typed language. The core is the `Interpreter` class: its
expression visitors, its statement visitors and their helpers. It also models
the `Expr` syntax tree and two debugging printers, `AstPrinter` and `PostFix`.

- **Values** (`values.dfy`): nil, booleans, numbers, strings and callables.
  Numbers are exact reals. Runtime errors carry a kind, the offending token and
  the message text.
- **Host** (`values.dfy`): what the model leaves to the Java host.
  - Double's text (`Double.toString`).
  - A callable's text.
  - The effect of calling a callable (`LoxCallable.call`): given the callable,
    the arguments and the bindings of every frame, it gives the result and the
    globals' bindings once the body has run.
- **Frames** (`environment.dfy`): environments are a store of frames, each
  with an optional enclosing frame; frame 0 is `globals`. It provides
  `define`, `get`, `getAt`, `assign` and `assignAt`. The nearest-frame walk is
  proved to be the exact-distance walk at the nearest defining distance.
- **Expressions** (`evaluator.dfy`):
  - `Evaluate` and one function per visitor (`EvaluateBinary`,
    `EvaluateCall`, ...) are the expression visitors, as recursive functions
    over the frames and a log of calls made.
  - A call adds one record to the call log and takes over the values the
    callable's body assigned to globals. The log is what makes "the right
    operand was never evaluated" something a lemma can state.
  - `evaluation_properties.dfy` holds the operator rules, short circuits,
    call ordering and where assignments write.
- **Statements** (`execution.dfy`):
  - Each statement visitor is a function from machine state to an outcome.
  - Java's `Return` and `Break` exceptions become outcomes (`Returning`,
    `Breaking`), as does a runtime error (`Failed`).
  - The `Interpreter` class does the same work in place. Its fields are the
    frames, the active `environment`, the resolver's `locals` table, the call
    log, the printed output and the declared functions. Each visitor method
    is proved equal to the corresponding function. `ExecuteBlock` restores the
    active frame on every exit, as Java's `finally` does.
  - `execution_properties.dfy` proves:
    - block sequencing;
    - break, return and false conditions in loops;
    - one-branch `if`;
    - `var` binding;
    - block scoping;
    - the prompt's echo.
- **Printers** (`ast_printer.dfy`, `postfix.dfy`):
  - Each printer's output is a function of the tree.
  - The printing methods build it child by child in a loop, as the Java
    `StringBuilder` code does, and are proved equal to it.
  - The output shapes, the demonstration outputs, and (for the prefix printer)
    balanced parentheses are proved.

Assignment is modelled exactly as written. `visitAssignExpr` looks up the
resolver's distance with the name token, `locals.get(expr.name)`. The table is
keyed by expression nodes, so the lookup always misses and every assignment
goes to `globals.assign`. `EvaluationProperties.LocalAssignmentMisses` shows a
resolved local that reads correctly, yet assigning to it fails with
"Undefined variable". When globals bind the same name,
`EvaluationProperties.LocalAssignmentWritesGlobal` shows the assignment
succeeding on the global and leaving the local unchanged.

`Expr.java` declares six node classes and a six-method visitor.
The interpreter also evaluates `Logical`, `Call` and `Assign` nodes, so the
model's `Expr` has all nine. Each printer is restricted to the node kinds it
has visitors for.

## Model

| member | source | states |
|---|---|---|
| Strings.Spaced | com/craftinginterpreters/lox/AstPrinter.java:40-44 | appending a space and then each part gives one space per part, leading with a space |
| Strings.SpacedTwo | com/craftinginterpreters/lox/PostFix.java:32-36 | two operands appended by the loop give `" a b"` |
| Strings.NatText | com/craftinginterpreters/lox/Interpreter.java:164-165 | an int concatenated into a message is a non-empty run of decimal digits with no leading zero except in "0" itself |
| Strings.NatTextSpells | com/craftinginterpreters/lox/Interpreter.java:164-165 | the text reads back as the number it was made from: it is the exact decimal text of the arity and of the argument count |
| Environment.Ancestor | com/craftinginterpreters/lox/Interpreter.java:95-102 | walking `distance` enclosing links never reaches a newer frame; distance 0 is the frame itself |
| Environment.Depth | com/craftinginterpreters/lox/Interpreter.java:95-102 | the distance found defines the name and no smaller distance does |
| Environment.Define | com/craftinginterpreters/lox/Interpreter.java:281-289 | `define` binds the name in the given frame only, keeping the store's shape |
| Environment.Push | com/craftinginterpreters/lox/Interpreter.java:238-241 | `new Environment(environment)` adds one empty frame enclosed by the active one and leaves the others |
| Environment.Get | com/craftinginterpreters/lox/Interpreter.java:100 | an unbound name fails with "Undefined variable" on that token |
| Environment.GetAt | com/craftinginterpreters/lox/Interpreter.java:98 | succeeds exactly when the frame at that distance defines the name, and gives its binding there |
| Environment.Assign | com/craftinginterpreters/lox/Interpreter.java:317 | `assign` keeps the store's shape and leaves frames newer than the start untouched; an unbound name is an error |
| Environment.AssignAt | com/craftinginterpreters/lox/Interpreter.java:315 | succeeds exactly when the frame at that distance defines the name, and then is a `define` in that frame |
| Environment.GetIsGetAtNearest | com/craftinginterpreters/lox/Interpreter.java:95-102 | the enclosing-chain lookup equals the exact-distance lookup at the nearest defining distance, and fails when no frame defines the name |
| Environment.AssignIsAssignAtNearest | com/craftinginterpreters/lox/Interpreter.java:310-320 | the enclosing-chain assignment equals the exact-distance assignment at the nearest defining distance |
| Environment.DefineShadows | com/craftinginterpreters/lox/Interpreter.java:281-289 | after a define, reading the name from that frame gives the new value, and every other frame is unchanged |
| Evaluator.IsTruthy | com/craftinginterpreters/lox/Interpreter.java:184-188 | false exactly for nil and false |
| Evaluator.IsEqual | com/craftinginterpreters/lox/Interpreter.java:190-195 | true exactly when the values are equal: nil equals only nil, no coercion |
| Evaluator.Stringify | com/craftinginterpreters/lox/Interpreter.java:197-209 | nil prints "nil"; a number's text loses a trailing ".0" and nothing else; other values print their own text |
| Evaluator.CheckNumberOperand | com/craftinginterpreters/lox/Interpreter.java:169-172 | passes exactly for a number, else a type error on the operator |
| Evaluator.CheckNumberOperands | com/craftinginterpreters/lox/Interpreter.java:173-176 | passes exactly when both operands are numbers, else a type error on the operator |
| Evaluator.CheckDivByZero | com/craftinginterpreters/lox/Interpreter.java:178-182 | passes exactly when the divisor is non-zero, else a division-by-zero error on the operator |
| Evaluator.LocalsGet | com/craftinginterpreters/lox/Interpreter.java:13 | a node key finds its recorded distance; a token key never matches a node-keyed table |
| Evaluator.LookUpVariable | com/craftinginterpreters/lox/Interpreter.java:95-102 | a resolved node reads at its exact distance from the active frame; an unresolved one reads the globals |
| Evaluator.AssignWith | com/craftinginterpreters/lox/Interpreter.java:314-319 | the write keeps the store's shape; the globals write leaves every non-global frame alone |
| Values.ValueText | com/craftinginterpreters/lox/Interpreter.java:208 | `toString` of a value: "true" or "false" as the boolean says, the host's text of a number or callable, a string itself |
| Evaluator.UnaryOp | com/craftinginterpreters/lox/Interpreter.java:79-87 | fails exactly for `-` on a non-number, with the operand message on the operator; `!` gives the negated truthiness; any other operator gives nil |
| Evaluator.NumericResult | com/craftinginterpreters/lox/Interpreter.java:111-125 | the comparisons give a boolean (strict ones false and non-strict ones true on equal operands), `-` and `*` a number, with `-` the inverse of adding |
| Evaluator.BinaryOp | com/craftinginterpreters/lox/Interpreter.java:108-147 | fails exactly when `+` has neither two numbers nor a string, when a numeric operator lacks two numbers, or when a divisor is zero; every error is on the operator, division by zero only after both are numbers; an unlisted operator gives nil |
| Evaluator.Follows | com/craftinginterpreters/lox/Interpreter.java:44-168 | what an expression may do to the state: the store keeps its size and links, and the call log only grows |
| Evaluator.AfterCall | com/craftinginterpreters/lox/Interpreter.java:167 | after a call the globals keep their names and hold the body's assignments; every other frame and every link is as before |
| Evaluator.Invoke | com/craftinginterpreters/lox/Interpreter.java:158-167 | not callable, then wrong arity, are errors that change nothing; otherwise the host's call result and the globals the body assigned, with one call logged; no non-global frame changes |
| Evaluator.Evaluate | com/craftinginterpreters/lox/Interpreter.java:44-168 | evaluation keeps every frame and link of the store, changes no frame but the globals, and only extends the call log |
| Evaluator.EvaluateLogical | com/craftinginterpreters/lox/Interpreter.java:50-60 | keeps every frame and link of the store, changes no frame but the globals, and only extends the call log |
| Evaluator.EvaluateTernary | com/craftinginterpreters/lox/Interpreter.java:65-74 | keeps every frame and link of the store, changes no frame but the globals, and only extends the call log |
| Evaluator.EvaluateUnary | com/craftinginterpreters/lox/Interpreter.java:76-89 | keeps every frame and link of the store, changes no frame but the globals, and only extends the call log |
| Evaluator.EvaluateBinary | com/craftinginterpreters/lox/Interpreter.java:104-148 | keeps every frame and link of the store, changes no frame but the globals, and only extends the call log |
| Evaluator.EvaluateCall | com/craftinginterpreters/lox/Interpreter.java:150-167 | keeps every frame and link of the store, changes no frame but the globals, and only extends the call log |
| Evaluator.EvaluateAssign | com/craftinginterpreters/lox/Interpreter.java:311-320 | keeps every frame and link of the store, changes no frame but the globals, and only extends the call log |
| Evaluator.EvaluateArguments | com/craftinginterpreters/lox/Interpreter.java:153-156 | the arguments, in order, give one value each, and the state only moves forward |
| Evaluator.ArgumentErrorStops | com/craftinginterpreters/lox/Interpreter.java:154-156 | once an argument throws, the later arguments are never evaluated |
| EvaluationProperties.UnaryRules | com/craftinginterpreters/lox/Interpreter.java:75-88 | `!` negates truthiness of any value; `-` negates a number and is a type error otherwise |
| EvaluationProperties.PlusRules | com/craftinginterpreters/lox/Interpreter.java:126-136 | `+` adds numbers, concatenates strings, stringifies both sides when one is a string, and fails exactly otherwise |
| EvaluationProperties.NumericOperatorRules | com/craftinginterpreters/lox/Interpreter.java:111-125 | the comparisons and `- *` give the arithmetic result on numbers and the "Operands must be numbers." error otherwise |
| EvaluationProperties.DivisionRules | com/craftinginterpreters/lox/Interpreter.java:138-141 | `/` checks types first, fails with division by zero exactly for a zero divisor, and divides otherwise |
| EvaluationProperties.EqualityRules | com/craftinginterpreters/lox/Interpreter.java:109-110 | `==` is value equality and `!=` its negation, with nil equal only to nil |
| EvaluationProperties.StringifyDropsOnlyTrailingPointZero | com/craftinginterpreters/lox/Interpreter.java:197-209 | display text is Java's text, minus a trailing ".0" on numbers only |
| EvaluationProperties.ConcatenationExamples | com/craftinginterpreters/lox/Interpreter.java:130-135 | "a"+"b" is "ab", "a"+1 is "a1", 1+"a" is "1a", "a"+nil is "anil", "a"+true is "atrue" |
| EvaluationProperties.LogicalShortCircuits | com/craftinginterpreters/lox/Interpreter.java:49-59 | a truthy left `or` and a falsy left `and` give the left value whatever the right is; otherwise the result is the right side's |
| EvaluationProperties.TernaryEvaluatesOneBranch | com/craftinginterpreters/lox/Interpreter.java:65-73 | the condition picks one branch; the other never affects the outcome |
| EvaluationProperties.ShortCircuitSkipsCall | com/craftinginterpreters/lox/Interpreter.java:49-59 | in `false and f()` and `true or f()` no call is made |
| EvaluationProperties.CallStopsAtEvaluationError | com/craftinginterpreters/lox/Interpreter.java:150-156 | an error in the callee or in an argument ends the call with that error and state, before any check or call |
| EvaluationProperties.CallChecksFollowEvaluation | com/craftinginterpreters/lox/Interpreter.java:158-167 | once callee and arguments are evaluated: not callable, then wrong arity, fail on the parenthesis without a call; otherwise the host's result and the globals its body assigned, with one call logged |
| EvaluationProperties.CallAssignmentIsSeen | com/craftinginterpreters/lox/Interpreter.java:104-106 | in `f() + x`, where the body of f assigns the global x, the right operand reads the value the call left |
| EvaluationProperties.ArgumentsLeftToRight | com/craftinginterpreters/lox/Interpreter.java:153-156 | the i-th argument value is the i-th argument evaluated after all the earlier ones |
| EvaluationProperties.ArgumentErrorComesFirst | com/craftinginterpreters/lox/Interpreter.java:150-160 | `nil(1 + true)` fails with the argument's type error, not "not callable" |
| EvaluationProperties.MixedPlusIsTypeError | com/craftinginterpreters/lox/Interpreter.java:126-136 | `1 + true` fails with the `+` type error and its message |
| EvaluationProperties.NilIsNotCallable | com/craftinginterpreters/lox/Interpreter.java:158-161 | `nil()` fails with "Can only call functions and classes." on the parenthesis |
| EvaluationProperties.WrongArgumentCount | com/craftinginterpreters/lox/Interpreter.java:163-166 | a 2-ary callable given one argument fails on the parenthesis with exactly "Expected 2 arguments but got1.", and nothing is called |
| EvaluationProperties.UndeclaredVariable | com/craftinginterpreters/lox/Interpreter.java:90-102 | an unresolved name that globals do not define is "Undefined variable" |
| EvaluationProperties.AssignmentGoesToGlobals | com/craftinginterpreters/lox/Interpreter.java:310-320 | every assignment writes through `globals.assign`, whatever the resolver recorded |
| EvaluationProperties.LocalAssignmentMisses | com/craftinginterpreters/lox/Interpreter.java:310-320 | when globals do not bind the name, a resolved local reads correctly but assigning to it is "Undefined variable" |
| EvaluationProperties.LocalAssignmentWritesGlobal | com/craftinginterpreters/lox/Interpreter.java:310-320 | when globals also bind the name, assigning to a resolved local succeeds, writes the global and leaves the local as it was |
| EvaluationProperties.NoEffectsLeaveStateAlone | com/craftinginterpreters/lox/Interpreter.java:44-148 | an expression with no call and no assignment leaves frames and call log as they were |
| EvaluationProperties.PureEvaluationIsRepeatable | com/craftinginterpreters/lox/Interpreter.java:44-148 | such an expression evaluated twice gives the same outcome |
| Execution.AdvancesTransitive | com/craftinginterpreters/lox/Interpreter.java:222-234 | what a statement may change composes over a sequence of statements |
| Execution.Eval | com/craftinginterpreters/lox/Interpreter.java:211-213 | evaluating in the active frame keeps the machine runnable and the active frame the same |
| Execution.EvalOptional | com/craftinginterpreters/lox/Interpreter.java:274-287 | an absent initializer or return value is nil and evaluates nothing |
| Execution.Show | com/craftinginterpreters/lox/Interpreter.java:266-271 | completes normally or fails with the evaluation's error; changes only the globals and the logs |
| Execution.Exec | com/craftinginterpreters/lox/Interpreter.java:237-308 | a statement keeps the active frame, adds frames without relinking, and changes no older frame but globals and the active one; a block changes none of the older frames but globals |
| Execution.ExecVar | com/craftinginterpreters/lox/Interpreter.java:281-289 | keeps the active frame and changes no older frame but the globals and the active one |
| Execution.ExecIf | com/craftinginterpreters/lox/Interpreter.java:256-265 | keeps the active frame and changes no older frame but the globals and the active one |
| Execution.ExecFunction | com/craftinginterpreters/lox/Interpreter.java:250-254 | keeps the active frame and changes no older frame but the active one; the name then reads there as a callable of the declared arity whose identity names this declaration, closing over the active frame |
| Execution.Loop | com/craftinginterpreters/lox/Interpreter.java:291-302 | a while loop never lets a break escape it and keeps the active frame |
| Execution.ExecWhileIsLoop | com/craftinginterpreters/lox/Interpreter.java:292-302 | executing a while statement is running its loop |
| Execution.LoopStep | com/craftinginterpreters/lox/Interpreter.java:292-302 | one turn of the loop: an error or a false condition ends it, a break ends it normally, a normal body goes on with one less turn, anything else propagates |
| Execution.ExecBlock | com/craftinginterpreters/lox/Interpreter.java:222-234 | after the block, the previous frame is active again, whatever the outcome |
| Execution.RunSeq | com/craftinginterpreters/lox/Interpreter.java:228-230 | the statements, run in order, keep the active frame |
| Execution.TopLevel | com/craftinginterpreters/lox/Interpreter.java:32-37 | a prompt expression statement ends normally or with its error; any statement keeps the active frame |
| Execution.InterpretFrom | com/craftinginterpreters/lox/Interpreter.java:30-42 | the top-level run keeps the active frame and only adds frames |
| Execution.Interpreter.constructor | com/craftinginterpreters/lox/Interpreter.java:11-29 | starts with globals active, `clock` bound to the native 0-ary callable, and empty tables and logs |
| Execution.Interpreter.Resolve | com/craftinginterpreters/lox/Interpreter.java:219-221 | records the node's distance and changes nothing else |
| Execution.Interpreter.Evaluate | com/craftinginterpreters/lox/Interpreter.java:211-213 | the in-place evaluation ends in the state and result that `Evaluator.Evaluate` gives |
| Execution.Interpreter.VisitCallExpr | com/craftinginterpreters/lox/Interpreter.java:149-168 | the argument loop plus the checks and the call give exactly `Evaluator.Evaluate` of the call |
| Execution.Interpreter.EvaluateEach | com/craftinginterpreters/lox/Interpreter.java:153-156 | the argument loop ends in the result and state that `EvaluateArguments` gives |
| Execution.Interpreter.Execute | com/craftinginterpreters/lox/Interpreter.java:215-217 | executing in place gives the outcome and machine of `Exec` |
| Execution.Interpreter.ExecuteBlock | com/craftinginterpreters/lox/Interpreter.java:222-234 | restores the active frame on every way out and agrees with `ExecBlock` |
| Execution.Interpreter.VisitBlockStmt | com/craftinginterpreters/lox/Interpreter.java:237-241 | runs the block in a fresh frame enclosed by the active one, agreeing with `Exec` |
| Execution.Interpreter.VisitExpressionStmt | com/craftinginterpreters/lox/Interpreter.java:243-247 | evaluates and discards, agreeing with `Exec` |
| Execution.Interpreter.VisitPrintStmt | com/craftinginterpreters/lox/Interpreter.java:266-271 | appends the value's display text as one line, agreeing with `Exec` |
| Execution.Interpreter.VisitVarStmt | com/craftinginterpreters/lox/Interpreter.java:280-289 | defines the name (nil without initializer) in the active frame, agreeing with `Exec` |
| Execution.Interpreter.VisitIfStmt | com/craftinginterpreters/lox/Interpreter.java:255-264 | runs the branch the condition selects, agreeing with `Exec` |
| Execution.Interpreter.VisitWhileStmt | com/craftinginterpreters/lox/Interpreter.java:291-302 | the loop, ending at a false condition or a break, agreeing with `Loop` |
| Execution.Interpreter.WhileIteration | com/craftinginterpreters/lox/Interpreter.java:293-299 | one turn either leaves the rest of the loop with the same final result, or ends with that result |
| Execution.Interpreter.VisitFunctionStmt | com/craftinginterpreters/lox/Interpreter.java:249-254 | defines a new callable closing over the active frame, agreeing with `Exec` |
| Execution.Interpreter.VisitReturnStmt | com/craftinginterpreters/lox/Interpreter.java:273-279 | ends with the returned value (nil when absent), agreeing with `Exec` |
| Execution.Interpreter.VisitBreakStmt | com/craftinginterpreters/lox/Interpreter.java:304-308 | ends with a break and changes nothing |
| Execution.Interpreter.InterpretStatement | com/craftinginterpreters/lox/Interpreter.java:32-37 | one top-level statement, printed at the prompt or executed, agreeing with `TopLevel` |
| Execution.Interpreter.Interpret | com/craftinginterpreters/lox/Interpreter.java:30-42 | runs the statements in order, echoing expression statements at the prompt, agreeing with `InterpretFrom` |
| ExecutionProperties.RunSeqAppend | com/craftinginterpreters/lox/Interpreter.java:228-230 | running `a + b` is running `a`, then `b` only if every statement of `a` completed normally |
| ExecutionProperties.RunSeqShift | com/craftinginterpreters/lox/Interpreter.java:228-230 | the statements after a prefix run as a list of their own |
| ExecutionProperties.StatementsAfterAbruptAreSkipped | com/craftinginterpreters/lox/Interpreter.java:222-234 | after a return, break or error, the rest of the block is never executed |
| ExecutionProperties.BreakEndsLoop | com/craftinginterpreters/lox/Interpreter.java:291-302 | a break in the body ends the loop normally in the body's state, with no further condition test |
| ExecutionProperties.WhileTrueBreak | com/craftinginterpreters/lox/Interpreter.java:291-308 | `while (true) break;` completes at once and changes nothing |
| ExecutionProperties.ReturnLeavesLoop | com/craftinginterpreters/lox/Interpreter.java:291-302 | when the body returns, the loop ends with the body's returned value and state, with no further condition test |
| ExecutionProperties.WhileTrueReturn | com/craftinginterpreters/lox/Interpreter.java:273-302 | `while (true) return v;` returns v at once and changes nothing |
| ExecutionProperties.FalseConditionSkipsLoop | com/craftinginterpreters/lox/Interpreter.java:291-302 | a condition that evaluates to any falsy value ends the loop normally once evaluated: the body runs zero times |
| ExecutionProperties.IfRunsOneBranch | com/craftinginterpreters/lox/Interpreter.java:255-264 | `if` runs the selected branch; the other cannot affect the outcome; a missing else does nothing |
| ExecutionProperties.VarBindsInActiveFrame | com/craftinginterpreters/lox/Interpreter.java:280-289 | after `var x = e;`, reading x from the active frame gives e's value (nil without initializer), other frames unchanged |
| ExecutionProperties.BlockVariableDoesNotLeak | com/craftinginterpreters/lox/Interpreter.java:222-241 | a variable declared in a block lives in the block's frame: every older frame is untouched and the same frame is active again |
| ExecutionProperties.PromptEchoesExpressions | com/craftinginterpreters/lox/Interpreter.java:30-42 | for any expression statement: at the prompt its value's display text is printed, from a file nothing is printed, and an evaluation error fails the run either way |
| ExecutionProperties.InterpretStopsAtFailure | com/craftinginterpreters/lox/Interpreter.java:30-42 | at the prompt and from a file alike, a runtime error stops the run: the statements after it never execute |
| AstPrinter.Parenthesized | com/craftinginterpreters/lox/AstPrinter.java:36-48 | the form opens with "(" directly followed by the name and closes with ")" |
| AstPrinter.Text | com/craftinginterpreters/lox/AstPrinter.java:4-35 | every node but a leaf is wrapped in a pair of parentheses |
| AstPrinter.Texts | com/craftinginterpreters/lox/AstPrinter.java:40-44 | one rendering per child, in order |
| AstPrinter.Print | com/craftinginterpreters/lox/AstPrinter.java:4-35 | the visitors produce exactly the prefix form `Text` |
| AstPrinter.Paranthesize | com/craftinginterpreters/lox/AstPrinter.java:36-48 | the buffer loop produces "(" + name, a space and each child's form, then ")" |
| AstPrinter.BinaryShape | com/craftinginterpreters/lox/AstPrinter.java:9-11 | binary prints `(op L R)` |
| AstPrinter.UnaryShape | com/craftinginterpreters/lox/AstPrinter.java:25-27 | unary prints `(op R)` |
| AstPrinter.GroupingShape | com/craftinginterpreters/lox/AstPrinter.java:14-16 | grouping prints `(group E)` |
| AstPrinter.TernaryShape | com/craftinginterpreters/lox/AstPrinter.java:29-31 | ternary prints the two operator lexemes joined, then condition, then-branch, else-branch |
| AstPrinter.Leaves | com/craftinginterpreters/lox/AstPrinter.java:19-35 | a nil literal prints "nil", `true` prints "true", a variable prints its name |
| AstPrinter.TextIsBalanced | com/craftinginterpreters/lox/AstPrinter.java:36-48 | with parenthesis-free leaves, the output has as many "(" as ")" |
| AstPrinter.Demonstration | com/craftinginterpreters/lox/AstPrinter.java:51-61 | `-123 * (45.67)` prints `(* (- 123) (group 45.67))` |
| PostFix.Postordered | com/craftinginterpreters/lox/PostFix.java:29-41 | the form starts with a space and ends with a space and the name |
| PostFix.Text | com/craftinginterpreters/lox/PostFix.java:4-27 | every node but a literal starts with a space, and a binary or unary node ends with a space and its operator |
| PostFix.OperandTexts | com/craftinginterpreters/lox/PostFix.java:32-36 | one rendering per operand, in order |
| PostFix.Print | com/craftinginterpreters/lox/PostFix.java:4-27 | the visitors produce exactly the postfix form `Text` |
| PostFix.Postorder | com/craftinginterpreters/lox/PostFix.java:29-41 | the buffer loop produces a space and each operand's form, then a space and the name |
| PostFix.PrintOperand | com/craftinginterpreters/lox/PostFix.java:24-27 | a child renders as its postfix form, and the synthetic Integer 0 as "0" |
| PostFix.BinaryShape | com/craftinginterpreters/lox/PostFix.java:9-11 | binary renders ` L R op` |
| PostFix.UnaryShape | com/craftinginterpreters/lox/PostFix.java:24-27 | unary renders as a binary with left operand 0: ` 0 R op` |
| PostFix.GroupingShape | com/craftinginterpreters/lox/PostFix.java:13-15 | grouping renders ` E ` with a trailing space |
| PostFix.CompositeEndsWithOperator | com/craftinginterpreters/lox/PostFix.java:29-41 | every composite form starts with a space and ends with its operator |
| PostFix.LiteralText | com/craftinginterpreters/lox/PostFix.java:18-21 | nil prints "nil", any other literal its value's text |
| PostFix.Demonstration | com/craftinginterpreters/lox/PostFix.java:60-61 | `7 + 5` renders ` 7 5 +` |
| PostFix.UnaryDemonstration | com/craftinginterpreters/lox/PostFix.java:56-57 | `-99` renders ` 0 99 -` |

## Left out

- The `clock` native's value: it reads the system clock. Calling it goes through the host, like any other callable.
- Console output and error reporting: printed lines are appended to an `output` log. `Lox.runTimeError` is reduced to the run ending with `Failed` and the error.
- Double arithmetic: numbers are exact reals, so NaN, -0.0, infinities and rounding are not modelled. `Double.toString` is the host's `numberText`.
- Environment.java is not part of this model. Its behaviour is inferred from how the interpreter calls it. A `getAt` or `assignAt` at a distance whose frame lacks the name is reported as an undefined-variable error.
- Evaluator.Invoke: `LoxFunction.call` is the host's `invoke`, so the function's body is not run here. The call's effect on the store is the globals' new values, which the host returns. The frames the call creates are not added to the store. After the call only the callable can reach them, and calling it again goes through the host. This is why evaluating an expression never changes the number of frames.
- Execution.Interpreter.VisitWhileStmt: a loop runs at most `fuel` iterations and then ends with `OutOfFuel`. The same bound applies to the loops nested in its body. A Lox loop that never ends is not represented.
- Execution.Interpreter.Evaluate: only `visitCallExpr` runs as a loop in place. A call nested inside another expression is evaluated through `Evaluator.Evaluate`, whose argument list is a recursive function with the same result.
- A `return` or `break` at top level escapes `interpret` in Java as an uncaught exception. Here it ends the run with the `Returning` or `Breaking` outcome.
- Expr.accept and Stmt.accept double dispatch is a `match` over the node kind.
- Integer literals in the printers' demonstration trees: the model's values have only one kind of number, and `toString` of a number is the host's `numberText`. The demonstrations state which text the host gives for those numbers. PostFix's own `new Expr.Literal(0)` is a separate operand that prints "0".
- AstPrinter's `Variable` with a null name prints "nil". In the model a variable always has a name token.
- The resolver's table is keyed by a node identity number carried by `Variable`, since Java keys it by object identity.
- Tokens carry no literal value. The interpreter does not read it.
- `PostFix` has no ternary or variable visitor and `AstPrinter` has no logical, call or assign visitor. Each printer is defined only on the node kinds it handles.
