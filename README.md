# RPN calculator: tree builder and deferred evaluator

This project models the core of a reverse-Polish-notation calculator and proves properties of the model in Dafny. The calculator does not compute while tokens arrive. Each token is resolved against a registry of operators. If it is not an operator, it is handed to the operand parser, which may accept it as a literal. An operator pops as many command roots as its arity asks for, and its transformer builds new command nodes from them. Every node the engine pushes back is wrapped in a memo cell. `evaluate` forces the roots bottom to top. Each root's failure stays its own.

Modules, one per part of the core:

- `Stacks`: the operand stack `OperandStack`, with push and pop in bulk, a snapshot, a shallow size and a weighted size. Pop reverses its buffer in place with `Reverse`.
- `Commands`: the command tree as a datatype. `Apply` forces a node, `Forced` lists the nodes forced in call order, `Undo` gives the direct children, and `Size` counts the nodes.
- `Registry`: arities (`ArgSize`), command definitions with their transformers, and the table of the seven operators. `CommandRegistry` fills the table in place and resolves a token.
- `Caching`: the memo cell `CachedCommand`, which applies its inner command at most once and keeps the outcome, success or failure.
- `Engine`: `Step` and `Run` give the effect of one token and of a batch as functions of the roots. The `Calculator` class is proved to follow them. `Message` renders the two build-time errors.
- `Scenarios`: token sequences from the calculator's test suite, replayed on the model with abstract operands.

The operand type is a type parameter `E`. Its arithmetic is a record of partial operations (`Arithmetic<E>`), and a failing operation returns `Left`. The operand parser is a function parameter `string -> Option<E>`.

## Model

| member | source | states |
|---|---|---|
| Stacks.OperandStack.Size | src/main/java/rpn/Stack.java:45-47 | the shallow size is the number of elements |
| Stacks.OperandStack.AllSize | src/main/java/rpn/Stack.java:50-52 | the weighted size bounds every element's own size, and is 0 on an empty stack; it is the sum `SumOf` of the element sizes |
| Stacks.SumOfAppend | src/main/java/rpn/Stack.java:50-52 | the weighted size of two stacked sequences is the sum of their weighted sizes |
| Stacks.OperandStack.Push | src/main/java/rpn/Stack.java:60-69 | the contents become the old contents followed by the batch, in the batch's order; an empty batch changes nothing |
| Stacks.OperandStack.Pop | src/main/java/rpn/Stack.java:72-87 | a count below 1 or above the size returns nothing and changes nothing; otherwise the top n elements come back bottom-to-top and the stack keeps the rest |
| Stacks.Reverse | src/main/java/rpn/Stack.java:85 | the array ends up reversed in place |
| Stacks.OperandStack.AllElements | src/main/java/rpn/Stack.java:90-92 | the snapshot is the contents bottom-to-top, and the stack is not modified |
| Stacks.PushThenPop | src/test/java/test/rpn/StackConcurrentTest.java:78-82 | pushing a batch and popping as many elements returns the batch and restores the stack |
| Commands.Size | src/main/java/rpn/CommandRegistry.java:132-134 | every tree has at least one node |
| Commands.SizeIsOnePlusChildren | src/main/java/rpn/CommandRegistry.java:127-134 | a node's size is one more than the total size of the children its undo returns |
| Commands.ChildrenAreSmaller | src/main/java/rpn/CommandRegistry.java:165-172 | each child that undo returns is strictly smaller than its parent |
| Commands.BinaryForcesLeftThenRight | src/main/java/rpn/CommandRegistry.java:113-124 | a binary node forces its left operand first; a left failure is the result and the right operand is not forced; then a right failure is the result; otherwise the operator is applied to (left, right) |
| Commands.CachedIsTransparent | src/main/java/rpn/CacheStrategy.java:27-45 | a memo cell has the value, the children and the size of the command it wraps |
| Registry.ArgSize.Value | src/main/java/rpn/CommandRegistry.java:244-253 | the value is -1 exactly for All, and 0 to 2 for the fixed arities |
| Registry.CommandDefinition.Transform | src/main/java/rpn/CommandRegistry.java:102-204 | literal, unary and binary transformers build exactly one node whose undo gives back the inputs and whose size is one more than theirs; clear yields nothing; undo yields the children of its input; what the node computes is `TransformComputes` |
| Registry.TransformComputes | src/main/java/rpn/CommandRegistry.java:109-124 | for every arithmetic: the literal node evaluates to its operand; the unary node passes on its input's failure and otherwise applies its operator; the binary node passes on the first input's failure, then the second's, and otherwise applies its operator with the first input on the left |
| Registry.ResolveCases | src/main/java/rpn/CommandRegistry.java:31-74 | exactly the seven symbols resolve to their operators, whatever the parser says; any other token is a literal when it parses and unknown when it does not |
| Registry.CommandRegistry.Register | src/main/java/rpn/CommandRegistry.java:31-74 | filling the empty table gives the table of the seven operators |
| Registry.CommandRegistry.Get | src/main/java/rpn/CommandRegistry.java:91-96 | the lookup agrees with `Resolve`: the table first, then the operand parser |
| Caching.CachedCommand.Apply | src/main/java/rpn/CacheStrategy.java:27-35 | the first call applies the inner command once and stores its outcome; later calls return the stored outcome without applying again; the outcome is the value of the inner command, failures included |
| Caching.CachedCommand.Undo | src/main/java/rpn/CacheStrategy.java:38-40 | undo is the inner command's undo |
| Caching.CachedCommand.Size | src/main/java/rpn/CacheStrategy.java:43-45 | size is the inner command's size |
| Caching.ApplyRepeatedly | src/test/java/test/rpn/CachingStrategyTest.java:21-30 | forcing a cell n times yields the same outcome every time, and the inner command runs at most once (exactly once when n > 0) |
| Engine.Decimal | src/main/java/rpn/Calculator.java:74 | the position is printed as decimal digits without a leading zero |
| Engine.DecimalRoundTrip | src/main/java/rpn/Calculator.java:74 | reading the printed digits back gives the number |
| Engine.MessageDeterminesPosition | src/main/java/rpn/Calculator.java:72-74 | two insufficient-parameter messages for the same operator are equal only when their positions are |
| Engine.ApplyEach | src/main/java/rpn/Calculator.java:37-39 | one result per root, each the value of that root alone |
| Engine.StepErrors | src/main/java/rpn/Calculator.java:58-74 | a token is unknown exactly when it resolves to nothing; it has too few parameters exactly when its arity is fixed and exceeds the number of roots; the position reported is the weighted size plus one; on either error the roots are unchanged |
| Engine.StepSuccess | src/main/java/rpn/Calculator.java:75-77 | a fixed-arity token keeps the roots below its operands and replaces the top `arity` roots by its wrapped transformer output |
| Engine.ClearEmptiesTheStack | src/main/java/rpn/Calculator.java:67-70 | clear succeeds and leaves no roots, even on an empty stack |
| Engine.WeightAfterStep | src/main/java/rpn/Calculator.java:58-83 | a successful literal or operator adds one to the weighted size, undo takes one away, and clear leaves zero |
| Engine.WeightOfReplacement | src/main/java/rpn/Calculator.java:75-77 | the fixed-arity case of `WeightAfterStep`, stated for the popped roots and what replaces them |
| Engine.UndoOfTop | src/main/java/rpn/CommandRegistry.java:68-73 | undo on a stack whose top root is a node replaces that root by the node's children, each wrapped, and keeps the roots below |
| Engine.StepThenUndo | src/main/java/rpn/Calculator.java:75-77 | a literal or operator followed by undo succeeds and gives back the roots it consumed, each in one more memo cell, with the roots below untouched |
| Engine.UndoRestoresValues | src/test/java/test/rpn/CalculatorTest.java:103-104 | after a literal or operator and an undo, every root evaluates as before and the weighted size is the same |
| Engine.RewrapIsUnobservable | src/main/java/rpn/Calculator.java:77 | wrapping roots in one more memo cell changes neither their values nor the weighted size |
| Engine.RunAppend | src/main/java/rpn/Calculator.java:44-51 | a batch is its first part followed by the rest, unless the first part failed, in which case the rest is not applied |
| Engine.StopsAtFirstFailure | src/main/java/rpn/Calculator.java:44-51 | the first failing token's error is the batch's result, and the roots are those the tokens before it built |
| Engine.Calculator.Push | src/main/java/rpn/Calculator.java:58-83 | the returned error and the new roots are those of `Step` on the old roots |
| Engine.Calculator.PushAll | src/main/java/rpn/Calculator.java:44-51 | the returned error and the new roots are those of `Run` on the old roots |
| Engine.Calculator.Evaluate | src/main/java/rpn/Calculator.java:37-39 | one result per root, bottom-to-top, each the value of that root alone |
| Scenarios.InsufficientAtPositionEight | src/test/java/test/rpn/CalculatorTest.java:76-82 | "1 2 3 * 5 + * * 6 5" fails at the last "*" with position 8 and keeps the single root 1 * (2 * 3 + 5) |
| Scenarios.UndoWithNothingToUndo | src/test/java/test/rpn/CalculatorTest.java:84-91 | "undo 3 4" on an empty stack fails at position 1 and pushes nothing |
| Scenarios.FourLiterals | src/test/java/test/rpn/CalculatorTest.java:49 | "5 4 3 2" pushes four literal roots in order |
| Scenarios.UndoTwiceThenMultiply | src/test/java/test/rpn/CalculatorTest.java:50 | "undo undo *" on those roots leaves the single root 5 * 4 |
| Scenarios.MultiplyByFive | src/test/java/test/rpn/CalculatorTest.java:51 | "5 *" multiplies that root by a new 5 |
| Scenarios.UndoProduct | src/test/java/test/rpn/CalculatorTest.java:52 | "undo" gives back the roots 5 * 4 and 5, which evaluate to the product and to 5 |
| Scenarios.RecoveryBuild | src/test/java/test/rpn/CalculatorTest.java:110-113 | "1 2 3 + - sqrt 2 * 6 5 *" succeeds and leaves the roots sqrt(1 - (2 + 3)) * 2 and 6 * 5 |
| Scenarios.RecoveryEvaluate | src/test/java/test/rpn/CalculatorTest.java:114-117 | when the square root fails, the first root reports that failure and the second is still 6 * 5 |

## Left out

- Number.java, the decimal operand type, is not part of this model. Its arithmetic uses BigDecimal and double, and its output is formatted text. The operand is a type parameter with partial operations, so no numeric result such as "1.4142135623" is stated.
- Locks, `volatile` fields and double-checked locking are not modelled. The stack and the memo cell are sequential, and `CachedCommand.Apply` keeps both tests of the unset result, without the lock between them.
- `Calculator.main` and CalculatorDemo.java read from standard input and print. That I/O is not modelled.
- The older `src/rpn` draft is not part of this model.
- Exceptions are modelled as values. A build error is a `PushError`, and an arithmetic failure is `Left(Failure)`. The exception classes are not modelled; `Message` gives the text of the two build errors.
- Engine.Calculator.Push: the stack provider is fixed to a new empty `OperandStack`.
- Registry.CommandDefinition.Transform: the wrong-count exception in `getTransformer` becomes a precondition, which the engine always meets.
- Commands.Apply: the memo state of the cells inside a tree is not followed. Their values are modelled through `Cached`, whose value is that of the command it wraps. `Caching.CachedCommand` models one cell's state on its own.
- Commands.Size: Java's 32-bit `int` is not modelled; sizes and positions are unbounded.
- Scenarios: the exact message strings the tests compare are not proved. The errors are stated as `PushError` values, and `MessageDeterminesPosition` shows that the message carries the position.
- Scenarios: the last line of the recovery test (six undos followed by a second build) is not replayed.
- Caching.CachedCommand.Apply: the inner command is taken never to return null, as the registry's nodes never do. The source marks an unset cell by a null result, so a command that returns null would be re-run on every call; the model's `Option` marker cannot express that case.
- Stacks.OperandStack.Push: a null batch, which the Java code rejects with an exception, has no counterpart in the model.
