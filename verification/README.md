# Integer expressions over a generic stack, in Dafny

A model of the expression pipeline of `cpp_data_structure`'s stack directory and
of the two stacks it is built on, with proofs of what the code promises.

- **Tokens and tokenizer** (`stack/main.cpp`). A `token` is a number (a digit run kept as text) or a
  one-character function symbol. `get_priority` ranks `(` `)` at 0, `+` `-` at 1, `*` `/` at 2, and
  anything else at `size_t(-1)`. The tokenizer walks a cursor over the text:
  - `skip_delimiters` skips the blanks `" \t\r\n"`;
  - `read_digits` reads a digit run;
  - `next` yields one token, reports the end of input, or throws "invalid character".
- **`convert_rpn`**: the simplified Shunting-Yard algorithm. It uses an `array_stack<token>` sized to
  the text's length, and throws "invalid parenthesis pair" in two places.
- **`evaluate_rpn`**: reduces postfix tokens over an `array_stack<int>` sized to the token count.
- **`array_stack<T>`** (`stack/array_stack.cpp`) and **`linked_stack<T>`** (`linked_stack.cpp`): the two
  realisations of the `stack<T>` contract documented in `stack.h`.

How the model is laid out:

- Failures are values: `Result<T>` carries one of the error kinds (`results.dfy`).
- Both stacks are immutable datatypes. Each is given an abstract content sequence with the top last.
  Each operation is stated against the contract predicates `PushSpec`, `PeekSpec` and `PopSpec`
  (`stack_contract.dfy`).
- `peek` and `pop` take the caller's old `item` and hand it back unchanged on failure, as the C++
  reference parameter does. `convert_rpn`'s `)` loop depends on this.
- The converter and the evaluator are written twice:
  - as pure functions over sequences (`Flush`, `CloseGroup`, `Drain`, `Step`, `ConvertFrom`;
    `EvalToken`, `EvalSteps`, `Evaluate`);
  - as methods that run the source's loops over the bounded array stack (`ConvertRpn`, `EvaluateRpn`).
    These are proved equal to the functions. On the way they prove that no `push` is ever refused,
    because the stacks are sized to the input.
- `ConvertFrom` draws tokens one at a time from `Next`, as the source does. A tokenizer error and a
  parenthesis error are therefore reported in the order they are met.
- Correctness is stated against parse trees (`Expr` in `expressions.dfy`):
  - the infix tokens of every well-formed tree convert to its postfix tokens;
  - evaluating the postfix tokens gives the tree's ordinary value (`shunting_yard.dfy`);
  - tokenizing any blank-separated layout of tokens gives those tokens back, whatever it reads is such a layout, and it fails exactly on a stray character (`tokenizer.dfy`);
  - together these give the whole path from text to value (`pipeline.dfy`).
- The driver's expressions, plus the error cases, are converted and evaluated in `scenarios.dfy`. The driver itself only converts its expressions and prints the postfix form.

## Model

| member | source | states |
|---|---|---|
| Tokens.Priority | stack/main.cpp:34-46 | Rank 0 belongs to the parentheses alone. A token ranks at most 2 exactly when it is a function symbol; numbers and unknown symbols get SIZE_MAX. |
| Tokens.PriorityOrder | stack/main.cpp:34-46 | Parentheses rank strictly below every binary operator. `+` and `-` rank 1, `*` and `/` rank 2. |
| Tokenizer.SkipDelimiters | stack/main.cpp:92-99 | The result r satisfies pos ≤ r ≤ length. Everything in [pos, r) is a blank. r is the end of the text or a non-blank. |
| Tokenizer.ReadDigits | stack/main.cpp:101-108 | The result is the end of the maximal digit run starting at pos: all of [pos, r) are digits, and r is the end of the text or a non-digit. |
| Tokenizer.Next | stack/main.cpp:114-131 | It ends exactly when only blanks remain. It fails (InvalidCharacter) exactly when the first non-blank is neither an operator symbol nor a digit. A produced token is well formed and equals the text just read after blanks only. The cursor strictly advances. A number token takes the whole digit run. |
| Tokenizer.TokenizeFrom | stack/main.cpp:114-131 | Repeated `next` calls yield well-formed tokens, at most one per remaining character (so the loop ends). The only failure is InvalidCharacter. Which texts fail, and what a success reads, are stated by the three lemmas below. |
| Tokenizer.TokenizeFails | stack/main.cpp:114-131 | The tokenizer fails exactly when the rest of the text holds a stray character: one that is no blank, no `( ) + - * /` and no digit. |
| Tokenizer.TokenizedLayout | stack/main.cpp:92-131 | Read-then-write: whatever the tokenizer yields is laid out in the text, each token after a blank gap, with a non-empty gap between two numbers. |
| Tokenizer.TokenizeIsLayout | stack/main.cpp:92-131 | The tokenizer yields `ts` exactly when the text is `ts` written with separating blank gaps. |
| Tokenizer.TokenizeLayout | stack/main.cpp:92-131 | Round trip: write well-formed tokens with blank gaps that keep adjacent numbers apart, and the tokenizer reads back exactly those tokens. |
| ArrayStacks.New | stack/array_stack.cpp:3-8 | The constructor gives a valid stack with the requested capacity and no contents. |
| ArrayStacks.IsEmpty | stack/array_stack.cpp:15-18 | `_top == 0` holds exactly when the contents are empty. |
| ArrayStacks.IsFull | stack/array_stack.cpp:20-23 | `_top == _capacity` holds exactly when the contents fill the capacity. |
| ArrayStacks.Size | stack/array_stack.cpp:25-28 | `_top` is the number of elements held. |
| ArrayStacks.Push | stack/array_stack.cpp:30-37 | A full stack refuses and is unchanged. Otherwise the contents become old + [item] and the call returns true. Slots below the old top are unchanged, and the invariant and capacity are kept. |
| ArrayStacks.Peek | stack/array_stack.cpp:39-45 | A non-empty stack gives its last pushed element. An empty stack gives false and `item` keeps its value. |
| ArrayStacks.Pop | stack/array_stack.cpp:47-54 | A non-empty stack hands out its last pushed element and the contents lose it. An empty stack gives false and changes nothing. The buffer is untouched. |
| ArrayStacks.PushThenPop | stack/array_stack.cpp:30-54 | A pop right after a successful push of x yields x and restores the previous contents. |
| LinkedStacks.New | linked_stack.cpp:11-13 | The constructor gives size 0 and no frames: a valid, empty stack. |
| LinkedStacks.IsEmpty | linked_stack.cpp:25-28 | A null top holds exactly when the size counter is 0, and exactly when the contents are empty. |
| LinkedStacks.IsFull | linked_stack.cpp:30-33 | Full means exactly SIZE_MAX elements. |
| LinkedStacks.Size | linked_stack.cpp:35-38 | `_size` is the number of frames in the chain. |
| LinkedStacks.Push | linked_stack.cpp:40-48 | A full stack refuses and is unchanged. Otherwise a new frame goes over the old top, whose `prev` is the old top, and the contents become old + [item]. |
| LinkedStacks.Peek | linked_stack.cpp:50-56 | The top frame's value, or false with `item` unchanged on an empty stack. |
| LinkedStacks.Pop | linked_stack.cpp:58-68 | It hands out the top value and `prev` becomes the new top, so the contents lose their last element. On an empty stack it gives false with no change. |
| LinkedStacks.PushThenPop | linked_stack.cpp:40-68 | A pop right after a successful push of x yields x and restores the very same stack. |
| StackRefinement.ArrayRefines | stack.h:26-47 | On any sequence of push/peek/pop calls within its capacity, the array stack gives exactly the replies and final contents of the abstract LIFO sequence. |
| StackRefinement.LinkedRefines | stack.h:26-47 | On any sequence of calls that stays below SIZE_MAX, the linked stack gives exactly the replies and final contents of the abstract LIFO sequence. |
| StackRefinement.StacksAgree | stack.h:6-47 | A fresh array stack with room for every push and a fresh linked stack cannot be told apart by any call sequence. |
| Converter.FlushKeepsOpens | stack/main.cpp:159-167 | The flush before a `+ - * /` leaves the bottom of the stack in place and pops no `(`, which is what the low rank of the parentheses (main.cpp:37-38) is for. |
| Converter.Flush | stack/main.cpp:159-167 | Before an operator of priority p, the stacked tokens of priority ≥ p are popped in pop order onto the output, and only those. What stays is a bottom part of the stack whose top ranks below p. |
| Converter.CloseGroup | stack/main.cpp:153-158 | A `)` succeeds exactly when a `(` is on the stack; otherwise it fails with UnbalancedParenthesis. On success the topmost `(` is found, everything above it goes to the output in pop order, and the `(` itself is dropped. |
| Converter.Drain | stack/main.cpp:171-175 | End of input succeeds exactly when no `(` is left, and then appends the whole stack in pop order. Otherwise it fails with UnbalancedParenthesis. |
| Converter.CloseGroupOnStack | stack/main.cpp:153-158 | The `)` loop over the array stack (pop while the popped token is not `(`, then test the last popped value) agrees with `CloseGroup`, failure included. |
| Converter.FlushOnStack | stack/main.cpp:160-167 | The peek/pop loop over the array stack agrees with `Flush`. |
| Converter.DrainStack | stack/main.cpp:171-176 | The final pop loop over the array stack agrees with `Drain`. |
| Converter.Step | stack/main.cpp:148-169 | One token fails exactly when it is a `)` and no `(` is stacked, with UnbalancedParenthesis. The output only grows at its end; a number goes straight to it, and an operator or `(` ends on top of the stack. |
| Converter.ConvertFrom | stack/main.cpp:148-175 | Drawing tokens from `next` and converting them fails only with InvalidCharacter or UnbalancedParenthesis, and keeps what was already emitted at the head of the output. Pipeline.ConvertAgreesWithTokens ties it to the token-level conversion. |
| Converter.ConvertRpn | stack/main.cpp:133-177 | The whole `convert_rpn` over an array stack sized to the text gives exactly the reference conversion, for successes and failures alike. |
| ConverterProperties.StepPreserves | stack/main.cpp:148-169 | One token fails exactly when it is a `)` and no `(` is stacked. Otherwise the operator stack keeps holding only `(` and operators, the output stays free of parentheses, and each non-parenthesis token lands on the output or the stack once. The numbers go out in order, and the count of stacked `(` follows the nesting depth. |
| ConverterProperties.CompleteBalanced | stack/main.cpp:148-175 | From a sound state, the rest of the conversion succeeds exactly when the remaining tokens close the open groups and no more. Its only failure is UnbalancedParenthesis. |
| ConverterProperties.CompleteAccounts | stack/main.cpp:148-176 | From a sound state, a successful conversion emits every non-parenthesis token (already emitted, stacked, or still to come) exactly once. The output has no parentheses, and the numbers keep their input order. |
| ConverterProperties.ConversionProperties | stack/main.cpp:133-177 | Converting tokens succeeds exactly on balanced parentheses, and otherwise fails with UnbalancedParenthesis. On success the output is a permutation of the non-parenthesis tokens, so it has the same length. It has no parentheses, and the numbers appear in input order. |
| Pipeline.ConvertAgreesWithTokens | stack/main.cpp:144-148 | Drawing tokens lazily converts exactly as tokenizing first, whenever the tokenizer succeeds. When the tokenizer fails, so does the conversion, with InvalidCharacter or an UnbalancedParenthesis met earlier. |
| Pipeline.ConvertProperties | stack/main.cpp:133-177 | A text converts exactly when it tokenizes and its parentheses balance. Failures are InvalidCharacter or UnbalancedParenthesis. A stray character always fails the conversion, and InvalidCharacter arises only from one. On success the output holds the text's numbers and operators once each, with the numbers in text order. |
| ShuntingYard.FlushPending | stack/main.cpp:160-167 | Over a lower stack whose top ranks below p, flushing for priority p pops exactly the pending tokens ranked p or more, in pop order, and stops there. |
| ShuntingYard.ClosePending | stack/main.cpp:153-158 | A `)` pops exactly the operators above the matching `(`, in pop order. |
| ShuntingYard.RunInfix | stack/main.cpp:148-169 | The Shunting-Yard invariant: reading the infix tokens of a well-formed tree pushes its pending operators and emits the rest of its postfix form, and leaves whatever lay below on the stack untouched. |
| ShuntingYard.ConvertsToPostfix | stack/main.cpp:133-177 | The infix tokens of every well-formed tree convert to its postfix tokens. Equal priorities flush first, which gives left associativity, and `*` `/` bind tighter than `+` `-`. |
| ShuntingYard.GroupingIsInvisible | stack/main.cpp:151-158 | Redundant parentheses around an expression do not change its conversion. |
| Evaluator.TruncDiv | stack/main.cpp:197-198 | C++ `/` on `int`: the quotient rounds toward zero. The remainder is smaller than the divisor in magnitude and is zero or has the dividend's sign. |
| Evaluator.Apply | stack/main.cpp:191-201 | An operator symbol outside `+ - * /` fails with InvalidOperator. `/` by zero fails with DivisionByZero. `/` otherwise is the truncating quotient. |
| Evaluator.DecimalValue | stack/main.cpp:184 | A run of k decimal digits has a value below 10^k, and of at least 10^(k-1) when it does not start with 0. |
| Evaluator.DecimalFront | stack/main.cpp:184 | Reading the digits from the front, as `std::stoi` does: the leading digit counts 10^k for the k digits after it, plus the value of the rest. With DecimalValue's reading from the back, this fixes the value of every digit run. |
| Evaluator.EvalToken | stack/main.cpp:183-203 | A number pushes its value, and fails only when its text is no digit run. An operator on fewer than two values fails with InsufficientOperands. Otherwise it succeeds exactly when `left op right` does, left being the lower value: on success the top two values are replaced by the result and the rest of the stack is left alone, and on failure the operation's error (InvalidOperator or DivisionByZero) is reported. |
| Evaluator.Evaluate | stack/main.cpp:182-208 | A value comes out only of a token sequence with exactly one more number than operators; no tokens give MalformedExpression. Pipeline.EndToEnd and ShuntingYard.EvaluatesToValue give the value. |
| Evaluator.EvaluateRpn | stack/main.cpp:179-209 | `evaluate_rpn` over an array stack sized to the token count gives exactly the reference evaluation, failures included. |
| Evaluator.EvalStepsArity | stack/main.cpp:182-204 | A successful run grows the value stack by the number of numbers minus the number of operators. |
| Evaluator.EvaluateArity | stack/main.cpp:205-206 | A successful evaluation reads exactly one more number than operators. |
| ShuntingYard.EvalPostfix | stack/main.cpp:182-204 | Evaluating the postfix tokens of a tree over any value stack pushes the tree's value, or fails with the tree's error. The right operand is popped first. |
| ShuntingYard.EvaluatesToValue | stack/main.cpp:179-209 | Evaluating the postfix form of a well-formed tree gives its ordinary left-to-right, precedence-respecting value. |
| Pipeline.EndToEnd | stack/main.cpp:133-209 | Any blank layout of a well-formed tree's infix tokens converts to its postfix form, and that evaluates to the tree's value. |
| Pipeline.ShownEndToEnd | stack/main.cpp:133-209 | The same for the tree written the usual way: spaces around operators, none inside parentheses. |
| Scenarios.Example1 | stack/main.cpp:214 | `3 * 8 + 4` converts to `3 8 * 4 +`, which evaluates to 28. |
| Scenarios.Example2 | stack/main.cpp:216 | `72 / (12 - 6)` converts to `72 12 6 - /`, which evaluates to 12. |
| Scenarios.Example3 | stack/main.cpp:215 | `4 - 2 * (6 - 3) / (3 * (11 - 3))` converts to `4 2 6 3 - * 3 11 3 - * / -`, which evaluates to 4. |
| Scenarios.Example4 | stack/main.cpp:213 | `(4 - 19) * (7 + 19) + 19 * (7 - 4 + 19)` converts to `4 19 - 7 19 + * 19 7 4 - 19 + * +`, which evaluates to 28. |
| Scenarios.Example5 | stack/main.cpp:217 | `1 * 1 * 1 * ((1 * 1) *` fails with UnbalancedParenthesis. |
| Scenarios.Example6 | stack/main.cpp:124-127 | `3 $ 4` fails with InvalidCharacter once the tokenizer reaches `$`. |
| Scenarios.Example7 | stack/main.cpp:197-198 | `4 / (2 - 2)` converts, and its evaluation fails at the zero divisor (this model's DivisionByZero). |
| Scenarios.EmptyInput | stack/main.cpp:205-206 | Blank text converts to no tokens, and evaluating no tokens fails with MalformedExpression. |

## Left out

- `main` and its console output (stack/main.cpp:211-231) are I/O. It calls only `convert_rpn`; its expressions appear as the scenario lemmas, which also evaluate them.
- The destructors of both stacks are manual memory release. The frame chain is a datatype, so there is nothing to free.
- C++ `int` overflow in `+ - * /` is undefined behaviour in the source (for `/`, only `INT_MIN / -1`). The model uses unbounded integers.
- Evaluator.EvalToken: `std::stoi` is not modelled in full. The model reads a digit run as a natural number and gives InvalidNumber for any other token text. `std::stoi` is more lenient: it reads "-3" as -3, " 5" as 5 and "12x" as 12, and throws `std::invalid_argument` only when no number leads the text. Its `std::out_of_range` for values beyond `int` is not modelled either. The tokenizer only produces digit runs, so the two agree on every number token the conversion emits whose value fits in `int`.
- Evaluator.Apply: division by zero is undefined behaviour in the source, which has no guard. The model reports it as a DivisionByZero error instead.
- Exception messages are not modelled; each failure is an error kind. The source reuses "invalid number in expression." for two cases: too few operands (InsufficientOperands) and a final stack that does not hold exactly one value (MalformedExpression).
- Allocation failure is not modelled: `new T[capacity]` (stack/array_stack.cpp:7) and `new frame` (linked_stack.cpp:44) can throw `std::bad_alloc`, while the model's array stack always gets its buffer and its linked stack refuses a push only at SIZE_MAX.
- `std::isdigit` locale effects are not modelled; digits are ASCII `0`-`9`.
- LinkedStacks.IsFull: `size_t` is taken to be 64 bits, so SIZE_MAX is 2^64 - 1. Nothing else about machine width is modelled.
- Token text comparisons such as `m_value == "("` are modelled as comparisons with the function token `(`. Only function tokens ever reach the operator stack, so the two agree.
- `queue/queue.h` is an interface with no implementation, and nothing uses it. `stack/stack.h` repeats the declarations of `stack.h` without their comments.
- The source's C++ class hierarchy (`array_stack` and `linked_stack` deriving from `stack<T>`) is a shared contract in this model (`StackContract`, and `StackRefinement` over call sequences), not a Dafny trait.
- The `tokenizer` object's mutable cursor is a cursor parameter (`Next(s, pos)` returns the advanced cursor).
- The source throws one and the same runtime error for too few operands and for a final stack without exactly one value (stack/main.cpp:186-187 and 205-206), and has no check before the `/` at stack/main.cpp:198. The model follows the code's control flow: each throw site fails at the same point and for the same inputs. It names the two sites apart, and it reports the unguarded zero divisor as an error rather than leaving it undefined.
