# hc — the RPN stack, the number-input decoder and the saved stack, in Dafny

hc is a terminal Reverse Polish Notation calculator. This project models the three pure parts of it:

- **The operand stack** (`src/stack.rs`). The deque of decimals is a `seq<Dec>` whose index 0 is the top. `Stack::apply` takes one of the seven operations `Push`, `Add`, `Subtract`, `Multiply`, `Divide`, `Duplicate` and `Pop`. `pop<C>` is the only step that can fail. It checks the depth, then copies and drains the top `C` elements. A call that mutates the deque is modelled as a function from the deque before the call to the pair (deque after, outcome). That way, "a failing call leaves the deque as it was" is something the proofs establish. It is not built into the model's shape.
- **The number-input decoder** (`src/input.rs`). `InputState::value` rejects empty text with its own error. It turns a leading `_` into `-` and hands the text to the decimal parser. `is_empty` and `is_valid` are derived from it.
- **The saved stack** (`src/state.rs`). These are the two conversions between the saved list of strings and the deque. Reading is all-or-nothing and keeps order. Writing prints one string per value.

The decimal library is only partly modelled. A `Dec` is an unscaled integer with a base-10 scale. `Plus`, `Minus` and `Times` are exact: they are proved to add, subtract and multiply the real numbers the operands stand for (`Decimal.Value`). Only that value is claimed to agree with the library. The scale each result carries is the model's own choice. The library's `from_str`, `to_string` and `/` are function-valued parameters (`Parser`, `Printer`, `Quotient`). So every property below holds for any parser, printer and quotient.

Files: `results.dfy` (the `Result` type), `decimal.dfy`, `stack.dfy`, `input.dfy`, `state.dfy`.

Facts about the code that shape the model:
- `Op` has exactly seven variants (`src/stack.rs:19-27`). `src/hc.rs:65-77` also names `Modulo`, `Pow`, `Sqrt`, `Precision` and `Rotate`, which do not exist in that enum.
- There is no undo/redo history and no display precision.
- `pop` returns the popped elements top first. Binary operations bind them as `[b, a]` and push `a OP b`, where `a` is the element beneath `b`.
- `MissingValue` is the only stack error.
- `State` holds only `stack`, the list of strings.

## Model

| member | source | states |
|---|---|---|
| Stack.PopN | src/stack.rs:76-89 | Fails exactly when the deque is shorter than `c`. The error is `MissingValue(c)` and the deque is untouched. On success it returns exactly `c` elements, top first. Those elements followed by the remaining deque give back the old deque. |
| Stack.Apply | src/stack.rs:39-70 | Fails exactly when the stack holds fewer elements than the operation takes. The error is `MissingValue` of that number, and the stack is returned unchanged. On success the length is old length − operands + results, and everything below the operands is unchanged and in order. |
| Stack.ApplyPush | src/stack.rs:41-43 | `Push(v)` never fails and yields `[v] + old`. |
| Stack.ApplyBinary | src/stack.rs:44-59 | On `[b, a] + rest`, Add, Subtract, Multiply and Divide yield `[a OP b] + rest`. The second element is the left operand and the top is the right one. |
| Stack.BinaryOnPair | src/stack.rs:44-59 | On a stack of exactly `[b, a]`, a binary operation leaves just `[a OP b]`. |
| Stack.ApplyArithmeticValue | src/stack.rs:44-55 | Add, Subtract and Multiply succeed on `[b, a] + rest`. The new top stands for exactly a + b, a − b or a × b. |
| Stack.BinaryNeedsTwo | src/stack.rs:44-59 | A binary operation on fewer than two elements returns `MissingValue(2)` and the same stack. |
| Stack.ApplyDuplicate | src/stack.rs:60-64 | `Duplicate` turns `[a] + rest` into `[a, a] + rest`. On an empty stack it fails with `MissingValue(1)`. |
| Stack.ApplyPop | src/stack.rs:65-67 | `Pop` turns `[a] + rest` into `rest`. On an empty stack it fails with `MissingValue(1)`. |
| Stack.PushThenPop | src/stack.rs:160-167 | Pushing any value and then popping succeeds and restores the stack it started from. |
| Stack.From | src/stack.rs:35-37 | Building a stack from a list and then popping as many elements as the list holds succeeds, returns the list in its own order and leaves the stack empty: the list's first value is the top. |
| Stack.Snapshot | src/stack.rs:72-74 | Returns every element of the stack in stack order. |
| Stack.FromThenSnapshot | src/stack.rs:35-37 | A stack built from a list snapshots to that list, and the list's first value is the one popped first. |
| Stack.FromState | src/stack.rs:92-101 | Succeeds exactly when every saved string parses. Then it has one element per string, in order, so the first string becomes the top. Otherwise the error is the parser's error for the first string that fails. |
| Stack.AddExample | src/stack.rs:108-116 | 10 then 20 pushed, then Add, leaves exactly [30]. |
| Stack.SubtractExample | src/stack.rs:118-126 | 10 then 20 pushed, then Subtract, leaves exactly [−10]. |
| Stack.MultiplyExample | src/stack.rs:128-136 | 10 then 20 pushed, then Multiply, leaves exactly [200]. |
| Stack.DivideExample | src/stack.rs:138-146 | 20 then 10 pushed, then Divide, leaves the library's quotient of 20 by 10 (dividend 20, divisor 10). |
| Stack.PushOrderExample | src/stack.rs:110-112 | Pushing 10 then 20 onto an empty stack leaves 20 on top of 10. |
| Stack.DuplicatePopExamples | src/stack.rs:148-167 | [1] with Duplicate gives [1, 1]; [1] with Pop gives []. |
| Decimal.Plus | src/stack.rs:46 | The sum's value is exactly the sum of the values. Its scale is the model's choice, the larger of the two scales. |
| Decimal.Minus | src/stack.rs:50 | The difference's value is exactly the difference of the values. Its scale is the model's choice, the larger of the two scales. |
| Decimal.Times | src/stack.rs:54 | The product's value is exactly the product of the values. Its scale is the model's choice, the sum of the two scales. |
| Input.ParserText | src/input.rs:52-55 | The text the parser sees has the input's length. A leading `_` becomes `-`, and every other character, including any later `_`, is as typed. |
| Input.Decode | src/input.rs:47-57 | `Err(Empty)` exactly for the empty text. `Err(Invalid)` exactly when the text is non-empty and the parser rejects the rewritten text. Otherwise it returns the parser's decimal. |
| Input.IsEmpty | src/input.rs:59-61 | The input is empty exactly when its text is empty. |
| Input.IsValid | src/input.rs:63-65 | The input is valid exactly when its text is empty or the parser accepts the rewritten text. |
| Input.EmptyIsValidWithoutValue | src/input.rs:104-108 | The empty input is empty and valid, and yet its value is `Err(Empty)`. |
| Input.UnderscoreIsMinus | src/input.rs:53-55 | For `"_" + rest`, the parser sees `"-" + rest`, and the outcome is the parser's answer on that text. |
| Input.NoUnderscoreUnchanged | src/input.rs:52-56 | Non-empty text that does not start with `_` reaches the parser unchanged. |
| Input.InputExamples | src/input.rs:102-124 | With a parser that reads "123" and "-123" and rejects "abc": "123" gives 123 and is valid, "abc" gives `Invalid` and is not valid, and "_123" gives −123 and is valid. |
| State.ParseEntries | src/state.rs:22-28 | Reference reading of a saved list. It succeeds exactly when every entry parses. Then there is one decimal per entry, and entry `i` parses to element `i`. Otherwise the error is that of the first entry that fails. |
| State.ToValues | src/state.rs:19-28 | The loop that parses each entry and appends it at the back returns exactly what `ParseEntries` returns. So it inherits that function's guarantees: same length, same order, all or nothing, and the first failing entry's error. |
| State.FromValues | src/state.rs:31-36 | Writes exactly one string per value, and string `i` is the printed value `i`. |
| State.Default | src/state.rs:14-17 | The default state has no saved entries. |
| State.DefaultReadsEmpty | src/state.rs:14-17 | The default state, with nothing saved, reads back as an empty deque. |
| State.SaveThenLoad | src/state.rs:19-36 | If the parser reads back what the printer prints for each value, then writing a deque and reading it back gives the same deque. |

## Left out

- The terminal application in `src/hc.rs` (`App`, key handling, rendering), `src/help.rs` and `src/main.rs`: these are terminal I/O and widget layout.
- `InputWidget::render`, `InputState::with_value`, `reset`, `handle_event` and `cursor`: these are thin wrappers over the text-input widget. The input buffer is modelled as the plain text it holds.
- `load`, `save` and `config_file` in `src/state.rs`: these do file-system, environment and JSON I/O.
- The decimal library's parser, printer and division: they are parameters of the model, and no property of them is assumed. `State.SaveThenLoad` states its read-back condition as a hypothesis.
- Stack.Apply: a `Divide` whose top element is zero is excluded by a precondition. The stack does not check the divisor, and the library's division is not modelled for a zero divisor. No error is claimed for that case.
- Stack.DivideExample: the quotient's value is not modelled, so the example states that the library is asked for 20 ÷ 10. It does not state that the answer is 2.
- Decimal.Times: only the product's value is claimed to match the library. The result's scale is the model's choice; the library may, for example, return one operand unchanged when the other equals one. The library adds the two scales as 64-bit integers, and that sum can overflow; the model's unbounded scale does not represent the overflow.
- Decimal.Plus: only the sum's value is claimed to match the library, and the result's scale, the larger of the two, is the model's choice. The same holds for `Decimal.Minus`. Neither can overflow the scale.
- `Stack::new` (test-only) is the empty sequence and has no separate member.
- `src/stack.rs:97` reads the private field `State.stack`, and `src/hc.rs:95` needs a conversion from `Stack` to `State` that is not in the sources. Each file is modelled as written, and that missing conversion is not part of this model.
