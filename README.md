# Parser combinators over a token cursor with a one-slot checkpoint

This project models the `Parser` trait of `core/src/common/combinator.rs`.
A token stream supplies six capabilities: peek (`preview`), take (`consume`), `current_pos`, `error`, and the one-slot checkpoint `save` / `load`.
From these the trait derives `next`, `predicate`, `atom`, `string`, `try`, `choose`, `many`, `many1` and `optional`.
The only stream in the repository is the test struct `TP`: a vector of tokens, a `cursor` and a `saved_cursor`.

The model has three modules.

- `Semantics` (semantics.dfy) is the reference semantics. Each operation is a pure function from the token sequence and a cursor position to a `Reply`, which holds the result and the cursor afterwards. The lemmas state what the combinators promise:
  - `string` either matches a prefix or stops at the first mismatch.
  - `choose` is ordered choice with full rollback.
  - `many` returns the maximal run of successes.
  - `many1` is `many` when its first attempt succeeds, and that attempt's error otherwise.
- `Streams` (stream.dfy) holds the class `Stream`, which is `TP` together with the trait's derived operations as methods.
  - `cursor` and `savedCursor` are fields that the methods update in place, and `Save` / `Load` overwrite and read the single checkpoint slot.
  - Every method keeps `cursor <= |input|` and `savedCursor <= |input|` (`Valid()`).
  - `Next`, `Predicate`, `Atom`, `String`, `Apply`, `Try`, `Choose`, `Many` and `Many1` are proved equal to their reference functions. `Optional`'s cursor is given through `StepAt`, and the capabilities `Preview`, `Consume`, `Save` and `Load` are specified directly.
  - Every combinator method also states what it leaves in the checkpoint slot.
- `StreamTests` (stream_tests.dfy) replays the repository's unit tests as client methods on `Stream<int>`. Their postconditions are the outcomes the tests expect, and each follows from the `Stream` contracts.

The Rust closures passed to `try`, `choose`, `many`, `many1` and `optional` become values of the datatype `Step`: `Next`, `Pred(f)`, `Atom(t)` or `Str(s)`. These are the operations the tests pass as closures.
The formatted error strings become the datatype `Error`:
- `UnexpectedEof` is "unexpected eof".
- `UnexpectedToken(x)` is "unexpected token x".
- `UnexpectedTokenExpected(x, y)` is "unexpected token x, expected y".

Like the strings in the source, the error from a rejected predicate and the error `choose` builds are the same value when they name the same token.

The end-of-input error is "unexpected eof".
The checkpoint is one slot that `save` overwrites. None of the modelled steps calls `save`, so `Try` still restores the cursor.

## Model

| member | source | states |
|---|---|---|
| `Semantics.NothingMatches` | core/src/common/combinator.rs:70-73 | The error choose builds is the one predicate reports for a rejected token under the cursor, or the end-of-input error next reports. It never names an expected token. |
| `Semantics.NextAt` | core/src/common/combinator.rs:14-16 | next succeeds exactly when a token is under the cursor. It then returns that token and advances by one. Otherwise it fails with `UnexpectedEof` and does not move. |
| `Semantics.PredAt` | core/src/common/combinator.rs:18-27 | With a token under the cursor, predicate consumes it whether accepted or not. It returns the token if accepted, else `UnexpectedToken(token)`. At end of input it fails with `UnexpectedEof` and does not move. |
| `Semantics.AtomAt` | core/src/common/combinator.rs:29-36 | With a token under the cursor, atom consumes it either way. It returns the expected token on equality, else `UnexpectedTokenExpected(actual, expected)`. At end of input it fails with `UnexpectedEof` and does not move. |
| `Semantics.StrAt` | core/src/common/combinator.rs:38-50 | The cursor never moves backwards or past the input. On success the result has `|s|` tokens and the cursor has moved exactly `|s|`. |
| `Semantics.StrAtMatch` | core/src/common/combinator.rs:38-50 | When `s` occurs at the cursor, string returns exactly `s` and the cursor moves to just past it. |
| `Semantics.StrAtMismatch` | core/src/common/combinator.rs:38-50 | If the first `i` tokens match and token `i` differs, string fails with that atom's error and the cursor is at start+i+1. If the input ends there instead, it fails with `UnexpectedEof` and the cursor is at the end. There is no rollback. |
| `Semantics.StrAtOkIffMatches` | core/src/common/combinator.rs:38-50 | string succeeds if and only if `s` occurs at the cursor. |
| `Semantics.StepAt` | core/src/common/combinator.rs:52-56 | A step never moves the cursor backwards or past the input. A consuming step that succeeds moves it forward. |
| `Semantics.TryAt` | core/src/common/combinator.rs:52-60 | try returns the step's own result, with errors unchanged. On success the cursor is where the step left it. On failure the cursor is back at its value on entry. |
| `Semantics.ChooseAt` | core/src/common/combinator.rs:62-74 | choose leaves the cursor within the input. The three lemmas below give its full meaning. |
| `Semantics.ChooseAtFirstSuccess` | core/src/common/combinator.rs:62-68 | If candidates 0..i-1 fail from the cursor and candidate i succeeds, choose returns exactly candidate i's result and cursor. |
| `Semantics.ChooseAtAllFail` | core/src/common/combinator.rs:62-74 | If every candidate fails, choose fails at the original cursor. The error names the token there, or is `UnexpectedEof` at end of input. The candidates' own errors are discarded. |
| `Semantics.ChooseAtOkIff` | core/src/common/combinator.rs:62-74 | choose succeeds if and only if some candidate succeeds from the original cursor. |
| `Semantics.ManyAt` | core/src/common/combinator.rs:76-88 | many always succeeds and leaves the cursor between its start and the end of input. |
| `Semantics.ManyAtIsMaximalRun` | core/src/common/combinator.rs:76-88 | many returns `(xs, end)` if and only if `xs` are the results of consecutive successes ending at `end` and the step fails at `end`. So k successes then a failure give k results in order, with the failing attempt rolled back. |
| `Semantics.ManyPredIsLongestAccepted` | core/src/common/combinator.rs:76-88 | many over a predicate returns the longest run of accepted tokens at the cursor. The cursor ends just before the first rejected token, which the failing attempt had consumed. |
| `Semantics.Many1At` | core/src/common/combinator.rs:90-103 | On success many1 returns at least one result. |
| `Semantics.Many1AtVersusMany` | core/src/common/combinator.rs:90-103 | If the first attempt succeeds, many1 equals many. If it fails, many1 returns that attempt's error unchanged, with the cursor where the attempt left it. |
| `Streams.Stream.constructor` | core/src/common/combinator.rs:123-129 | A new stream holds the input, and both cursor and checkpoint are 0. |
| `Streams.Stream.Preview` | core/src/common/combinator.rs:143-145 | preview returns the token that next would return, or nothing exactly when next would report end of input. It does not consume. |
| `Streams.Stream.Consume` | core/src/common/combinator.rs:133-141 | consume returns what preview showed. It advances the cursor by one exactly when a token was there. |
| `Streams.Stream.Save` | core/src/common/combinator.rs:155-157 | save copies the cursor into the checkpoint slot. |
| `Streams.Stream.Load` | core/src/common/combinator.rs:159-161 | load copies the checkpoint slot back into the cursor. |
| `Streams.Stream.Next` | core/src/common/combinator.rs:14-16 | next returns the token at the cursor and advances by one. At end of input it returns `UnexpectedEof` and leaves the cursor unchanged. |
| `Streams.Stream.Predicate` | core/src/common/combinator.rs:18-27 | The result and new cursor are those of `PredAt`. A rejected token stays consumed. |
| `Streams.Stream.Atom` | core/src/common/combinator.rs:29-36 | The result and new cursor are those of `AtomAt`. A mismatched token stays consumed. |
| `Streams.Stream.String` | core/src/common/combinator.rs:38-50 | The loop of atoms gives the result and cursor of `StrAt`. It succeeds if and only if `s` occurs at the cursor, and then returns exactly `s` with the cursor advanced by `|s|`. |
| `Streams.Stream.Apply` | core/src/common/combinator.rs:52-56 | Running a step gives the result and cursor of `StepAt`. |
| `Streams.Stream.Try` | core/src/common/combinator.rs:52-60 | try returns the step's own result, with errors unchanged. On failure the cursor is back at its value on entry. On success it is where the step left it. The checkpoint slot ends holding the entry cursor. |
| `Streams.Stream.Choose` | core/src/common/combinator.rs:62-74 | The candidate loop gives the result and cursor of `ChooseAt`. On failure the cursor is unchanged and the error is about the token at the entry cursor. |
| `Streams.Stream.Many` | core/src/common/combinator.rs:76-88 | The loop gives the result and cursor of `ManyAt`. It always succeeds, and the step fails at the final cursor. The checkpoint slot ends equal to the cursor. |
| `Streams.Stream.Many1` | core/src/common/combinator.rs:90-103 | The result and cursor are those of `Many1At`. A failed first attempt is propagated unchanged and not rolled back, and the checkpoint slot is not touched in that case. |
| `Streams.Stream.Optional` | core/src/common/combinator.rs:105-109 | The cursor ends where a successful step left it, or unchanged if the step failed. |
| `StreamTests.NextSuccess` | core/src/common/combinator.rs:170-176 | On `[1,2,3]`, next yields 1, 2, 3. |
| `StreamTests.NextFailEmpty` | core/src/common/combinator.rs:178-182 | On empty input, next reports end of input. |
| `StreamTests.PredicateSuccess` | core/src/common/combinator.rs:184-190 | "even" accepts 2, 4, 6 in turn. |
| `StreamTests.PredicateFail` | core/src/common/combinator.rs:192-202 | On empty input "even" reports end of input. On `[3,5,7]` it reports "unexpected token 3". |
| `StreamTests.AtomSuccess` | core/src/common/combinator.rs:204-210 | atom 2, 4, 6 succeed on `[2,4,6]`. |
| `StreamTests.AtomFail` | core/src/common/combinator.rs:212-223 | On empty input atom reports end of input. On `[3,5,7]`, atom 3 succeeds and then atom 4 reports "unexpected token 5, expected 4". |
| `StreamTests.StringCases` | core/src/common/combinator.rs:225-242 | string `[2,4,6]` matches `[2,4,6]`, reports end of input on empty input, and reports "unexpected token 5, expected 4" on `[2,5,6]`. |
| `StreamTests.TrySuccess` | core/src/common/combinator.rs:244-248 | try of string `[2,4,6]` on `[2,4,6]` returns `[2,4,6]`. |
| `StreamTests.TryFailRecover` | core/src/common/combinator.rs:250-256 | A failed try of `[2,4,7]` reports token 6, expected 7. A following try of `[2,4,6]` then succeeds from the start. |
| `StreamTests.ChooseCases` | core/src/common/combinator.rs:258-292 | The four choose scenarios give `[1,2,3]`, then `[4,5,6]` after a partial match is rolled back, then "unexpected token 5", then end of input. |
| `StreamTests.ManyCases` | core/src/common/combinator.rs:294-303 | many "below 5" gives `[1,2,3,4]`, `[1,2,3,4]`, `[4]` and `[]` on the four inputs. |
| `StreamTests.ManyBelow5` | core/src/common/combinator.rs:294-303 | many "below 5" on a fresh stream returns the leading run of tokens below 5. |
| `StreamTests.Many1Cases` | core/src/common/combinator.rs:305-321 | many1 "below 5" gives `[1,2,3,4]`, `[1,2,3,4]`, `[4]`, and "unexpected token 5" on `[5,6,7,8]`. |
| `StreamTests.Many1Below5` | core/src/common/combinator.rs:305-313 | many1 "below 5" on a fresh stream with a nonempty leading run below 5 returns that run. |
| `StreamTests.OptionalCases` | core/src/common/combinator.rs:323-335 | After optional atom 1, string `[2,3,4]` matches on `[1,2,3,4,5]`. After optional atom 2, which does not match, string `[1,2,3]` matches from the start. |

## Left out

- `current_pos` (combinator.rs:8, 147-149) is not modelled. It only serves diagnostics and is the constant `(0, 0)` in `TP`.
- The `error` factory and `Display` formatting (lines 9, 25, 34, 70-73, 151-153) are replaced by the `Error` datatype. That datatype carries the tokens a message would render.
- The `FromIterator` / `IntoIterator` genericity of `string`, `many` and `many1` is replaced by `seq` for both input and output containers.
- Arbitrary closures over `&mut Self` are not modelled. Steps are limited to `Next`, `Pred`, `Atom` and `Str`, so sequencing in user closures and combinators nested inside a step are not covered.
  - None of these steps calls `save`, so `Try` always restores.
  - A closure that itself calls `save` (a nested `try` after some tokens were consumed) would overwrite the one checkpoint slot, and the outer `try` would then restore to the inner checkpoint. The model does not capture that behaviour.
- `Streams.Stream.Many`: requires a step that consumes whenever it succeeds (`Step.Consuming`), because in the source `many` with the empty string step never terminates.
- `Streams.Stream.Many1`: requires a consuming step, for the same reason as `Many`.
- `Semantics.ManyAt`: requires a consuming step, for the same reason as `Many`.
- `Semantics.Many1At`: requires a consuming step, for the same reason as `Many`.
- `Streams.Stream.Many1` calls `Many` after its first step instead of repeating the loop as `many1` does at lines 94-102. The behaviour is the same.
- `next` builds its error value even when it succeeds (line 15). This is not modelled because it has no observable effect.
- Tokens are a generic type with equality. `TP`'s `i32` tokens become `int`, and no test value is near the 32-bit bounds. The `usize` cursor is modelled as an unbounded natural number.
- The trait is not modelled as a separate interface. Its operations are methods of the one concrete stream.
