/** Reference semantics of the parser combinators.

    Every operation is a pure function from an immutable token sequence and a
    cursor position to a Reply: the operation's result and the cursor after it.
    The stream class in module Streams is proved against these functions, and
    the lemmas here state what each combinator promises: string matches a
    prefix or stops at the first mismatch, choose is ordered choice with full
    rollback, many is the maximal run of successes.
 */
module Semantics {

  datatype Option<T> = None | Some(value: T)

  /** The three error messages the combinators build, kept as data:
      "unexpected eof", "unexpected token X" and
      "unexpected token X, expected Y". */
  datatype Error<T> =
    | UnexpectedEof
    | UnexpectedToken(actual: T)
    | UnexpectedTokenExpected(actual: T, expected: T)

  datatype Result<R, T> = Ok(value: R) | Err(error: Error<T>)

  /** What a parsing step yields: one token (next, predicate, atom) or the
      tokens of a matched string. */
  datatype Value<T> = Single(token: T) | Multi(tokens: seq<T>)

  /** The parsing steps handed to try, choose, many, many1 and optional. */
  datatype Step<!T> =
    | Next
    | Pred(accepts: T -> bool)
    | Atom(atom: T)
    | Str(str: seq<T>)
  {
    /** A step that consumes at least one token whenever it succeeds.
        Only the empty string succeeds without consuming. */
    predicate Consuming() {
      !Str? || |str| > 0
    }
  }

  /** The result of an operation run from some cursor, and the cursor after it. */
  datatype Reply<R, T> = Reply(result: Result<R, T>, pos: nat)

  /** The error choose reports when every candidate failed: the token at the
      cursor, or end of input. */
  function NothingMatches<T>(input: seq<T>, pos: nat): (e: Error<T>)
    requires pos <= |input|
    ensures pos < |input| ==> Err(e) == PredAt(_ => false, input, pos).result
    ensures pos == |input| ==> Err(e) == NextAt(input, pos).result
    ensures !e.UnexpectedTokenExpected?
  {
    if pos < |input| then UnexpectedToken(input[pos]) else UnexpectedEof
  }

  /** `s` occurs in `input` starting at `pos`. */
  predicate MatchesAt<T(==)>(s: seq<T>, input: seq<T>, pos: nat) {
    pos + |s| <= |input| && input[pos..pos + |s|] == s
  }

  // ---------------------------------------------------------------------
  // Single-token operations

  /** next: the token under the cursor, or end of input. */
  function NextAt<T>(input: seq<T>, pos: nat): (r: Reply<T, T>)
    requires pos <= |input|
    ensures r.result.Ok? <==> pos < |input|
    ensures r.result.Ok? ==> r.result.value == input[pos] && r.pos == pos + 1
    ensures r.result.Err? ==> r.result.error == UnexpectedEof && r.pos == pos
  {
    if pos < |input| then Reply(Ok(input[pos]), pos + 1)
    else Reply(Err(UnexpectedEof), pos)
  }

  /** predicate: next, then a test of the token; a rejected token stays consumed. */
  function PredAt<T>(accepts: T -> bool, input: seq<T>, pos: nat): (r: Reply<T, T>)
    requires pos <= |input|
    ensures pos < |input| ==> r.pos == pos + 1
    ensures pos < |input| ==>
      r.result == if accepts(input[pos]) then Ok(input[pos]) else Err(UnexpectedToken(input[pos]))
    ensures pos == |input| ==> r == Reply(Err(UnexpectedEof), pos)
  {
    var n := NextAt(input, pos);
    match n.result
    case Err(e) => Reply(Err(e), n.pos)
    case Ok(x) => Reply(if accepts(x) then Ok(x) else Err(UnexpectedToken(x)), n.pos)
  }

  /** atom: next, then a comparison with the expected token; a mismatching
      token stays consumed and the error names both tokens. */
  function AtomAt<T(==)>(expected: T, input: seq<T>, pos: nat): (r: Reply<T, T>)
    requires pos <= |input|
    ensures pos < |input| ==> r.pos == pos + 1
    ensures pos < |input| ==>
      r.result == if input[pos] == expected then Ok(expected)
                  else Err(UnexpectedTokenExpected(input[pos], expected))
    ensures pos == |input| ==> r == Reply(Err(UnexpectedEof), pos)
  {
    var n := NextAt(input, pos);
    match n.result
    case Err(e) => Reply(Err(e), n.pos)
    case Ok(x) =>
      Reply(if x == expected then Ok(x) else Err(UnexpectedTokenExpected(x, expected)), n.pos)
  }

  // ---------------------------------------------------------------------
  // string

  /** string: atom for each expected token in turn, stopping at the first error. */
  function StrAt<T(==)>(s: seq<T>, input: seq<T>, pos: nat): (r: Reply<seq<T>, T>)
    requires pos <= |input|
    ensures pos <= r.pos <= |input|
    ensures r.result.Ok? ==> r.pos == pos + |s| && |r.result.value| == |s|
    decreases s
  {
    if s == [] then Reply(Ok([]), pos)
    else
      var a := AtomAt(s[0], input, pos);
      match a.result
      case Err(e) => Reply(Err(e), a.pos)
      case Ok(x) =>
        var rest := StrAt(s[1..], input, a.pos);
        match rest.result
        case Err(e) => Reply(Err(e), rest.pos)
        case Ok(xs) => Reply(Ok([x] + xs), rest.pos)
  }

  /** When `s` occurs at `pos`, string returns exactly `s` and moves past it. */
  lemma {:induction false} StrAtMatch<T>(s: seq<T>, input: seq<T>, pos: nat)
    requires pos <= |input| && MatchesAt(s, input, pos)
    ensures StrAt(s, input, pos) == Reply(Ok(s), pos + |s|)
    decreases s
  {
    if s != [] {
      assert input[pos] == s[0];
      assert MatchesAt(s[1..], input, pos + 1) by {
        assert input[pos + 1..pos + |s|] == input[pos..pos + |s|][1..];
      }
      StrAtMatch(s[1..], input, pos + 1);
      assert [s[0]] + s[1..] == s;
    }
  }

  /** When the first `i` tokens of `s` match and the next one does not (or the
      input ends there), string fails with that atom's error, leaving the
      cursor just after the rejected token (or at the end of input). */
  lemma {:induction false} StrAtMismatch<T>(s: seq<T>, input: seq<T>, pos: nat, i: nat)
    requires pos + i <= |input| && i < |s|
    requires input[pos..pos + i] == s[..i]
    requires pos + i == |input| || input[pos + i] != s[i]
    ensures StrAt(s, input, pos) ==
      if pos + i == |input| then Reply(Err(UnexpectedEof), |input|)
      else Reply(Err(UnexpectedTokenExpected(input[pos + i], s[i])), pos + i + 1)
    decreases i
  {
    if i > 0 {
      assert input[pos] == input[pos..pos + i][0] == s[0];
      assert input[pos + 1..pos + i] == input[pos..pos + i][1..];
      assert s[1..][..i - 1] == s[..i][1..];
      StrAtMismatch(s[1..], input, pos + 1, i - 1);
    }
  }

  /** string succeeds exactly when `s` occurs at the cursor. */
  lemma {:induction false} StrAtOkIffMatches<T>(s: seq<T>, input: seq<T>, pos: nat)
    requires pos <= |input|
    ensures StrAt(s, input, pos).result.Ok? <==> MatchesAt(s, input, pos)
    decreases s
  {
    if s != [] && pos < |input| && input[pos] == s[0] {
      StrAtOkIffMatches(s[1..], input, pos + 1);
      if MatchesAt(s, input, pos) {
        assert input[pos + 1..pos + |s|] == input[pos..pos + |s|][1..];
      }
      if MatchesAt(s[1..], input, pos + 1) {
        assert input[pos..pos + |s|] == [input[pos]] + input[pos + 1..pos + |s|];
      }
    }
  }

  // ---------------------------------------------------------------------
  // Running a step, and try

  /** Runs one parsing step (what calling the closure does in the source). */
  function StepAt<T(==)>(step: Step<T>, input: seq<T>, pos: nat): (r: Reply<Value<T>, T>)
    requires pos <= |input|
    ensures pos <= r.pos <= |input|
    ensures r.result.Ok? && step.Consuming() ==> pos < r.pos
  {
    match step
    case Next => SingleReply(NextAt(input, pos))
    case Pred(f) => SingleReply(PredAt(f, input, pos))
    case Atom(t) => SingleReply(AtomAt(t, input, pos))
    case Str(s) =>
      var r := StrAt(s, input, pos);
      match r.result
      case Err(e) => Reply(Err(e), r.pos)
      case Ok(xs) => Reply(Ok(Multi(xs)), r.pos)
  }

  function SingleReply<T>(r: Reply<T, T>): Reply<Value<T>, T> {
    match r.result
    case Err(e) => Reply(Err(e), r.pos)
    case Ok(x) => Reply(Ok(Single(x)), r.pos)
  }

  /** try: the step's own result; on failure the cursor goes back to `pos`. */
  function TryAt<T(==)>(step: Step<T>, input: seq<T>, pos: nat): (r: Reply<Value<T>, T>)
    requires pos <= |input|
    ensures r.result == StepAt(step, input, pos).result
    ensures r.result.Ok? ==> r.pos == StepAt(step, input, pos).pos
    ensures r.result.Err? ==> r.pos == pos
  {
    var r := StepAt(step, input, pos);
    if r.result.Err? then Reply(r.result, pos) else r
  }

  // ---------------------------------------------------------------------
  // choose

  /** choose: each candidate in order under try; the first success wins.
      When all fail, the error names the token under the cursor left by the
      last rollback. */
  function ChooseAt<T(==)>(steps: seq<Step<T>>, input: seq<T>, pos: nat): (r: Reply<Value<T>, T>)
    requires pos <= |input|
    ensures r.pos <= |input|
    decreases steps
  {
    if steps == [] then Reply(Err(NothingMatches(input, pos)), pos)
    else
      var t := TryAt(steps[0], input, pos);
      if t.result.Ok? then t else ChooseAt(steps[1..], input, t.pos)
  }

  /** The first candidate that succeeds from `pos` decides choose's reply. */
  lemma {:induction false} ChooseAtFirstSuccess<T>(steps: seq<Step<T>>, input: seq<T>, pos: nat, i: nat)
    requires pos <= |input| && i < |steps|
    requires forall j :: 0 <= j < i ==> StepAt(steps[j], input, pos).result.Err?
    requires StepAt(steps[i], input, pos).result.Ok?
    ensures ChooseAt(steps, input, pos) == StepAt(steps[i], input, pos)
    decreases i
  {
    if i > 0 {
      assert StepAt(steps[0], input, pos).result.Err?;
      forall j | 0 <= j < i - 1
        ensures StepAt(steps[1..][j], input, pos).result.Err?
      {
        assert steps[1..][j] == steps[j + 1];
      }
      ChooseAtFirstSuccess(steps[1..], input, pos, i - 1);
    }
  }

  /** When no candidate succeeds, choose fails at the original cursor and
      reports the token there, discarding the candidates' own errors. */
  lemma {:induction false} ChooseAtAllFail<T>(steps: seq<Step<T>>, input: seq<T>, pos: nat)
    requires pos <= |input|
    requires forall j :: 0 <= j < |steps| ==> StepAt(steps[j], input, pos).result.Err?
    ensures ChooseAt(steps, input, pos) == Reply(Err(NothingMatches(input, pos)), pos)
    decreases steps
  {
    if steps != [] {
      assert StepAt(steps[0], input, pos).result.Err?;
      forall j | 0 <= j < |steps| - 1
        ensures StepAt(steps[1..][j], input, pos).result.Err?
      {
        assert steps[1..][j] == steps[j + 1];
      }
      ChooseAtAllFail(steps[1..], input, pos);
    }
  }

  /** choose succeeds exactly when some candidate succeeds from the cursor. */
  lemma {:induction false} ChooseAtOkIff<T>(steps: seq<Step<T>>, input: seq<T>, pos: nat)
    requires pos <= |input|
    ensures ChooseAt(steps, input, pos).result.Ok? <==>
      exists i :: 0 <= i < |steps| && StepAt(steps[i], input, pos).result.Ok?
    decreases steps
  {
    if steps != [] {
      ChooseAtOkIff(steps[1..], input, pos);
      if StepAt(steps[0], input, pos).result.Err? {
        if exists i :: 0 <= i < |steps| && StepAt(steps[i], input, pos).result.Ok? {
          var i :| 0 <= i < |steps| && StepAt(steps[i], input, pos).result.Ok?;
          assert i > 0 && steps[1..][i - 1] == steps[i];
        }
        if exists i :: 0 <= i < |steps[1..]| && StepAt(steps[1..][i], input, pos).result.Ok? {
          var i :| 0 <= i < |steps[1..]| && StepAt(steps[1..][i], input, pos).result.Ok?;
          assert steps[1..][i] == steps[i + 1];
        }
      }
    }
  }

  // ---------------------------------------------------------------------
  // many and many1

  /** many: the step under try, repeated until it fails; the failing attempt
      is rolled back and many itself always succeeds. */
  function ManyAt<T(==)>(step: Step<T>, input: seq<T>, pos: nat): (r: Reply<seq<Value<T>>, T>)
    requires pos <= |input| && step.Consuming()
    ensures r.result.Ok?
    ensures pos <= r.pos <= |input|
    decreases |input| - pos
  {
    var t := TryAt(step, input, pos);
    match t.result
    case Err(_) => Reply(Ok([]), t.pos)
    case Ok(x) =>
      var rest := ManyAt(step, input, t.pos);
      Reply(Ok([x] + rest.result.value), rest.pos)
  }

  /** `xs` are the results of |xs| consecutive successful runs of `step`
      starting at `pos`, the last of which leaves the cursor at `end`. */
  ghost predicate RunOf<T>(step: Step<T>, input: seq<T>, pos: nat, xs: seq<Value<T>>, end: nat)
    requires pos <= |input|
    decreases xs
  {
    if xs == [] then end == pos
    else
      var r := StepAt(step, input, pos);
      r.result == Ok(xs[0]) && RunOf(step, input, r.pos, xs[1..], end)
  }

  /** many returns exactly the maximal run of successes: k consecutive
      successes followed by a failure give k results and the cursor after
      the k-th success. */
  lemma {:induction false} ManyAtIsMaximalRun<T>(step: Step<T>, input: seq<T>, pos: nat, xs: seq<Value<T>>, end: nat)
    requires pos <= |input| && step.Consuming()
    ensures ManyAt(step, input, pos) == Reply(Ok(xs), end) <==>
      RunOf(step, input, pos, xs, end) && end <= |input| && StepAt(step, input, end).result.Err?
    decreases xs
  {
    var r := StepAt(step, input, pos);
    if r.result.Ok? && xs != [] {
      ManyAtIsMaximalRun(step, input, r.pos, xs[1..], end);
      assert [xs[0]] + xs[1..] == xs;
    }
  }

  /** The tokens of `ts`, each as a single-token value. */
  function Singles<T>(ts: seq<T>): (vs: seq<Value<T>>)
    ensures |vs| == |ts|
    ensures forall j :: 0 <= j < |ts| ==> vs[j] == Single(ts[j])
  {
    seq(|ts|, j requires 0 <= j < |ts| => Single(ts[j]))
  }

  /** many over a predicate returns the longest run of accepted tokens at the
      cursor and stops before the first rejected one: the rejected token the
      failing attempt consumed is given back. */
  lemma {:induction false} ManyPredIsLongestAccepted<T>(accepts: T -> bool, input: seq<T>, pos: nat, k: nat)
    requires pos + k <= |input|
    requires forall j :: pos <= j < pos + k ==> accepts(input[j])
    requires pos + k == |input| || !accepts(input[pos + k])
    ensures ManyAt(Pred(accepts), input, pos) == Reply(Ok(Singles(input[pos..pos + k])), pos + k)
    decreases k
  {
    if k > 0 {
      ManyPredIsLongestAccepted(accepts, input, pos + 1, k - 1);
      assert Singles(input[pos..pos + k]) == [Single(input[pos])] + Singles(input[pos + 1..pos + k]);
    }
  }

  /** many1: the first run of the step is not under try, so its failure is
      reported with the cursor wherever the step left it; after a first
      success it continues as many. */
  function Many1At<T(==)>(step: Step<T>, input: seq<T>, pos: nat): (r: Reply<seq<Value<T>>, T>)
    requires pos <= |input| && step.Consuming()
    ensures r.result.Ok? ==> |r.result.value| >= 1
  {
    var first := StepAt(step, input, pos);
    match first.result
    case Err(e) => Reply(Err(e), first.pos)
    case Ok(x) =>
      var rest := ManyAt(step, input, first.pos);
      Reply(Ok([x] + rest.result.value), rest.pos)
  }

  /** many1 is many when the first run succeeds, and otherwise the first
      run's own failure, unrolled. */
  lemma Many1AtVersusMany<T>(step: Step<T>, input: seq<T>, pos: nat)
    requires pos <= |input| && step.Consuming()
    ensures StepAt(step, input, pos).result.Ok? ==> Many1At(step, input, pos) == ManyAt(step, input, pos)
    ensures StepAt(step, input, pos).result.Err? ==>
      Many1At(step, input, pos) == Reply(Err(StepAt(step, input, pos).result.error), StepAt(step, input, pos).pos)
  {
  }
}
