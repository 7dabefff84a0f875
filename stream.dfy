/** The token stream `TP` with the combinator operations of the `Parser`
    trait, as a class whose methods update the cursor and the one-slot
    checkpoint in place. Each method is proved against the reference
    semantics in module Semantics, and also states the checkpoint slot it
    leaves behind.
 */
module Streams {
  import opened Semantics

  class Stream<T(==)> {
    const input: seq<T>
    var cursor: nat
    /** The single checkpoint slot written by Save and read by Load. */
    var savedCursor: nat

    ghost predicate Valid()
      reads this
    {
      cursor <= |input| && savedCursor <= |input|
    }

    constructor (input: seq<T>)
      ensures Valid()
      ensures this.input == input && cursor == 0 && savedCursor == 0
    {
      this.input := input;
      cursor, savedCursor := 0, 0;
    }

    // -------------------------------------------------------------------
    // The capabilities a stream supplies

    /** The token under the cursor, without consuming it: what next would return. */
    function Preview(): (t: Option<T>)
      reads this
      requires Valid()
      ensures t.Some? ==> NextAt(input, cursor) == Reply(Ok(t.value), cursor + 1)
      ensures t.None? ==> NextAt(input, cursor) == Reply(Err(UnexpectedEof), cursor)
    {
      if cursor < |input| then Some(input[cursor]) else None
    }

    /** Takes the token under the cursor, advancing only when there is one. */
    method Consume() returns (t: Option<T>)
      requires Valid()
      modifies this`cursor
      ensures Valid()
      ensures t == old(Preview())
      ensures cursor == if t.Some? then old(cursor) + 1 else old(cursor)
    {
      if cursor < |input| {
        t := Some(input[cursor]);
        cursor := cursor + 1;
      } else {
        t := None;
      }
    }

    method Save()
      requires Valid()
      modifies this`savedCursor
      ensures Valid() && savedCursor == cursor
    {
      savedCursor := cursor;
    }

    method Load()
      requires Valid()
      modifies this`cursor
      ensures Valid() && cursor == savedCursor
    {
      cursor := savedCursor;
    }

    // -------------------------------------------------------------------
    // Single-token operations

    method Next() returns (r: Result<T, T>)
      requires Valid()
      modifies this`cursor
      ensures Valid()
      ensures old(cursor) < |input| ==> r == Ok(input[old(cursor)]) && cursor == old(cursor) + 1
      ensures old(cursor) == |input| ==> r == Err(UnexpectedEof) && cursor == old(cursor)
      ensures Reply(r, cursor) == NextAt(input, old(cursor))
    {
      var t := Consume();
      r := if t.Some? then Ok(t.value) else Err(UnexpectedEof);
    }

    method Predicate(accepts: T -> bool) returns (r: Result<T, T>)
      requires Valid()
      modifies this`cursor
      ensures Valid()
      ensures Reply(r, cursor) == PredAt(accepts, input, old(cursor))
    {
      r := Next();
      if r.Ok? && !accepts(r.value) {
        r := Err(UnexpectedToken(r.value));
      }
    }

    method Atom(expected: T) returns (r: Result<T, T>)
      requires Valid()
      modifies this`cursor
      ensures Valid()
      ensures Reply(r, cursor) == AtomAt(expected, input, old(cursor))
    {
      r := Next();
      if r.Ok? && r.value != expected {
        r := Err(UnexpectedTokenExpected(r.value, expected));
      }
    }

    /** string: one atom per expected token, stopping at the first error
        without restoring the cursor. */
    method String(s: seq<T>) returns (r: Result<seq<T>, T>)
      requires Valid()
      modifies this`cursor
      ensures Valid()
      ensures Reply(r, cursor) == StrAt(s, input, old(cursor))
      ensures r.Ok? <==> MatchesAt(s, input, old(cursor))
      ensures r.Ok? ==> r.value == s && cursor == old(cursor) + |s|
    {
      ghost var start := cursor;
      var res: seq<T> := [];
      var i := 0;
      while i < |s|
        invariant 0 <= i <= |s| && Valid()
        invariant cursor == start + i
        invariant input[start..cursor] == s[..i] && res == s[..i]
      {
        var a := Atom(s[i]);
        if a.Err? {
          StrAtMismatch(s, input, start, i);
          StrAtOkIffMatches(s, input, start);
          return Err(a.error);
        }
        assert input[start..cursor] == input[start..cursor - 1] + [s[i]];
        assert s[..i + 1] == s[..i] + [s[i]];
        res := res + [a.value];
        i := i + 1;
      }
      assert s[..i] == s;
      StrAtMatch(s, input, start);
      r := Ok(res);
    }

    // -------------------------------------------------------------------
    // Running a step, and the combinators built on try

    /** Runs one parsing step: the call `parser(self)` of the source. */
    method Apply(step: Step<T>) returns (r: Result<Value<T>, T>)
      requires Valid()
      modifies this`cursor
      ensures Valid()
      ensures Reply(r, cursor) == StepAt(step, input, old(cursor))
    {
      match step
      case Next =>
        var x := Next();
        r := if x.Ok? then Ok(Single(x.value)) else Err(x.error);
      case Pred(f) =>
        var x := Predicate(f);
        r := if x.Ok? then Ok(Single(x.value)) else Err(x.error);
      case Atom(t) =>
        var x := Atom(t);
        r := if x.Ok? then Ok(Single(x.value)) else Err(x.error);
      case Str(s) =>
        var x := String(s);
        r := if x.Ok? then Ok(Multi(x.value)) else Err(x.error);
    }

    /** try: save, run the step, and load the checkpoint back if it failed. */
    method Try(step: Step<T>) returns (r: Result<Value<T>, T>)
      requires Valid()
      modifies this
      ensures Valid()
      ensures Reply(r, cursor) == TryAt(step, input, old(cursor))
      ensures r == StepAt(step, input, old(cursor)).result
      ensures r.Ok? ==> cursor == StepAt(step, input, old(cursor)).pos
      ensures r.Err? ==> cursor == old(cursor)
      ensures savedCursor == old(cursor)
    {
      Save();
      r := Apply(step);
      if r.Err? {
        Load();
      }
    }

    /** choose: each candidate under try, in order; the first success is
        returned, otherwise an error about the token under the cursor. */
    method Choose(steps: seq<Step<T>>) returns (r: Result<Value<T>, T>)
      requires Valid()
      modifies this
      ensures Valid()
      ensures Reply(r, cursor) == ChooseAt(steps, input, old(cursor))
      ensures r.Err? ==> cursor == old(cursor) && r.error == NothingMatches(input, old(cursor))
      ensures steps != [] ==> savedCursor == old(cursor)
      ensures steps == [] ==> savedCursor == old(savedCursor)
    {
      var i := 0;
      while i < |steps|
        invariant 0 <= i <= |steps| && Valid()
        invariant cursor == old(cursor)
        invariant ChooseAt(steps, input, cursor) == ChooseAt(steps[i..], input, cursor)
        invariant i > 0 ==> savedCursor == old(cursor)
        invariant i == 0 ==> savedCursor == old(savedCursor)
      {
        assert steps[i..][1..] == steps[i + 1..];
        r := Try(steps[i]);
        if r.Ok? {
          return;
        }
        i := i + 1;
      }
      var t := Preview();
      r := Err(if t.Some? then UnexpectedToken(t.value) else UnexpectedEof);
    }

    /** many: the step under try until it fails; always succeeds. */
    method Many(step: Step<T>) returns (r: Result<seq<Value<T>>, T>)
      requires Valid() && step.Consuming()
      modifies this
      ensures Valid()
      ensures Reply(r, cursor) == ManyAt(step, input, old(cursor))
      ensures r.Ok? && StepAt(step, input, cursor).result.Err?
      ensures savedCursor == cursor
    {
      var res: seq<Value<T>> := [];
      assert res + ManyAt(step, input, cursor).result.value == ManyAt(step, input, cursor).result.value;
      while true
        invariant Valid()
        invariant ManyAt(step, input, old(cursor)) ==
          Reply(Ok(res + ManyAt(step, input, cursor).result.value), ManyAt(step, input, cursor).pos)
        decreases |input| - cursor
      {
        ghost var before := cursor;
        var x := Try(step);
        if x.Err? {
          assert ManyAt(step, input, cursor) == Reply(Ok([]), cursor);
          assert res + [] == res;
          break;
        }
        assert ManyAt(step, input, before).result.value == [x.value] + ManyAt(step, input, cursor).result.value;
        assert res + ([x.value] + ManyAt(step, input, cursor).result.value)
            == (res + [x.value]) + ManyAt(step, input, cursor).result.value;
        res := res + [x.value];
      }
      r := Ok(res);
    }

    /** many1: the first run is not under try; after it succeeds, many. */
    method Many1(step: Step<T>) returns (r: Result<seq<Value<T>>, T>)
      requires Valid() && step.Consuming()
      modifies this
      ensures Valid()
      ensures Reply(r, cursor) == Many1At(step, input, old(cursor))
      ensures r.Err? ==> r.error == StepAt(step, input, old(cursor)).result.error
      ensures r.Err? ==> cursor == StepAt(step, input, old(cursor)).pos
      ensures r.Err? ==> savedCursor == old(savedCursor)
      ensures r.Ok? ==> savedCursor == cursor
    {
      var first := Apply(step);
      if first.Err? {
        return Err(first.error);
      }
      var rest := Many(step);
      r := Ok([first.value] + rest.value);
    }

    /** optional: the step under try, with its result discarded. */
    method Optional(step: Step<T>)
      requires Valid()
      modifies this
      ensures Valid()
      ensures cursor == if StepAt(step, input, old(cursor)).result.Ok?
                        then StepAt(step, input, old(cursor)).pos else old(cursor)
      ensures savedCursor == old(cursor)
    {
      var ignored := Try(step);
    }
  }
}
