/** The scenarios of the source's unit tests, replayed as client methods on a
    stream of integers. Each method builds a fresh stream, calls the
    operations in the tests' order and states the outcomes the tests expect;
    they follow from the Stream methods' contracts alone.
 */
module StreamTests {
  import opened Semantics
  import opened Streams

  predicate IsEven(x: int) { x % 2 == 0 }

  predicate Below5(x: int) { x < 5 }

  method NextSuccess() returns (a: Result<int, int>, b: Result<int, int>, c: Result<int, int>)
    ensures a == Ok(1) && b == Ok(2) && c == Ok(3)
  {
    var p := new Stream([1, 2, 3]);
    a := p.Next();
    b := p.Next();
    c := p.Next();
  }

  method NextFailEmpty() returns (a: Result<int, int>)
    ensures a == Err(UnexpectedEof)
  {
    var p := new Stream([]);
    a := p.Next();
  }

  method PredicateSuccess() returns (a: Result<int, int>, b: Result<int, int>, c: Result<int, int>)
    ensures a == Ok(2) && b == Ok(4) && c == Ok(6)
  {
    var p := new Stream([2, 4, 6]);
    a := p.Predicate(IsEven);
    b := p.Predicate(IsEven);
    c := p.Predicate(IsEven);
  }

  method PredicateFail() returns (empty: Result<int, int>, odd: Result<int, int>)
    ensures empty == Err(UnexpectedEof)
    ensures odd == Err(UnexpectedToken(3))
  {
    var p := new Stream([]);
    empty := p.Predicate(IsEven);
    var q := new Stream([3, 5, 7]);
    odd := q.Predicate(IsEven);
  }

  method AtomSuccess() returns (a: Result<int, int>, b: Result<int, int>, c: Result<int, int>)
    ensures a == Ok(2) && b == Ok(4) && c == Ok(6)
  {
    var p := new Stream([2, 4, 6]);
    a := p.Atom(2);
    b := p.Atom(4);
    c := p.Atom(6);
  }

  method AtomFail() returns (empty: Result<int, int>, a: Result<int, int>, b: Result<int, int>)
    ensures empty == Err(UnexpectedEof)
    ensures a == Ok(3) && b == Err(UnexpectedTokenExpected(5, 4))
  {
    var p := new Stream([]);
    empty := p.Atom(2);
    var q := new Stream([3, 5, 7]);
    a := q.Atom(3);
    b := q.Atom(4);
  }

  method StringCases() returns (ok: Result<seq<int>, int>, empty: Result<seq<int>, int>, bad: Result<seq<int>, int>)
    ensures ok == Ok([2, 4, 6])
    ensures empty == Err(UnexpectedEof)
    ensures bad == Err(UnexpectedTokenExpected(5, 4))
  {
    var p := new Stream([2, 4, 6]);
    ok := p.String([2, 4, 6]);
    var q := new Stream([]);
    empty := q.String([2, 4, 6]);
    var u := new Stream([2, 5, 6]);
    StrAtMismatch([2, 4, 6], u.input, 0, 1);
    bad := u.String([2, 4, 6]);
  }

  method TrySuccess() returns (r: Result<Value<int>, int>)
    ensures r == Ok(Multi([2, 4, 6]))
  {
    var p := new Stream([2, 4, 6]);
    StrAtMatch([2, 4, 6], p.input, 0);
    r := p.Try(Str([2, 4, 6]));
  }

  method TryFailRecover() returns (failed: Result<Value<int>, int>, retried: Result<Value<int>, int>)
    ensures failed == Err(UnexpectedTokenExpected(6, 7))
    ensures retried == Ok(Multi([2, 4, 6]))
  {
    var p := new Stream([2, 4, 6]);
    StrAtMismatch([2, 4, 7], p.input, 0, 2);
    failed := p.Try(Str([2, 4, 7]));
    StrAtMatch([2, 4, 6], p.input, 0);
    retried := p.Try(Str([2, 4, 6]));
  }

  method ChooseCases() returns (first: Result<Value<int>, int>, third: Result<Value<int>, int>,
                                none: Result<Value<int>, int>, empty: Result<Value<int>, int>)
    ensures first == Ok(Multi([1, 2, 3]))
    ensures third == Ok(Multi([4, 5, 6]))
    ensures none == Err(UnexpectedToken(5))
    ensures empty == Err(UnexpectedEof)
  {
    var p := new Stream([1, 2, 3, 4, 5, 6, 7, 8, 9, 10]);
    StrAtMatch([1, 2, 3], p.input, 0);
    first := p.Choose([Str([1, 2, 3]), Str([4, 5, 6, 7]), Str([4, 5, 6])]);

    var candidates := [Str([1, 2, 3]), Str([4, 5, 6, 8]), Str([4, 5, 6])];
    var q := new Stream([4, 5, 6, 7, 8, 9, 10]);
    StrAtMismatch([1, 2, 3], q.input, 0, 0);
    StrAtMismatch([4, 5, 6, 8], q.input, 0, 3);
    StrAtMatch([4, 5, 6], q.input, 0);
    ChooseAtFirstSuccess(candidates, q.input, 0, 2);
    third := q.Choose(candidates);

    var u := new Stream([5, 6, 7, 8, 9, 10]);
    StrAtMismatch([1, 2, 3], u.input, 0, 0);
    StrAtMismatch([4, 5, 6, 8], u.input, 0, 0);
    StrAtMismatch([4, 5, 6], u.input, 0, 0);
    ChooseAtAllFail(candidates, u.input, 0);
    none := u.Choose(candidates);

    var e := new Stream([]);
    ChooseAtAllFail(candidates, e.input, 0);
    empty := e.Choose(candidates);
  }

  /** The literal prefixes the many and many1 scenarios expect. */
  lemma OneToFour()
    ensures Singles([1, 2, 3, 4][..4]) == Singles([1, 2, 3, 4, 5, 6, 7, 8][..4])
                                      == [Single(1), Single(2), Single(3), Single(4)]
    ensures Singles([4, 5, 6, 7, 8][..1]) == [Single(4)]
  {
  }

  /** many over "below 5" on the four inputs of the source's test. */
  method ManyCases() returns (all: Result<seq<Value<int>>, int>, prefix: Result<seq<Value<int>>, int>,
                              one: Result<seq<Value<int>>, int>, zero: Result<seq<Value<int>>, int>)
    ensures all == Ok([Single(1), Single(2), Single(3), Single(4)])
    ensures prefix == Ok([Single(1), Single(2), Single(3), Single(4)])
    ensures one == Ok([Single(4)])
    ensures zero == Ok([])
  {
    all := ManyBelow5([1, 2, 3, 4], 4);
    prefix := ManyBelow5([1, 2, 3, 4, 5, 6, 7, 8], 4);
    one := ManyBelow5([4, 5, 6, 7, 8], 1);
    zero := ManyBelow5([5, 6, 7, 8], 0);
    OneToFour();
  }

  /** many over "below 5" on a fresh stream whose first `k` tokens are the
      leading run below 5. */
  method ManyBelow5(input: seq<int>, k: nat) returns (r: Result<seq<Value<int>>, int>)
    requires k <= |input| && (forall j :: 0 <= j < k ==> input[j] < 5)
    requires k == |input| || input[k] >= 5
    ensures r == Ok(Singles(input[..k]))
  {
    var p := new Stream(input);
    ManyPredIsLongestAccepted(Below5, input, 0, k);
    r := p.Many(Pred(Below5));
  }

  /** many1 over "below 5" on the four inputs of the source's tests. */
  method Many1Cases() returns (all: Result<seq<Value<int>>, int>, prefix: Result<seq<Value<int>>, int>,
                               one: Result<seq<Value<int>>, int>, none: Result<seq<Value<int>>, int>)
    ensures all == Ok([Single(1), Single(2), Single(3), Single(4)])
    ensures prefix == Ok([Single(1), Single(2), Single(3), Single(4)])
    ensures one == Ok([Single(4)])
    ensures none == Err(UnexpectedToken(5))
  {
    all := Many1Below5([1, 2, 3, 4], 4);
    prefix := Many1Below5([1, 2, 3, 4, 5, 6, 7, 8], 4);
    one := Many1Below5([4, 5, 6, 7, 8], 1);
    OneToFour();
    var v := new Stream([5, 6, 7, 8]);
    none := v.Many1(Pred(Below5));
  }

  /** many1 over "below 5" on a fresh stream that starts with a run of `k`
      tokens below 5, at least one. */
  method Many1Below5(input: seq<int>, k: nat) returns (r: Result<seq<Value<int>>, int>)
    requires 0 < k <= |input| && (forall j :: 0 <= j < k ==> input[j] < 5)
    requires k == |input| || input[k] >= 5
    ensures r == Ok(Singles(input[..k]))
  {
    var p := new Stream(input);
    ManyPredIsLongestAccepted(Below5, input, 0, k);
    Many1AtVersusMany(Pred(Below5), input, 0);
    r := p.Many1(Pred(Below5));
  }

  method OptionalCases() returns (matched: Result<seq<int>, int>, skipped: Result<seq<int>, int>)
    ensures matched == Ok([2, 3, 4])
    ensures skipped == Ok([1, 2, 3])
  {
    var p := new Stream([1, 2, 3, 4, 5]);
    p.Optional(Atom(1));
    matched := p.String([2, 3, 4]);
    var q := new Stream([1, 2, 3, 4, 5]);
    q.Optional(Atom(2));
    skipped := q.String([1, 2, 3]);
  }
}
