/**
 The RPN operand stack. The deque of decimals is a sequence whose index 0 is
 the top. An operation that mutates the deque in place is a function from the
 deque before the call to the pair (deque after the call, outcome), so that
 what a failing call leaves behind is part of what is proved.
 */
module Stack {
  import opened Results
  import opened Decimal
  import State

  datatype StackError = MissingValue(required: nat)

  datatype Op = Push(v: Dec) | Add | Subtract | Multiply | Divide | Duplicate | Pop

  /** Number of elements `op` takes off the top of the stack. */
  function Arity(op: Op): nat
  {
    match op
    case Push(_) => 0
    case Duplicate => 1
    case Pop => 1
    case _ => 2
  }

  /** Number of elements `op` puts back on top after taking its operands. */
  function Produced(op: Op): nat
  {
    match op
    case Duplicate => 2
    case Pop => 0
    case _ => 1
  }

  /**
   The decimal library divides only by a non-zero decimal and the stack does
   not check the divisor itself, so a Divide with two operands needs a
   non-zero top.
   */
  predicate DivisorNonZero(s: seq<Dec>, op: Op)
  {
    op.Divide? && |s| >= 2 ==> !IsZero(s[0])
  }

  /** Builds a stack whose top is the first of `values`. */
  function From(values: seq<Dec>): (r: seq<Dec>)
    ensures PopN(r, |values|) == ([], Ok(values))
  {
    var (rest, p) := PopN(values, |values|);
    assert |p.value + rest| == |values|;
    assert rest == [] && p.value == p.value + rest;
    values
  }

  /** Every element, top first, without changing the stack. */
  function Snapshot(s: seq<Dec>): (r: seq<Dec>)
    ensures r == s
  {
    seq(|s|, i requires 0 <= i < |s| => s[i])
  }

  /**
   Takes the top `c` elements: on success they come back top first and the
   deque keeps the remaining elements in order; with fewer than `c` elements
   it fails with MissingValue(c) before touching the deque.
   */
  function PopN(s: seq<Dec>, c: nat): (r: (seq<Dec>, Result<seq<Dec>, StackError>))
    ensures r.1.Err? <==> |s| < c
    ensures r.1.Err? ==> r.1.error == MissingValue(c) && r.0 == s
    ensures r.1.Ok? ==> |r.1.value| == c && r.1.value + r.0 == s
  {
    if |s| < c then (s, Err(MissingValue(c)))
    else
      var taken := s[..c];
      var rest := s[c..];
      assert taken + rest == s;
      (rest, Ok(taken))
  }

  /** `a OP b` for a binary operation, `a` being the element beneath `b`. */
  function Combine(op: Op, a: Dec, b: Dec, quot: Quotient): Dec
    requires Arity(op) == 2
    requires op.Divide? ==> !IsZero(b)
  {
    if op.Add? then Plus(a, b)
    else if op.Subtract? then Minus(a, b)
    else if op.Multiply? then Times(a, b)
    else quot(a, b)
  }

  /**
   Applies one operation. It fails exactly when the stack holds fewer
   elements than the operation takes, and then with MissingValue of that
   number and with the stack unchanged. On success the operands are replaced
   by the results and everything below them stays as it was.
   */
  function Apply(s: seq<Dec>, op: Op, quot: Quotient): (r: (seq<Dec>, Result<(), StackError>))
    requires DivisorNonZero(s, op)
    ensures r.1.Err? <==> |s| < Arity(op)
    ensures r.1.Err? ==> r.1.error == MissingValue(Arity(op)) && r.0 == s
    ensures r.1.Ok? ==> |r.0| == |s| - Arity(op) + Produced(op)
    ensures r.1.Ok? ==> r.0[Produced(op)..] == s[Arity(op)..]
  {
    match op
    case Push(v) => ([v] + s, Ok(()))
    case Duplicate =>
      var (rest, p) := PopN(s, 1);
      if p.Err? then (rest, Err(p.error))
      else
        var a := p.value[0];
        ([a, a] + rest, Ok(()))
    case Pop =>
      var (rest, p) := PopN(s, 1);
      if p.Err? then (rest, Err(p.error)) else (rest, Ok(()))
    case _ =>
      var (rest, p) := PopN(s, 2);
      if p.Err? then (rest, Err(p.error))
      else
        var b, a := p.value[0], p.value[1];
        ([Combine(op, a, b, quot)] + rest, Ok(()))
  }

  /** Builds a stack from saved strings, all or nothing, the first string on top. */
  function FromState(st: State.State, parse: Parser): (r: Result<seq<Dec>, ParseError>)
    ensures r.Ok? <==> forall i :: 0 <= i < |st.stack| ==> parse(st.stack[i]).Ok?
    ensures r.Ok? ==> |r.value| == |st.stack|
    ensures r.Ok? ==> forall i :: 0 <= i < |st.stack| ==> parse(st.stack[i]) == Ok(r.value[i])
    ensures r.Err? ==> exists i :: State.FirstFailure(st.stack, parse, i) && parse(st.stack[i]) == Err(r.error)
  {
    var values :- State.ParseEntries(st.stack, parse);
    Ok(From(values))
  }

  // Properties of single operations

  /** Push never fails and puts its value on top of the old stack. */
  lemma ApplyPush(s: seq<Dec>, v: Dec, quot: Quotient)
    ensures Apply(s, Push(v), quot) == ([v] + s, Ok(()))
  {
  }

  /**
   A binary operation on `[b, a] + rest` leaves `[a OP b] + rest`: the second
   element is the left operand and the top the right one.
   */
  lemma ApplyBinary(b: Dec, a: Dec, rest: seq<Dec>, op: Op, quot: Quotient)
    requires Arity(op) == 2
    requires op.Divide? ==> !IsZero(b)
    ensures op.Add? ==> Apply([b, a] + rest, op, quot) == ([Plus(a, b)] + rest, Ok(()))
    ensures op.Subtract? ==> Apply([b, a] + rest, op, quot) == ([Minus(a, b)] + rest, Ok(()))
    ensures op.Multiply? ==> Apply([b, a] + rest, op, quot) == ([Times(a, b)] + rest, Ok(()))
    ensures op.Divide? ==> Apply([b, a] + rest, op, quot) == ([quot(a, b)] + rest, Ok(()))
  {
    assert ([b, a] + rest)[2..] == rest;
  }

  /** The new top of Add, Subtract and Multiply is the exact a + b, a − b, a × b. */
  lemma ApplyArithmeticValue(b: Dec, a: Dec, rest: seq<Dec>, op: Op, quot: Quotient)
    requires op.Add? || op.Subtract? || op.Multiply?
    ensures Apply([b, a] + rest, op, quot).1.Ok?
    ensures op.Add? ==> Value(Apply([b, a] + rest, op, quot).0[0]) == Value(a) + Value(b)
    ensures op.Subtract? ==> Value(Apply([b, a] + rest, op, quot).0[0]) == Value(a) - Value(b)
    ensures op.Multiply? ==> Value(Apply([b, a] + rest, op, quot).0[0]) == Value(a) * Value(b)
  {
    ApplyBinary(b, a, rest, op, quot);
  }

  /** A binary operation on fewer than two elements fails and changes nothing. */
  lemma BinaryNeedsTwo(s: seq<Dec>, op: Op, quot: Quotient)
    requires Arity(op) == 2 && |s| < 2
    ensures Apply(s, op, quot) == (s, Err(MissingValue(2)))
  {
  }

  /** Duplicate copies the top; on an empty stack it fails with MissingValue(1). */
  lemma ApplyDuplicate(s: seq<Dec>, quot: Quotient)
    ensures s == [] ==> Apply(s, Duplicate, quot) == ([], Err(MissingValue(1)))
    ensures s != [] ==> Apply(s, Duplicate, quot) == ([s[0], s[0]] + s[1..], Ok(()))
  {
  }

  /** Pop drops the top; on an empty stack it fails with MissingValue(1). */
  lemma ApplyPop(s: seq<Dec>, quot: Quotient)
    ensures s == [] ==> Apply(s, Pop, quot) == ([], Err(MissingValue(1)))
    ensures s != [] ==> Apply(s, Pop, quot) == (s[1..], Ok(()))
  {
  }

  /** Pushing a value and popping it again restores the stack. */
  lemma PushThenPop(s: seq<Dec>, v: Dec, quot: Quotient)
    ensures Apply(Apply(s, Push(v), quot).0, Pop, quot) == (s, Ok(()))
  {
    assert ([v] + s)[1..] == s;
  }

  /** The first of the values a stack is built from is its top, and the snapshot lists them all in order. */
  lemma FromThenSnapshot(values: seq<Dec>)
    ensures Snapshot(From(values)) == values
    ensures values != [] ==> PopN(From(values), 1).1 == Ok([values[0]])
  {
    if values != [] {
      assert values[..1] == [values[0]];
    }
  }

  // The unit tests of src/stack.rs, stated as lemmas

  /** A binary operation on a stack of exactly two elements leaves just its result. */
  lemma BinaryOnPair(b: Dec, a: Dec, op: Op, quot: Quotient)
    requires Arity(op) == 2
    requires op.Divide? ==> !IsZero(b)
    ensures Apply([b, a], op, quot) == ([Combine(op, a, b, quot)], Ok(()))
  {
    assert [b, a] == [b, a] + [];
    ApplyBinary(b, a, [], op, quot);
    assert [Combine(op, a, b, quot)] + [] == [Combine(op, a, b, quot)];
  }

  /** 10 then 20 pushed, Add gives 30. */
  lemma AddExample(quot: Quotient)
    ensures Apply([Dec(20, 0), Dec(10, 0)], Add, quot) == ([Dec(30, 0)], Ok(()))
  {
    assert Combine(Add, Dec(10, 0), Dec(20, 0), quot) == Dec(30, 0);
    BinaryOnPair(Dec(20, 0), Dec(10, 0), Add, quot);
  }

  /** 10 then 20 pushed, Subtract gives 10 − 20 = −10. */
  lemma SubtractExample(quot: Quotient)
    ensures Apply([Dec(20, 0), Dec(10, 0)], Subtract, quot) == ([Dec(-10, 0)], Ok(()))
  {
    assert Combine(Subtract, Dec(10, 0), Dec(20, 0), quot) == Dec(-10, 0);
    BinaryOnPair(Dec(20, 0), Dec(10, 0), Subtract, quot);
  }

  /** 10 then 20 pushed, Multiply gives 200. */
  lemma MultiplyExample(quot: Quotient)
    ensures Apply([Dec(20, 0), Dec(10, 0)], Multiply, quot) == ([Dec(200, 0)], Ok(()))
  {
    assert Combine(Multiply, Dec(10, 0), Dec(20, 0), quot) == Dec(200, 0);
    BinaryOnPair(Dec(20, 0), Dec(10, 0), Multiply, quot);
  }

  /** 20 then 10 pushed, Divide asks the library for 20 ÷ 10, the deeper element first. */
  lemma DivideExample(quot: Quotient)
    ensures Apply([Dec(10, 0), Dec(20, 0)], Divide, quot) == ([quot(Dec(20, 0), Dec(10, 0))], Ok(()))
  {
    BinaryOnPair(Dec(10, 0), Dec(20, 0), Divide, quot);
  }

  /** Pushes build the stack top first, as the tests' sequences of calls do. */
  lemma PushOrderExample(quot: Quotient)
    ensures Apply(Apply([], Push(Dec(10, 0)), quot).0, Push(Dec(20, 0)), quot).0 == [Dec(20, 0), Dec(10, 0)]
  {
  }

  /** 1 pushed: Duplicate leaves two 1s, Pop leaves an empty stack. */
  lemma DuplicatePopExamples(quot: Quotient)
    ensures Apply([Dec(1, 0)], Duplicate, quot) == ([Dec(1, 0), Dec(1, 0)], Ok(()))
    ensures Apply([Dec(1, 0)], Pop, quot) == ([], Ok(()))
  {
    var s := [Dec(1, 0)];
    ApplyDuplicate(s, quot);
    assert s[1..] == [];
    assert [s[0], s[0]] + [] == [Dec(1, 0), Dec(1, 0)];
  }
}
