/**
 The persisted state of the calculator: the stack as a list of decimal
 strings, top first, and the two conversions between that list and a deque
 of decimals. Reading and writing the file itself is not modelled.
 */
module State {
  import opened Results
  import opened Decimal

  datatype State = State(stack: seq<string>)

  /** The state used when nothing has been saved yet. */
  function Default(): (d: State)
    ensures |d.stack| == 0
  {
    State([])
  }

  /** Entry `i` is the first entry the parser rejects. */
  ghost predicate FirstFailure(entries: seq<string>, parse: Parser, i: int)
  {
    && 0 <= i < |entries|
    && parse(entries[i]).Err?
    && forall j :: 0 <= j < i ==> parse(entries[j]).Ok?
  }

  /** Two first failures are the same entry. */
  lemma FirstFailureUnique(entries: seq<string>, parse: Parser, i: int, k: int)
    requires FirstFailure(entries, parse, i) && FirstFailure(entries, parse, k)
    ensures i == k
  {
  }

  /** A first failure past the head, when the head parses, is a first failure of the whole list. */
  lemma FirstFailureShift(entries: seq<string>, parse: Parser, e: ParseError)
    requires entries != [] && parse(entries[0]).Ok?
    requires exists k :: FirstFailure(entries[1..], parse, k) && parse(entries[1..][k]) == Err(e)
    ensures exists i :: FirstFailure(entries, parse, i) && parse(entries[i]) == Err(e)
  {
    var k :| FirstFailure(entries[1..], parse, k) && parse(entries[1..][k]) == Err(e);
    assert FirstFailure(entries, parse, k + 1);
  }

  /**
   Reference reading of a list of decimal strings: every entry parses and the
   results keep their positions, or the error of the first entry that does
   not parse is the error of the whole list.
   */
  function ParseEntries(entries: seq<string>, parse: Parser): (r: Result<seq<Dec>, ParseError>)
    ensures r.Ok? <==> forall i :: 0 <= i < |entries| ==> parse(entries[i]).Ok?
    ensures r.Ok? ==> |r.value| == |entries|
    ensures r.Ok? ==> forall i :: 0 <= i < |entries| ==> parse(entries[i]) == Ok(r.value[i])
    ensures r.Err? ==> exists i :: FirstFailure(entries, parse, i) && parse(entries[i]) == Err(r.error)
    decreases |entries|
  {
    if entries == [] then Ok([])
    else
      match parse(entries[0])
      case Err(e) =>
        assert FirstFailure(entries, parse, 0);
        Err(e)
      case Ok(v) =>
        match ParseEntries(entries[1..], parse)
        case Err(e) =>
          FirstFailureShift(entries, parse, e);
          Err(e)
        case Ok(vs) => Ok([v] + vs)
  }

  /**
   Reads the saved stack into a deque: each entry is parsed in turn and
   appended at the back; the first entry that fails ends the conversion with
   its error, and no partial deque is returned.
   */
  method ToValues(st: State, parse: Parser) returns (r: Result<seq<Dec>, ParseError>)
    ensures r == ParseEntries(st.stack, parse)
    ensures r.Ok? ==> |r.value| == |st.stack|
  {
    var result: seq<Dec> := [];
    var i := 0;
    while i < |st.stack|
      invariant 0 <= i <= |st.stack|
      invariant |result| == i
      invariant forall j :: 0 <= j < i ==> parse(st.stack[j]) == Ok(result[j])
    {
      var p := parse(st.stack[i]);
      if p.Err? {
        assert FirstFailure(st.stack, parse, i);
        var reference := ParseEntries(st.stack, parse);
        ghost var k :| FirstFailure(st.stack, parse, k) && parse(st.stack[k]) == Err(reference.error);
        FirstFailureUnique(st.stack, parse, i, k);
        return Err(p.error);
      }
      result := result + [p.value];
      i := i + 1;
    }
    var reference := ParseEntries(st.stack, parse);
    assert result == reference.value;
    return Ok(result);
  }

  /** Writes a deque out: one string per value, in deque order. */
  function FromValues(values: seq<Dec>, show: Printer): (st: State)
    ensures |st.stack| == |values|
    ensures forall i :: 0 <= i < |values| ==> st.stack[i] == show(values[i])
    decreases |values|
  {
    if values == [] then State([])
    else State([show(values[0])] + FromValues(values[1..], show).stack)
  }

  /** Nothing saved yet reads back as an empty deque. */
  lemma DefaultReadsEmpty(parse: Parser)
    ensures ParseEntries(Default().stack, parse) == Ok([])
  {
  }

  /**
   Writing a deque and reading it back gives the same deque, provided the
   decimal library reads back what it prints for each of its values.
   */
  lemma {:induction false} SaveThenLoad(values: seq<Dec>, show: Printer, parse: Parser)
    requires forall i :: 0 <= i < |values| ==> parse(show(values[i])) == Ok(values[i])
    ensures ParseEntries(FromValues(values, show).stack, parse) == Ok(values)
  {
    var r := ParseEntries(FromValues(values, show).stack, parse);
    assert r.Ok?;
    assert r.value == values;
  }
}
