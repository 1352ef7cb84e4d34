/**
 The number-input decoder. The text the user typed becomes a decimal: empty
 text is its own error, a leading '_' stands for a minus sign (the '-' key is
 taken by subtraction), and everything else goes to the decimal parser
 unchanged. Editing the text and drawing the widget are not modelled.
 */
module Input {
  import opened Results
  import opened Decimal

  datatype InputError = Empty | Invalid

  /** The input buffer, reduced to the text it holds. */
  datatype InputState = InputState(text: string)

  /**
   The text the decimal parser sees: the same length as the input, a leading
   '_' turned into '-', and every other character as typed.
   */
  function ParserText(text: string): (r: string)
    ensures |r| == |text|
    ensures text != [] ==> r[0] == (if text[0] == '_' then '-' else text[0])
    ensures forall i :: 1 <= i < |text| ==> r[i] == text[i]
  {
    if text != [] && text[0] == '_' then "-" + text[1..] else text
  }

  /**
   Decodes the input: Empty exactly for the empty text, Invalid exactly when
   the parser rejects the rewritten text, and otherwise the parser's decimal.
   */
  function Decode(st: InputState, parse: Parser): (r: Result<Dec, InputError>)
    ensures r == Err(Empty) <==> st.text == []
    ensures r == Err(Invalid) <==> st.text != [] && parse(ParserText(st.text)).Err?
    ensures r.Ok? ==> parse(ParserText(st.text)) == Ok(r.value)
  {
    if st.text == [] then Err(Empty)
    else
      match parse(ParserText(st.text))
      case Ok(d) => Ok(d)
      case Err(_) => Err(Invalid)
  }

  /** Empty exactly when no character has been typed. */
  predicate IsEmpty(st: InputState)
    ensures IsEmpty(st) <==> st.text == []
  {
    |st.text| == 0
  }

  /** Valid input is either still empty or something the value decodes. */
  predicate IsValid(st: InputState, parse: Parser)
    ensures IsValid(st, parse) <==> st.text == [] || parse(ParserText(st.text)).Ok?
  {
    IsEmpty(st) || Decode(st, parse).Ok?
  }

  /** Empty input is valid, yet has no value. */
  lemma EmptyIsValidWithoutValue(parse: Parser)
    ensures IsEmpty(InputState(""))
    ensures IsValid(InputState(""), parse)
    ensures Decode(InputState(""), parse) == Err(Empty)
  {
  }

  /** A leading '_' reaches the parser as '-' followed by the rest of the text. */
  lemma UnderscoreIsMinus(rest: string, parse: Parser)
    ensures ParserText("_" + rest) == "-" + rest
    ensures Decode(InputState("_" + rest), parse) == match parse("-" + rest)
      case Ok(d) => Ok(d)
      case Err(_) => Err(Invalid)
  {
    assert ("_" + rest)[1..] == rest;
  }

  /** Text without a leading '_' reaches the parser exactly as typed. */
  lemma NoUnderscoreUnchanged(text: string)
    requires text != [] && text[0] != '_'
    ensures ParserText(text) == text
  {
  }

  /** The cases the widget's tests exercise, for a parser that reads "123" and "-123" and rejects "abc". */
  lemma InputExamples(parse: Parser)
    requires parse("123") == Ok(Dec(123, 0))
    requires parse("-123") == Ok(Dec(-123, 0))
    requires parse("abc").Err?
    ensures Decode(InputState("123"), parse) == Ok(Dec(123, 0)) && IsValid(InputState("123"), parse)
    ensures Decode(InputState("abc"), parse) == Err(Invalid) && !IsValid(InputState("abc"), parse)
    ensures Decode(InputState("_123"), parse) == Ok(Dec(-123, 0)) && IsValid(InputState("_123"), parse)
  {
    assert "_123" == "_" + "123";
    assert "-" + "123" == "-123";
    UnderscoreIsMinus("123", parse);
  }
}
