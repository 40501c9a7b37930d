/**
 The source map lexer and parser as the objects they are in the source, advancing through
 the input, proved against the functions of SourceMap.
 */
module SourceMapParser {
  import opened Common
  import opened Decimal
  import opened SourceMap

  class Lexer {
    const input: string
    var at: nat

    ghost predicate Valid()
      reads this
    {
      at <= |input|
    }

    constructor (input: string)
      ensures Valid() && this.input == input && at == 0
    {
      this.input := input;
      at := 0;
    }

    /** Takes the digits that follow. */
    method Number(start: nat) returns (token: FieldToken)
      requires Valid() && start <= at
      modifies this
      ensures Valid() && at == old(at) + DigitCount(input[old(at)..])
      ensures token == Token.Number(input[start..at])
    {
      while at < |input| && IsDigit(input[at])
        invariant Valid() && old(at) <= at
        invariant old(at) + DigitCount(input[old(at)..]) == at + DigitCount(input[at..])
      {
        assert input[at..][1..] == input[at + 1..];
        at := at + 1;
      }
      token := Token.Number(input[start..at]);
    }

    /** `next`: the token at the current position, if any; an unexpected character is consumed. */
    method Next() returns (lexed: Lexed)
      requires Valid()
      modifies this
      ensures Valid() && lexed == Lex(input[old(at)..])
      ensures at == old(at) + (match lexed case End => 0 case Bad(_) => 1 case Lexed(_, n) => n)
    {
      if at == |input| { return End; }
      var start, ch := at, input[at];
      ghost var rest := input[start..];
      at := at + 1;
      var token;
      if ch == ';' { token := Semicolon; }
      else if ch == ':' { token := Colon; }
      else if ch == 'i' { token := JumpToken(In); }
      else if ch == 'o' { token := JumpToken(Out); }
      else if ch == '-' {
        if at < |input| && IsDigit(input[at]) {
          at := at + 1;
          assert rest[2..] == input[at..];
          token := Number(start);
          assert input[start..at] == rest[..at - start];
        } else {
          token := JumpToken(Regular);
        }
      } else if IsDigit(ch) {
        assert rest[1..] == input[at..];
        token := Number(start);
        assert input[start..at] == rest[..at - start];
      } else {
        return Bad(ch);
      }
      lexed := Lexed.Lexed(token, at - start);
    }
  }

  lemma EmptyInput()
    ensures ReadSegment("", Offset, EmptyBuilder) == Reading(EmptyBuilder, 0, true)
  {
  }

  /** The elements before a reading, and the elements it yields. */
  function Prepend(before: seq<Element>, rest: Result<seq<Element>, SyntaxError>): Result<seq<Element>, SyntaxError> {
    if rest.Err? then rest else Ok(before + rest.value)
  }

  lemma PrependTwice(before: seq<Element>, e: Element, rest: Result<seq<Element>, SyntaxError>)
    ensures Prepend(before, Prepend([e], rest)) == Prepend(before + [e], rest)
    ensures Prepend(before, Ok([e])) == Ok(before + [e])
  {
    if rest.Ok? { assert before + ([e] + rest.value) == before + [e] + rest.value; }
  }

  class Parser {
    const lexer: Lexer
    var lastElement: Option<Element>
    var done: bool

    ghost predicate Valid()
      reads this, lexer
    {
      lexer.Valid() && (lastElement.Some? ==> Legal(lastElement.value.jumpAndDepth))
    }

    constructor (input: string)
      ensures Valid() && fresh(lexer) && lexer.input == input && lexer.at == 0
      ensures lastElement == None && (done <==> input == "")
    {
      lexer := new Lexer(input);
      lastElement := None;
      done := input == "";
    }

    /** What is left to read. */
    ghost function Rest(): string
      reads this, lexer
      requires Valid()
    {
      lexer.input[lexer.at..]
    }

    ghost function Previous(): (e: Element)
      reads this, lexer
      requires Valid()
      ensures Legal(e.jumpAndDepth)
    {
      if lastElement.Some? then lastElement.value else DefaultElement
    }

    /** The token loop of `advance`: reads one segment, or fails where it fails. */
    method ReadTokens() returns (reading: Reading)
      requires Valid()
      modifies lexer
      ensures Valid() && reading == ReadSegment(old(Rest()), Offset, EmptyBuilder)
      ensures reading.Reading? ==> lexer.at == old(lexer.at) + reading.length
    {
      var state, builder := Offset, EmptyBuilder;
      hide TakeToken;
      var start := lexer.at;
      ghost var goal := ReadSegment(Rest(), Offset, EmptyBuilder);
      while true
        invariant Valid() && start <= lexer.at && goal == ReadSegment(Rest(), state, builder).After(lexer.at - start)
        decreases |lexer.input| - lexer.at
      {
        var pos := lexer.at;
        ghost var rest := Rest();
        var lexed := lexer.Next();
        match lexed
        case End => return Reading(builder, pos - start, true);
        case Bad(c) => return Failed(pos - start, UnexpectedCharacter(c));
        case Lexed(token, n) =>
          if token.Semicolon? { return Reading(builder, pos + n - start, false); }
          assert rest[n..] == Rest();
          match TakeToken(token, state, builder)
          case Refused(kind) => return Failed(pos - start, kind);
          case Next(state', builder') => state, builder := state', builder';
      }
    }

    /** `advance`: the next element, nothing at the end of the input, or an error. */
    method Advance() returns (r: Result<Option<Element>, SyntaxError>)
      requires Valid() && (done ==> Rest() == "")
      modifies this, lexer
      ensures Valid() && (r.Ok? && done ==> Rest() == "")
      ensures old(done) ==> r == Ok(None) && done
      ensures !old(done) ==>
                var all := Elements(old(Rest()), old(lexer.at), old(Previous()));
                match r
                case Err(e) => all == Err(e)
                case Ok(None) => false
                case Ok(Some(e)) =>
                  && lastElement == Some(e)
                  && (done ==> all == Ok([e]))
                  && (!done ==> |Rest()| < |old(Rest())| && all == Prepend([e], Elements(Rest(), lexer.at, Previous())))
    {
      EmptyInput();
      hide ReadSegment, Finish, Lex;
      var start := lexer.at;
      ghost var rest := Rest();
      var reading := ReadTokens();
      if done {
        // only the end of the input is left
        return Ok(None);
      }
      if reading.Failed? { return Err(SyntaxError(Some(start + reading.at), reading.kind)); }
      if reading.last { done := true; }
      var element := Finish(reading.builder, if lastElement.Some? then lastElement.value else DefaultElement);
      if element.Err? { return Err(element.error); }
      lastElement := Some(element.value);
      assert !reading.last ==> rest[reading.length..] == Rest();
      return Ok(Some(element.value));
    }
  }

  /** Collects the parser's elements; the first error ends it. */
  method Parse(input: string) returns (r: Result<seq<Element>, SyntaxError>)
    ensures r == SourceMap.Parse(input)
  {
    hide Finish, ReadSegment;
    var parser := new Parser(input);
    var elements := [];
    ghost var goal := SourceMap.Parse(input);
    assert input[0..] == input;
    assert input != "" ==> goal == Prepend([], goal) by { if goal.Ok? { assert [] + goal.value == goal.value; } }
    hide Elements;
    while true
      invariant parser.Valid() && fresh(parser) && fresh(parser.lexer)
      invariant parser.done ==> parser.Rest() == "" && goal == Ok(elements)
      invariant !parser.done ==>
                  goal == Prepend(elements, Elements(parser.Rest(), parser.lexer.at, parser.Previous()))
      decreases !parser.done, |parser.Rest()|
    {
      var next := parser.Advance();
      match next
      case Err(e) => return Err(e);
      case Ok(None) => return Ok(elements);
      case Ok(Some(element)) =>
        ghost var rest := Elements(parser.Rest(), parser.lexer.at, parser.Previous());
        PrependTwice(elements, element, rest);
        elements := elements + [element];
    }
  }
}
