/**
 What source map parsing means and undoes: the number of elements, the value of every
 field, and the exact conditions under which each printer is inverted by the parser.
 */
module SourceMapRoundTrip {
  import opened Common
  import opened Decimal
  import opened SourceMap

  // ---------- The printers ----------

  /** `Display` of an optional number field: zero prints as -1 when the index is -1. */
  function NumberText(n: Option<nat>, index: Option<Option<nat>>): string {
    match n
    case None => ""
    case Some(v) => if v == 0 && index == Some(None) then "-1" else Print(v)
  }

  function IndexText(index: Option<Option<nat>>): string {
    match index
    case None => ""
    case Some(None) => "-1"
    case Some(Some(x)) => Print(x)
  }

  function JumpText(j: Option<Jump>): string {
    match j case None => "" case Some(jump) => [jump.ToChar()]
  }

  function DepthText(b: Builder): string {
    match b.modifierDepth
    case None => ""
    case Some(d) => if b.index == Some(None) then "-1" else Print(d)
  }

  // What is printed after each field: nothing, if nothing further is set.

  function DepthPart(b: Builder): string {
    if b.modifierDepth.None? then "" else ":" + DepthText(b)
  }

  function JumpPart(b: Builder): string {
    if b.jump.None? && b.modifierDepth.None? then "" else ":" + JumpText(b.jump) + DepthPart(b)
  }

  function IndexPart(b: Builder): string {
    if b.index.None? && b.jump.None? && b.modifierDepth.None? then "" else ":" + IndexText(b.index) + JumpPart(b)
  }

  function LengthPart(b: Builder): string {
    if b.length.None? && b.index.None? && b.jump.None? && b.modifierDepth.None? then ""
    else ":" + NumberText(b.length, b.index) + IndexPart(b)
  }

  /** `Display` of a builder: fields left unset print as nothing, and trailing colons are dropped. */
  function PrintBuilder(b: Builder): string {
    NumberText(b.offset, b.index) + LengthPart(b)
  }

  function PrintInt(n: int): string {
    if n < 0 then "-" + Print(-n) else Print(n)
  }

  /** `Display` of an element: all five fields. */
  function PrintElement(e: Element): string
    requires Legal(e.jumpAndDepth)
  {
    Print(e.offset) + ":" + Print(e.length) + ":" + PrintInt(e.index) + ":" + [JumpOf(e.jumpAndDepth).ToChar()] + ":"
    + Print(DepthOf(e.jumpAndDepth))
  }

  function Join(parts: seq<string>): string {
    if parts == [] then "" else if |parts| == 1 then parts[0] else parts[0] + ";" + Join(parts[1..])
  }

  // ---------- Lexing printed fields ----------

  /** What can follow a number without becoming part of it. */
  predicate NoDigitFirst(s: string) {
    s != "" ==> !IsDigit(s[0])
  }

  lemma {:induction false} DigitCountOf(digits: string, rest: string)
    requires AllDigits(digits) && NoDigitFirst(rest)
    ensures DigitCount(digits + rest) == |digits|
  {
    if digits == "" {
      assert digits + rest == rest;
    } else {
      assert (digits + rest)[1..] == digits[1..] + rest;
      DigitCountOf(digits[1..], rest);
    }
  }

  lemma DropOfConcat(a: string, b: string, n: nat)
    requires n <= |a|
    ensures (a + b)[n..] == a[n..] + b
  {
  }

  /** A printed number is one token, whatever non-digit follows. */
  lemma LexNumber(text: string, rest: string)
    requires NoDigitFirst(rest)
    requires (text != "" && AllDigits(text)) || (|text| > 1 && text[0] == '-' && AllDigits(text[1..]))
    ensures Lex(text + rest) == Lexed(Number(text), |text|)
  {
    var s := text + rest;
    if text[0] == '-' {
      DropOfConcat(text, rest, 2);
      DigitCountOf(text[2..], rest);
    } else {
      DropOfConcat(text, rest, 1);
      DigitCountOf(text[1..], rest);
    }
    assert s[..|text|] == text;
  }

  lemma ParsePrinted(n: nat)
    ensures ParseNumber(Print(n)) ==
            if n > I64_MAX then Err(InvalidNumber) else if n > U32_MAX then Err(NumberTooLarge) else Ok(Some(n))
  {
    PrintedValue(n);
    PrintedDigits(n);
    assert IsDigit(Print(n)[0]);
  }

  lemma ParseMinusOne()
    ensures ParseNumber("-1") == Ok(None)
  {
    assert "-1"[1..] == "1" && "1"[..0] == "";
  }

  // ---------- Texts as tokens ----------

  function TokenText(t: Token): string {
    match t
    case Number(text) => text
    case Semicolon => ";"
    case Colon => ":"
    case JumpToken(j) => [j.ToChar()]
  }

  function Text(ts: seq<FieldToken>): string {
    if ts == [] then "" else TokenText(ts[0]) + Text(ts[1..])
  }

  predicate IsNumberText(text: string) {
    (text != "" && AllDigits(text)) || (|text| > 1 && text[0] == '-' && AllDigits(text[1..]))
  }

  /** The tokens of one element: no semicolon, proper numbers, and a colon after every field. */
  predicate Separated(ts: seq<FieldToken>)
    decreases |ts|
  {
    ts == [] || (
      && (ts[0].Number? ==> IsNumberText(ts[0].text))
      && (ts[0].Colon? || |ts| == 1 || ts[1].Colon?)
      && Separated(ts[1..]))
  }

  /** The end of an element: the end of the input or a semicolon. */
  predicate ElementEnd(s: string) {
    s != "" ==> s[0] == ';'
  }

  /** What may follow a field. */
  predicate SeparatorFirst(s: string) {
    s == "" || s[0] == ':' || s[0] == ';'
  }

  lemma LexToken(t: FieldToken, more: string)
    requires t.Number? ==> IsNumberText(t.text)
    requires t.Colon? || SeparatorFirst(more)
    ensures Lex(TokenText(t) + more) == Lexed(t, |TokenText(t)|)
    ensures (TokenText(t) + more)[|TokenText(t)|..] == more
  {
    match t
    case Number(text) => LexNumber(text, more);
    case Colon =>
    case JumpToken(j) =>
  }

  lemma SeparatorFollows(ts: seq<FieldToken>, rest: string)
    requires Separated(ts) && ElementEnd(rest) && ts != [] && !ts[0].Colon?
    ensures SeparatorFirst(Text(ts[1..]) + rest)
  {
    if |ts| > 1 {
      assert ts[1].Colon? && ts[1..][0] == ts[1];
      assert Text(ts[1..]) == ":" + Text(ts[1..][1..]);
    }
  }

  /** What a row of tokens does to the state and the builder. */
  function TakeAll(ts: seq<FieldToken>, state: State, b: Builder): Taken {
    if ts == [] then Next(state, b)
    else
      match TakeToken(ts[0], state, b)
      case Refused(kind) => Refused(kind)
      case Next(state', b') => TakeAll(ts[1..], state', b')
  }

  lemma ReadOne(s: string, n: nat, more: string, token: FieldToken, state: State, b: Builder)
    requires Lex(s) == Lexed(token, n) && s[n..] == more
    ensures var r := TakeToken(token, state, b);
            ReadSegment(s, state, b) ==
            if r.Refused? then Failed(0, r.kind) else ReadSegment(more, r.state, r.builder).After(n)
  {
  }

  lemma SplitText(ts: seq<FieldToken>, rest: string)
    requires ts != []
    ensures Text(ts) + rest == TokenText(ts[0]) + (Text(ts[1..]) + rest)
    ensures |Text(ts)| == |TokenText(ts[0])| + |Text(ts[1..])|
  {
  }

  /** How the outcome of a token row and what was read belong together. */
  predicate Corresponds(r: Taken, read: Reading, length: nat, rest: string) {
    if r.Refused? then read.Failed? else read == Reading(r.builder, length + (if rest == "" then 0 else 1), rest == "")
  }

  lemma ReadNothing(rest: string, state: State, b: Builder)
    requires ElementEnd(rest)
    ensures ReadSegment(rest, state, b) == Reading(b, if rest == "" then 0 else 1, rest == "")
  {
  }

  lemma ReadFirst(ts: seq<FieldToken>, rest: string, s: string, more: string, n: nat, state: State, b: Builder)
    requires Separated(ts) && ElementEnd(rest) && ts != [] && s == Text(ts) + rest
    requires n == |TokenText(ts[0])| && more == Text(ts[1..]) + rest
    ensures var r := TakeToken(ts[0], state, b);
            ReadSegment(s, state, b) ==
            if r.Refused? then Failed(0, r.kind) else ReadSegment(more, r.state, r.builder).After(n)
  {
    SplitText(ts, rest);
    if !ts[0].Colon? { SeparatorFollows(ts, rest); }
    LexToken(ts[0], more);
    ReadOne(s, n, more, ts[0], state, b);
  }

  /** The segment reader on a text is the token row on its tokens. */
  lemma {:induction false} ReadText(ts: seq<FieldToken>, rest: string, s: string, state: State, b: Builder)
    requires Separated(ts) && ElementEnd(rest) && s == Text(ts) + rest
    ensures Corresponds(TakeAll(ts, state, b), ReadSegment(s, state, b), |Text(ts)|, rest)
    decreases |ts|
  {
    if ts == [] {
      assert s == rest;
      ReadNothing(rest, state, b);
    } else {
      var n, more := |TokenText(ts[0])|, Text(ts[1..]) + rest;
      ReadFirst(ts, rest, s, more, n, state, b);
      var r := TakeToken(ts[0], state, b);
      if r.Next? { ReadText(ts[1..], rest, more, r.state, r.builder); }
    }
  }

  // ---------- Taking printed fields ----------

  predicate Fits(n: Option<nat>) {
    n.Some? ==> n.value <= U32_MAX
  }

  function FieldText(n: Option<nat>): string {
    match n case None => "-1" case Some(v) => Print(v)
  }

  /** Taking a printed number is setting the field of the state, or failing if it does not fit. */
  lemma TakePrinted(n: Option<nat>, state: State, b: Builder)
    requires !state.Jmp?
    ensures Fits(n) ==> TakeNumber(state, b, FieldText(n)) == SetNumber(state, b, n)
    ensures !Fits(n) ==> TakeNumber(state, b, FieldText(n)).Err?
  {
    match n
    case None => ParseMinusOne();
    case Some(v) => ParsePrinted(v);
  }

  lemma TakeFirst(t: FieldToken, ts: seq<FieldToken>, state: State, b: Builder)
    ensures TakeAll([t] + ts, state, b) ==
            var r := TakeToken(t, state, b);
            if r.Refused? then r else TakeAll(ts, r.state, r.builder)
  {
    assert ([t] + ts)[1..] == ts;
  }

  // ---------- One builder ----------

  /** Every number the printer writes is an unsigned 32-bit one. */
  predicate InRange(b: Builder) {
    && Fits(b.offset) && Fits(b.length)
    && (b.index.Some? ==> Fits(b.index.value))
    && (b.index != Some(None) ==> Fits(b.modifierDepth))
  }

  /** With an index of -1 the printer writes every depth as -1, which reads back as 0. */
  function Normal(b: Builder): Builder {
    if b.index == Some(None) && b.modifierDepth.Some? then b.(modifierDepth := Some(0)) else b
  }

  /** The row takes effect exactly when `fits`, and leaves the normal form of `b`. */
  predicate Yields(ts: seq<FieldToken>, state: State, before: Builder, b: Builder, fits: bool)
  {
    var r := TakeAll(ts, state, before);
    (r.Next? <==> fits) && (fits ==> r.builder == Normal(b))
  }

  /** What an offset or length reads back from: zero beside an index of -1 is printed as -1. */
  function Written(n: Option<nat>, index: Option<Option<nat>>): Option<nat> {
    if n == Some(0) && index == Some(None) then None else n
  }

  function DepthTokens(b: Builder): seq<FieldToken> {
    if b.modifierDepth.None? then []
    else [Colon, Number(FieldText(if b.index == Some(None) then None else b.modifierDepth))]
  }

  function JumpTokens(b: Builder): seq<FieldToken> {
    if b.jump.None? && b.modifierDepth.None? then []
    else if b.jump.None? then [Colon] + DepthTokens(b)
    else [Colon, JumpToken(b.jump.value)] + DepthTokens(b)
  }

  function IndexTokens(b: Builder): seq<FieldToken> {
    if b.index.None? && b.jump.None? && b.modifierDepth.None? then []
    else if b.index.None? then [Colon] + JumpTokens(b)
    else [Colon, Number(FieldText(b.index.value))] + JumpTokens(b)
  }

  function LengthTokens(b: Builder): seq<FieldToken> {
    if b.length.None? && b.index.None? && b.jump.None? && b.modifierDepth.None? then []
    else if b.length.None? then [Colon] + IndexTokens(b)
    else [Colon, Number(FieldText(Written(b.length, b.index)))] + IndexTokens(b)
  }

  function BuilderTokens(b: Builder): seq<FieldToken> {
    if b.offset.None? then LengthTokens(b) else [Number(FieldText(Written(b.offset, b.index)))] + LengthTokens(b)
  }

  predicate DepthFits(b: Builder) {
    b.index != Some(None) ==> Fits(b.modifierDepth)
  }

  lemma TakeDepth(b: Builder)
    ensures Yields(DepthTokens(b), Jmp, b.(modifierDepth := None), b, DepthFits(b))
  {
    var before := b.(modifierDepth := None);
    if b.modifierDepth.Some? {
      var n := if b.index == Some(None) then None else b.modifierDepth;
      var t := Number(FieldText(n));
      assert DepthTokens(b) == [Colon] + [t] && [t] == [t] + [];
      TakeFirst(Colon, [t], Jmp, before);
      TakeFirst(t, [], Modifier, before);
      TakePrinted(n, Modifier, before);
    }
  }

  lemma TakeJump(b: Builder)
    ensures Yields(JumpTokens(b), Index, b.(jump := None, modifierDepth := None), b, DepthFits(b))
  {
    var before := b.(jump := None, modifierDepth := None);
    var tail := DepthTokens(b);
    TakeDepth(b);
    if b.jump.Some? {
      var t := JumpToken(b.jump.value);
      assert JumpTokens(b) == [Colon] + ([t] + tail);
      TakeFirst(Colon, [t] + tail, Index, before);
      TakeFirst(t, tail, Jmp, before);
    } else if b.modifierDepth.Some? {
      assert JumpTokens(b) == [Colon] + tail;
      TakeFirst(Colon, tail, Index, before);
    }
  }

  predicate IndexFits(b: Builder) {
    (b.index.Some? ==> Fits(b.index.value)) && DepthFits(b)
  }

  lemma TakeIndex(b: Builder)
    ensures Yields(IndexTokens(b), Length, b.(index := None, jump := None, modifierDepth := None), b, IndexFits(b))
  {
    var before := b.(index := None, jump := None, modifierDepth := None);
    var tail := JumpTokens(b);
    TakeJump(b);
    if b.index.Some? {
      var t := Number(FieldText(b.index.value));
      assert IndexTokens(b) == [Colon] + ([t] + tail);
      TakeFirst(Colon, [t] + tail, Length, before);
      TakeFirst(t, tail, Index, before);
      TakePrinted(b.index.value, Index, before);
    } else if IndexTokens(b) != [] {
      assert IndexTokens(b) == [Colon] + tail;
      TakeFirst(Colon, tail, Length, before);
    }
  }

  lemma TakeLength(b: Builder)
    ensures Yields(LengthTokens(b), Offset, Builder(b.offset, None, None, None, None), b,
                   Fits(b.length) && IndexFits(b))
  {
    var before := Builder(b.offset, None, None, None, None);
    var tail := IndexTokens(b);
    TakeIndex(b);
    if b.length.Some? {
      var n := Written(b.length, b.index);
      var t := Number(FieldText(n));
      assert LengthTokens(b) == [Colon] + ([t] + tail);
      TakeFirst(Colon, [t] + tail, Offset, before);
      TakeFirst(t, tail, Length, before);
      TakePrinted(n, Length, before);
    } else if LengthTokens(b) != [] {
      assert LengthTokens(b) == [Colon] + tail;
      TakeFirst(Colon, tail, Offset, before);
    }
  }

  lemma TakeBuilder(b: Builder)
    ensures Yields(BuilderTokens(b), Offset, EmptyBuilder, b, InRange(b))
  {
    var tail := LengthTokens(b);
    TakeLength(b);
    if b.offset.Some? {
      var n := Written(b.offset, b.index);
      var t := Number(FieldText(n));
      assert BuilderTokens(b) == [t] + tail;
      TakeFirst(t, tail, Offset, EmptyBuilder);
      TakePrinted(n, Offset, EmptyBuilder);
    } else {
      assert BuilderTokens(b) == tail;
    }
  }

  lemma NumberTextOf(n: Option<nat>)
    ensures IsNumberText(FieldText(n))
  {
    if n.Some? { PrintedDigits(n.value); }
  }

  /** What can follow a field: nothing, or a colon and more fields. */
  predicate Row(ts: seq<FieldToken>) {
    Separated(ts) && (ts == [] || ts[0].Colon?)
  }

  lemma RowGrows(t: FieldToken, tail: seq<FieldToken>)
    requires Row(tail)
    ensures Row([Colon] + tail)
    ensures (t.Number? ==> IsNumberText(t.text)) ==> Separated([t] + tail) && Row([Colon, t] + tail)
  {
    assert ([Colon] + tail)[1..] == tail && ([t] + tail)[1..] == tail;
    assert ([Colon, t] + tail)[1..] == [t] + tail;
    hide IsNumberText;
  }

  lemma JumpRow(b: Builder)
    ensures Row(JumpTokens(b))
  {
    var n := if b.index == Some(None) then None else b.modifierDepth;
    NumberTextOf(n);
    RowGrows(Number(FieldText(n)), []);
    assert [Colon, Number(FieldText(n))] + [] == [Colon, Number(FieldText(n))];
    hide FieldText, IsNumberText, Separated;
    assert Row(DepthTokens(b));
    RowGrows(if b.jump.Some? then JumpToken(b.jump.value) else Colon, DepthTokens(b));
  }

  lemma LengthRow(b: Builder)
    ensures Row(LengthTokens(b))
  {
    JumpRow(b);
    var index := if b.index.Some? then b.index.value else None;
    NumberTextOf(index);
    NumberTextOf(Written(b.length, b.index));
    hide FieldText, IsNumberText, Separated, JumpTokens, Written;
    assert Row([]) by { RowOfNothing(); }
    RowGrows(Number(FieldText(index)), JumpTokens(b));
    assert Row(IndexTokens(b));
    RowGrows(Number(FieldText(Written(b.length, b.index))), IndexTokens(b));
  }

  lemma RowOfNothing()
    ensures Row([])
  {}

  lemma TokensSeparated(b: Builder)
    ensures Separated(BuilderTokens(b))
  {
    LengthRow(b);
    NumberTextOf(Written(b.offset, b.index));
    hide FieldText, IsNumberText, Separated, LengthTokens, Written;
    RowGrows(Number(FieldText(Written(b.offset, b.index))), LengthTokens(b));
  }

  lemma TextOfField(t: FieldToken, ts: seq<FieldToken>)
    ensures Text([Colon] + ts) == ":" + Text(ts)
    ensures Text([Colon, t] + ts) == ":" + TokenText(t) + Text(ts)
    ensures Text([t] + ts) == TokenText(t) + Text(ts)
  {
    assert ([Colon] + ts)[1..] == ts && ([t] + ts)[1..] == ts;
    assert ([Colon, t] + ts)[1..] == [t] + ts;
  }

  lemma DepthPartText(b: Builder)
    ensures DepthPart(b) == Text(DepthTokens(b))
  {
    if b.modifierDepth.Some? {
      var t := Number(FieldText(if b.index == Some(None) then None else b.modifierDepth));
      assert DepthTokens(b) == [Colon, t] + [];
      TextOfField(t, []);
    }
  }

  lemma JumpPartText(b: Builder)
    ensures JumpPart(b) == Text(JumpTokens(b))
  {
    var tail := DepthTokens(b);
    DepthPartText(b);
    if b.jump.Some? {
      var t := JumpToken(b.jump.value);
      assert JumpTokens(b) == [Colon, t] + tail;
      TextOfField(t, tail);
    } else if b.modifierDepth.Some? {
      assert JumpTokens(b) == [Colon] + tail;
      TextOfField(Colon, tail);
    }
  }

  lemma IndexPartText(b: Builder)
    ensures IndexPart(b) == Text(IndexTokens(b))
  {
    var tail := JumpTokens(b);
    JumpPartText(b);
    if b.index.Some? {
      var t := Number(FieldText(b.index.value));
      assert IndexTokens(b) == [Colon, t] + tail;
      TextOfField(t, tail);
    } else if IndexTokens(b) != [] {
      assert IndexTokens(b) == [Colon] + tail;
      TextOfField(Colon, tail);
    }
  }

  lemma LengthPartText(b: Builder)
    ensures LengthPart(b) == Text(LengthTokens(b))
  {
    var tail := IndexTokens(b);
    IndexPartText(b);
    if b.length.Some? {
      var t := Number(FieldText(Written(b.length, b.index)));
      assert LengthTokens(b) == [Colon, t] + tail;
      TextOfField(t, tail);
    } else if LengthTokens(b) != [] {
      assert LengthTokens(b) == [Colon] + tail;
      TextOfField(Colon, tail);
    }
  }

  /** The printer writes the text of the builder's tokens. */
  lemma PrintedTokens(b: Builder)
    ensures PrintBuilder(b) == Text(BuilderTokens(b))
  {
    LengthPartText(b);
    if b.offset.Some? {
      var t := Number(FieldText(Written(b.offset, b.index)));
      assert BuilderTokens(b) == [t] + LengthTokens(b);
      TextOfField(t, LengthTokens(b));
    } else {
      assert BuilderTokens(b) == LengthTokens(b);
    }
  }

  /** Reading one printed builder succeeds exactly when its numbers fit, and yields its normal form. */
  lemma ReadPrinted(b: Builder, rest: string, s: string)
    requires ElementEnd(rest) && s == PrintBuilder(b) + rest
    ensures var r := ReadSegment(s, Offset, EmptyBuilder);
            && (r.Reading? <==> InRange(b))
            && (InRange(b) ==> r == Reading(Normal(b), |PrintBuilder(b)| + (if rest == "" then 0 else 1), rest == ""))
  {
    PrintedTokens(b);
    TokensSeparated(b);
    TakeBuilder(b);
    ReadText(BuilderTokens(b), rest, s, Offset, EmptyBuilder);
  }
}
