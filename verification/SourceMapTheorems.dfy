/**
 Whole source maps: how many elements a map has, what the fields of each element mean, and
 when exactly the parser undoes the two printers.
 */
module SourceMapTheorems {
  import opened Common
  import opened Decimal
  import opened SourceMap
  import opened SourceMapRoundTrip

  // ---------- Parsing is reading builders and folding them ----------

  /** The builders of `s`, one per element. */
  function Builders(s: string, pos: nat): (r: Result<seq<Builder>, SyntaxError>)
    ensures r.Ok? ==> |r.value| > 0
    decreases |s|
  {
    match ReadSegment(s, Offset, EmptyBuilder)
    case Failed(at, kind) => Err(SyntaxError(Some(pos + at), kind))
    case Reading(b, n, last) =>
      if last then Ok([b])
      else
        match Builders(s[n..], pos + n)
        case Err(e) => Err(e)
        case Ok(rest) => Ok([b] + rest)
  }

  function ParseBuilders(s: string): Result<seq<Builder>, SyntaxError> {
    if s == "" then Ok([]) else Builders(s, 0)
  }

  function FinishAll(bs: seq<Builder>, prev: Element): Result<seq<Element>, SyntaxError>
    requires Legal(prev.jumpAndDepth)
    decreases |bs|
  {
    if bs == [] then Ok([])
    else
      match Finish(bs[0], prev)
      case Err(e) => Err(e)
      case Ok(element) =>
        match FinishAll(bs[1..], element)
        case Err(e) => Err(e)
        case Ok(rest) => Ok([element] + rest)
  }

  lemma {:induction false} ElementsAreFolded(s: string, pos: nat, prev: Element)
    requires Legal(prev.jumpAndDepth)
    ensures var bs := Builders(s, pos);
            if bs.Ok? then Elements(s, pos, prev) == FinishAll(bs.value, prev) else Elements(s, pos, prev).Err?
    decreases |s|
  {
    var r := ReadSegment(s, Offset, EmptyBuilder);
    if r.Reading? {
      var first := Finish(r.builder, prev);
      if r.last {
        assert [r.builder][1..] == [];
        if first.Ok? {
          assert FinishAll([], first.value) == Ok([]);
          assert [first.value] + [] == [first.value];
        }
      } else {
        var rest := Builders(s[r.length..], pos + r.length);
        if rest.Ok? { assert ([r.builder] + rest.value)[1..] == rest.value; }
        if first.Ok? { ElementsAreFolded(s[r.length..], pos + r.length, first.value); }
      }
    }
  }

  /** The parser is the fold of `finish` over the builders; it fails whenever reading them does. */
  lemma ParseIsAFold(s: string)
    ensures var bs := ParseBuilders(s);
            if bs.Ok? then Parse(s) == FinishAll(bs.value, DefaultElement) else Parse(s).Err?
  {
    if s != "" { ElementsAreFolded(s, 0, DefaultElement); }
  }

  // ---------- How many elements ----------

  function Semicolons(s: string): nat {
    if s == "" then 0 else (if s[0] == ';' then 1 else 0) + Semicolons(s[1..])
  }

  lemma {:induction false} SemicolonsOfConcat(a: string, b: string)
    ensures Semicolons(a + b) == Semicolons(a) + Semicolons(b)
  {
    if a == "" {
      assert a + b == b;
    } else {
      assert (a + b)[1..] == a[1..] + b;
      SemicolonsOfConcat(a[1..], b);
    }
  }

  lemma {:induction false} DigitsHoldNoSemicolon(s: string)
    ensures DigitCount(s) <= |s| && Semicolons(s[..DigitCount(s)]) == 0
  {
    if s != "" && IsDigit(s[0]) {
      var n := DigitCount(s);
      DigitsHoldNoSemicolon(s[1..]);
      assert s[..n][1..] == s[1..][..n - 1];
    }
  }

  lemma TokenSemicolons(s: string)
    requires Lex(s).Lexed?
    ensures Semicolons(s[..Lex(s).length]) == if Lex(s).token.Semicolon? then 1 else 0
  {
    var n := Lex(s).length;
    assert s[..1] == [s[0]] && s[..1][1..] == "";
    if Lex(s).token.Number? {
      if s[0] == '-' {
        DigitsHoldNoSemicolon(s[2..]);
        assert s[..n] == [s[0], s[1]] + s[2..][..n - 2];
        SemicolonsOfConcat([s[0], s[1]], s[2..][..n - 2]);
        assert [s[0], s[1]][1..] == [s[1]] && [s[1]][1..] == "";
      } else {
        DigitsHoldNoSemicolon(s[1..]);
        assert s[..n] == [s[0]] + s[1..][..n - 1];
        SemicolonsOfConcat([s[0]], s[1..][..n - 1]);
      }
    }
  }

  /** Reading a segment is reading its first token and then the rest. */
  lemma SegmentStep(s: string, state: State, b: Builder)
    requires ReadSegment(s, state, b).Reading? && s != "" && !Lex(s).token.Semicolon?
    ensures Lex(s).Lexed? && TakeToken(Lex(s).token, state, b).Next?
    ensures var n, t := Lex(s).length, TakeToken(Lex(s).token, state, b);
            ReadSegment(s[n..], t.state, t.builder).Reading?
            && ReadSegment(s, state, b) == ReadSegment(s[n..], t.state, t.builder).After(n)
  {
    hide TakeToken;
  }

  lemma SegmentEnds(s: string, state: State, b: Builder)
    requires ReadSegment(s, state, b).Reading?
    ensures s == "" ==> ReadSegment(s, state, b) == Reading(b, 0, true)
    ensures s != "" ==> Lex(s).Lexed?
    ensures s != "" && Lex(s).token.Semicolon? ==> ReadSegment(s, state, b) == Reading(b, Lex(s).length, false)
  {
    hide TakeToken;
  }

  lemma NoSemicolonsInNothing()
    ensures Semicolons("") == 0
  {}

  /** A segment holds one semicolon, at its end, unless the input ends with it. */
  lemma {:induction false} SegmentSemicolons(s: string, state: State, b: Builder)
    requires ReadSegment(s, state, b).Reading?
    ensures var r := ReadSegment(s, state, b);
            Semicolons(s[..r.length]) == if r.last then 0 else 1
    decreases |s|
  {
    hide *;
    var r := ReadSegment(s, state, b);
    SegmentEnds(s, state, b);
    if s == "" {
      NoSemicolonsInNothing();
      return;
    }
    TokenSemicolons(s);
    if Lex(s).token.Semicolon? { return; }
    SegmentStep(s, state, b);
    var n, t := Lex(s).length, TakeToken(Lex(s).token, state, b);
    var rest := ReadSegment(s[n..], t.state, t.builder);
    SegmentSemicolons(s[n..], t.state, t.builder);
    LaterReading(rest, n);
    assert s[..r.length] == s[..n] + s[n..][..rest.length];
    SemicolonsOfConcat(s[..n], s[n..][..rest.length]);
  }

  lemma LaterReading(r: Reading, n: nat)
    requires r.Reading?
    ensures r.After(n) == Reading(r.builder, n + r.length, r.last)
  {}

  lemma {:induction false} BuilderCount(s: string, pos: nat)
    requires Builders(s, pos).Ok?
    ensures |Builders(s, pos).value| == Semicolons(s) + 1
    decreases |s|
  {
    hide Semicolons, ReadSegment;
    var r := ReadSegment(s, Offset, EmptyBuilder);
    SegmentSemicolons(s, Offset, EmptyBuilder);
    NoSemicolonsInNothing();
    assert s == s[..r.length] + s[r.length..];
    SemicolonsOfConcat(s[..r.length], s[r.length..]);
    if !r.last { BuilderCount(s[r.length..], pos + r.length); }
  }

  lemma {:induction false} FinishAllLength(bs: seq<Builder>, prev: Element)
    requires Legal(prev.jumpAndDepth) && FinishAll(bs, prev).Ok?
    ensures |FinishAll(bs, prev).value| == |bs|
    decreases |bs|
  {
    if bs != [] { FinishAllLength(bs[1..], Finish(bs[0], prev).value); }
  }

  /** A successful parse yields nothing for the empty input and else one element more than there are semicolons. */
  lemma ElementCount(s: string)
    requires Parse(s).Ok?
    ensures |Parse(s).value| == if s == "" then 0 else Semicolons(s) + 1
  {
    ParseIsAFold(s);
    if s != "" {
      BuilderCount(s, 0);
      FinishAllLength(ParseBuilders(s).value, DefaultElement);
    }
  }

  // ---------- What the fields mean ----------

  /** The most recent explicit value of a field at or before element `i`, else the default. */
  function LastSet<T>(bs: seq<Builder>, i: nat, field: Builder -> Option<T>, default: T): T
    requires i < |bs|
  {
    match field(bs[i])
    case Some(v) => v
    case None => if i == 0 then default else LastSet(bs, i - 1, field, default)
  }

  lemma {:induction false} LastSetShift<T>(bs: seq<Builder>, i: nat, field: Builder -> Option<T>, default: T)
    requires 0 < i < |bs|
    ensures LastSet(bs, i, field, default) ==
            LastSet(bs[1..], i - 1, field, if field(bs[0]).Some? then field(bs[0]).value else default)
  {
    if i > 1 { LastSetShift(bs, i - 1, field, default); }
  }

  function OffsetOf(b: Builder): Option<nat> { b.offset }
  function LengthOf(b: Builder): Option<nat> { b.length }
  function JumpSet(b: Builder): Option<Jump> { b.jump }
  function DepthSet(b: Builder): Option<nat> { b.modifierDepth }

  /** -1 stands for no source file; larger indices than an i32 holds wrap around. */
  function IndexOf(b: Builder): Option<int> {
    match b.index
    case None => None
    case Some(None) => Some(-1)
    case Some(Some(x)) => Some(AsI32(x))
  }

  lemma FinishFields(b: Builder, prev: Element)
    requires Legal(prev.jumpAndDepth) && Finish(b, prev).Ok?
    ensures var e := Finish(b, prev).value;
            && e.offset == (if b.offset.Some? then b.offset.value else prev.offset)
            && e.length == (if b.length.Some? then b.length.value else prev.length)
            && e.index == (if IndexOf(b).Some? then IndexOf(b).value else prev.index)
            && JumpOf(e.jumpAndDepth) == (if b.jump.Some? then b.jump.value else JumpOf(prev.jumpAndDepth))
            && DepthOf(e.jumpAndDepth) ==
               (if b.modifierDepth.Some? then b.modifierDepth.value else DepthOf(prev.jumpAndDepth))
  {
  }

  /** All five fields of element `i`, from the builders so far and the element before the first. */
  ghost predicate FieldsMean(bs: seq<Builder>, i: nat, e: Element, start: Element)
    requires i < |bs| && Legal(start.jumpAndDepth)
  {
    && Legal(e.jumpAndDepth) && DepthOf(e.jumpAndDepth) < TWO_30
    && e.offset == LastSet(bs, i, OffsetOf, start.offset)
    && e.length == LastSet(bs, i, LengthOf, start.length)
    && e.index == LastSet(bs, i, IndexOf, start.index)
    && JumpOf(e.jumpAndDepth) == LastSet(bs, i, JumpSet, JumpOf(start.jumpAndDepth))
    && DepthOf(e.jumpAndDepth) == LastSet(bs, i, DepthSet, DepthOf(start.jumpAndDepth))
  }

  lemma FieldsMeanLater(bs: seq<Builder>, i: nat, e: Element, start: Element)
    requires 0 < i < |bs| && Legal(start.jumpAndDepth) && Finish(bs[0], start).Ok?
    requires FieldsMean(bs[1..], i - 1, e, Finish(bs[0], start).value)
    ensures FieldsMean(bs, i, e, start)
  {
    FinishFields(bs[0], start);
    LastSetShift(bs, i, OffsetOf, start.offset);
    LastSetShift(bs, i, LengthOf, start.length);
    LastSetShift(bs, i, IndexOf, start.index);
    LastSetShift(bs, i, JumpSet, JumpOf(start.jumpAndDepth));
    LastSetShift(bs, i, DepthSet, DepthOf(start.jumpAndDepth));
  }

  lemma {:induction false} FoldFieldsMean(bs: seq<Builder>, start: Element, i: nat)
    requires Legal(start.jumpAndDepth) && FinishAll(bs, start).Ok? && i < |bs|
    ensures i < |FinishAll(bs, start).value| && FieldsMean(bs, i, FinishAll(bs, start).value[i], start)
    decreases |bs|
  {
    var first := Finish(bs[0], start).value;
    FinishFields(bs[0], start);
    if i > 0 {
      FoldFieldsMean(bs[1..], first, i - 1);
      FieldsMeanLater(bs, i, FinishAll(bs[1..], first).value[i - 1], start);
    }
  }

  /**
   Delta decoding. In every successful parse each field of element i is its most recent
   explicit value at or before i, else the default, and the packed word is one of the three
   jumps with a depth below 2^30.
   */
  lemma DeltaDecoding(s: string, i: nat)
    requires Parse(s).Ok? && i < |Parse(s).value|
    ensures ParseBuilders(s).Ok? && i < |ParseBuilders(s).value|
    ensures FieldsMean(ParseBuilders(s).value, i, Parse(s).value[i], DefaultElement)
  {
    ParseIsAFold(s);
    FinishAllLength(ParseBuilders(s).value, DefaultElement);
    FoldFieldsMean(ParseBuilders(s).value, DefaultElement, i);
  }

  // ---------- The compressed form ----------

  function Printed(bs: seq<Builder>): seq<string> {
    if bs == [] then [] else [PrintBuilder(bs[0])] + Printed(bs[1..])
  }

  function NormalAll(bs: seq<Builder>): seq<Builder> {
    if bs == [] then [] else [Normal(bs[0])] + NormalAll(bs[1..])
  }

  lemma {:induction false} NormalAllUnchanged(bs: seq<Builder>)
    ensures NormalAll(bs) == bs <==> forall i :: 0 <= i < |bs| ==> Normal(bs[i]) == bs[i]
  {
    if bs != [] {
      NormalAllUnchanged(bs[1..]);
      assert bs == [bs[0]] + bs[1..];
      if forall i :: 0 <= i < |bs| ==> Normal(bs[i]) == bs[i] {
        forall i | 0 <= i < |bs[1..]| ensures Normal(bs[1..][i]) == bs[1..][i] { assert bs[1..][i] == bs[i + 1]; }
      }
      if NormalAll(bs) == bs {
        assert NormalAll(bs)[1..] == NormalAll(bs[1..]);
        forall i | 0 <= i < |bs| ensures Normal(bs[i]) == bs[i] { if i > 0 { assert bs[i] == bs[1..][i - 1]; } }
      }
    }
  }

  predicate AllInRange(bs: seq<Builder>) {
    forall i :: 0 <= i < |bs| ==> InRange(bs[i])
  }

  lemma RangeSplits(bs: seq<Builder>)
    requires bs != []
    ensures AllInRange(bs) <==> InRange(bs[0]) && AllInRange(bs[1..])
  {
    if AllInRange(bs) {
      forall i | 0 <= i < |bs[1..]| ensures InRange(bs[1..][i]) { assert bs[1..][i] == bs[i + 1]; }
    } else {
      var i :| 0 <= i < |bs| && !InRange(bs[i]);
      assert i > 0 ==> bs[1..][i - 1] == bs[i];
    }
  }

  lemma JoinedFirst(bs: seq<Builder>, s: string, tail: string)
    requires |bs| > 1 && s == Join(Printed(bs)) && tail == Join(Printed(bs[1..]))
    ensures var r := ReadSegment(s, Offset, EmptyBuilder);
            && (r.Reading? <==> InRange(bs[0]))
            && (r.Reading? ==> r.builder == Normal(bs[0]) && !r.last && s[r.length..] == tail)
  {
    assert Printed(bs)[1..] == Printed(bs[1..]);
    assert s == PrintBuilder(bs[0]) + (";" + tail);
    ReadPrinted(bs[0], ";" + tail, s);
  }

  lemma JoinedLast(b: Builder, s: string)
    requires s == Join(Printed([b]))
    ensures var r := ReadSegment(s, Offset, EmptyBuilder);
            && (r.Reading? <==> InRange(b))
            && (r.Reading? ==> r.builder == Normal(b) && r.last)
  {
    assert Printed([b]) == [PrintBuilder(b)];
    assert s == PrintBuilder(b) + "";
    ReadPrinted(b, "", s);
  }

  lemma BuildersStep(s: string, pos: nat, b: Builder, n: nat, tail: string)
    requires ReadSegment(s, Offset, EmptyBuilder) == Reading(b, n, false) && s[n..] == tail
    ensures var rest := Builders(tail, pos + n);
            Builders(s, pos) == if rest.Err? then rest else Ok([b] + rest.value)
  {
    hide ReadSegment;
  }

  lemma {:induction false} JoinedBuilders(bs: seq<Builder>, s: string, pos: nat)
    requires bs != [] && s == Join(Printed(bs))
    ensures Builders(s, pos).Ok? <==> AllInRange(bs)
    ensures AllInRange(bs) ==> Builders(s, pos) == Ok(NormalAll(bs))
    decreases |bs|
  {
    hide ReadSegment, Normal, InRange, PrintBuilder;
    RangeSplits(bs);
    if |bs| == 1 {
      assert bs == [bs[0]] && AllInRange(bs[1..]);
      JoinedLast(bs[0], s);
      assert NormalAll(bs) == [Normal(bs[0])];
    } else {
      var tail := Join(Printed(bs[1..]));
      var r := ReadSegment(s, Offset, EmptyBuilder);
      JoinedFirst(bs, s, tail);
      if InRange(bs[0]) {
        JoinedBuilders(bs[1..], tail, pos + r.length);
        var rest := Builders(tail, pos + r.length);
        assert Builders(s, pos) == if rest.Err? then rest else Ok([Normal(bs[0])] + rest.value) by {
          BuildersStep(s, pos, Normal(bs[0]), r.length, tail);
        }
      }
    }
  }

  /** Only a list of no elements, or of a single unset one, prints as nothing. */
  lemma PrintsNothing(bs: seq<Builder>)
    ensures Join(Printed(bs)) == "" <==> bs == [] || bs == [EmptyBuilder]
  {
    if |bs| == 1 {
      var b := bs[0];
      assert Join(Printed(bs)) == PrintBuilder(b);
      if PrintBuilder(b) == "" { assert LengthPart(b) == "" && NumberText(b.offset, b.index) == ""; }
    } else if |bs| > 1 {
      assert |Join(Printed(bs))| >= |Printed(bs)[0]| + 1;
    }
  }

  /** What the printer of the compressed form can express. */
  predicate Expressible(bs: seq<Builder>) {
    && bs != [EmptyBuilder]
    && (forall i :: 0 <= i < |bs| ==> InRange(bs[i]))
    && (forall i :: 0 <= i < |bs| && bs[i].index == Some(None) && bs[i].modifierDepth.Some? ==>
        bs[i].modifierDepth == Some(0))
  }

  /**
   Round trip of the compressed form: parsing what the builders print gives the same
   builders if and only if every number fits 32 bits, no depth other than 0 stands beside
   an index of -1, and the list is not a single empty builder.
   */
  lemma CompressedRoundTrip(bs: seq<Builder>)
    ensures ParseBuilders(Join(Printed(bs))) == Ok(bs) <==> Expressible(bs)
  {
    var s := Join(Printed(bs));
    PrintsNothing(bs);
    if bs != [] && s != "" {
      JoinedBuilders(bs, s, 0);
      NormalAllUnchanged(bs);
    }
  }

  /** Hence the decoded elements survive compression, errors included. */
  lemma CompressionKeepsMeaning(bs: seq<Builder>)
    requires Expressible(bs)
    ensures Parse(Join(Printed(bs))) == FinishAll(bs, DefaultElement)
  {
    CompressedRoundTrip(bs);
    ParseIsAFold(Join(Printed(bs)));
  }

  // ---------- The full form ----------

  function IntToken(n: int): FieldToken {
    Number(PrintInt(n))
  }

  function ElementTokens(e: Element): seq<FieldToken>
    requires Legal(e.jumpAndDepth)
  {
    [Number(Print(e.offset)), Colon, Number(Print(e.length)), Colon, IntToken(e.index), Colon,
     JumpToken(JumpOf(e.jumpAndDepth)), Colon, Number(Print(DepthOf(e.jumpAndDepth)))]
  }

  /** The builder that sets every field of `e`. */
  function FullBuilder(e: Element): Builder
    requires Legal(e.jumpAndDepth) && e.index >= -1
  {
    Builder(Some(e.offset), Some(e.length), Some(if e.index == -1 then None else Some(e.index)),
            Some(JumpOf(e.jumpAndDepth)), Some(DepthOf(e.jumpAndDepth)))
  }

  lemma Repack(word: nat)
    requires Legal(word)
    ensures Pack(JumpOf(word), DepthOf(word)) == word
  {
  }

  lemma FinishFullBuilder(e: Element, prev: Element)
    requires WellTyped(e) && e.index >= -1 && Legal(prev.jumpAndDepth)
    ensures Finish(FullBuilder(e), prev) == Ok(e)
  {
    Repack(e.jumpAndDepth);
  }

  lemma TakeInt(n: int, b: Builder)
    requires b.index.None?
    ensures var r := TakeToken(IntToken(n), Index, b);
            && (n == -1 ==> r == Next(Index, b.(index := Some(None))))
            && (0 <= n <= U32_MAX ==> r == Next(Index, b.(index := Some(Some(n)))))
            && (n < -1 ==> r.Refused?)
  {
    if n == -1 {
      assert Print(1) == "1" && "-" + "1" == "-1";
      ParseMinusOne();
    } else if n >= 0 {
      ParsePrinted(n);
    } else {
      var text := PrintInt(n);
      assert text[0] == '-' && text[1..] == Print(-n);
      PrintedValue(-n);
    }
  }

  /** The printed element as a row of tokens: it is taken exactly when the index is at least -1. */
  lemma TakeElement(e: Element)
    requires WellTyped(e)
    ensures var r := TakeAll(ElementTokens(e), Offset, EmptyBuilder);
            && (r.Next? <==> e.index >= -1)
            && (e.index >= -1 ==> r.builder == FullBuilder(e))
  {
    hide Print, DepthOf, JumpOf, TakeNumber, Separated;
    var ts := ElementTokens(e);
    var j := JumpOf(e.jumpAndDepth);
    var depth := DepthOf(e.jumpAndDepth);
    var b1 := EmptyBuilder.(offset := Some(e.offset));
    var b2 := b1.(length := Some(e.length));
    TakePrinted(Some(e.offset), Offset, EmptyBuilder);
    TakePrinted(Some(e.length), Length, b1);
    TakeInt(e.index, b2);
    TakeRow2(ts, Offset, EmptyBuilder, Length, b1);
    TakeRow2(ts[2..], Length, b1, Index, b2);
    assert ts[2..][2..] == ts[4..] && ts[4] == IntToken(e.index);
    if e.index >= -1 {
      var b3 := b2.(index := Some(if e.index == -1 then None else Some(e.index)));
      var b4 := b3.(jump := Some(j));
      TakePrinted(Some(depth), Modifier, b4);
      TakeRow2(ts[4..], Index, b2, Jmp, b3);
      assert ts[4..][2..] == ts[6..];
      TakeRow2(ts[6..], Jmp, b3, Modifier, b4);
      assert ts[6..][2..] == [ts[8]] + [];
      TakeFirst(ts[8], [], Modifier, b4);
    }
  }

  /** A field and the colon after it. */
  lemma TakeRow2(ts: seq<FieldToken>, state: State, b: Builder, state': State, b': Builder)
    requires |ts| >= 2 && ts[1] == Colon && AdvanceState(state) == Ok(state')
    requires TakeToken(ts[0], state, b) == Next(state, b')
    ensures TakeAll(ts, state, b) == TakeAll(ts[2..], state', b')
  {
    assert ts == [ts[0]] + ts[1..] && ts[1..] == [Colon] + ts[2..];
    TakeFirst(ts[0], ts[1..], state, b);
    TakeFirst(Colon, ts[2..], state, b');
  }

  lemma IntTextIsNumber(n: int)
    ensures IsNumberText(PrintInt(n))
  {
    if n < 0 {
      PrintedDigits(-n);
      assert PrintInt(n)[1..] == Print(-n);
    } else {
      PrintedDigits(n);
    }
  }

  lemma TokenBefore(t: FieldToken, ts: seq<FieldToken>)
    requires Separated(ts) && (t.Colon? || ts == [] || ts[0].Colon?)
    requires t.Number? ==> IsNumberText(t.text)
    ensures Separated([t] + ts) && Text([t] + ts) == TokenText(t) + Text(ts)
  {
    assert ([t] + ts)[1..] == ts;
    hide TokenText, IsNumberText;
  }

  /** A field, a colon and a row of tokens with the text `text`. */
  lemma PairText(t: FieldToken, ts: seq<FieldToken>, text: string)
    requires Separated(ts) && (t.Number? ==> IsNumberText(t.text)) && Text(ts) == text
    ensures Separated([t, Colon] + ts) && Text([t, Colon] + ts) == TokenText(t) + ":" + text
  {
    assert TokenText(Colon) == ":";
    hide *;
    TokenBefore(Colon, ts);
    TokenBefore(t, [Colon] + ts);
    assert [t, Colon] + ts == [t] + ([Colon] + ts);
  }

  lemma LastText(t: FieldToken)
    requires t.Number? ==> IsNumberText(t.text)
    ensures Separated([t]) && Text([t]) == TokenText(t)
  {
    assert [t][1..] == [];
    hide TokenText, IsNumberText;
  }

  lemma RowText(a: string, b: string, c: string, d: string, e: string)
    ensures a + ":" + b + ":" + c + ":" + d + ":" + e == a + ":" + (b + ":" + (c + ":" + (d + ":" + e)))
  {}

  lemma RowOfPairs(a: FieldToken, b: FieldToken, c: FieldToken, d: FieldToken, e: FieldToken)
    ensures [a, Colon, b, Colon, c, Colon, d, Colon, e] == [a, Colon] + ([b, Colon] + ([c, Colon] + ([d, Colon] + [e])))
  {}

  lemma FiveFields(a: FieldToken, b: FieldToken, c: FieldToken, d: FieldToken, e: FieldToken)
    requires forall t | t in {a, b, c, d, e} :: t.Number? ==> IsNumberText(t.text)
    ensures var ts := [a, Colon, b, Colon, c, Colon, d, Colon, e];
            && Separated(ts)
            && Text(ts) ==
               TokenText(a) + ":" + TokenText(b) + ":" + TokenText(c) + ":" + TokenText(d) + ":" + TokenText(e)
  {
    hide *;
    LastText(e);
    PairText(d, [e], TokenText(e));
    PairText(c, [d, Colon] + [e], TokenText(d) + ":" + TokenText(e));
    PairText(b, [c, Colon] + ([d, Colon] + [e]), TokenText(c) + ":" + (TokenText(d) + ":" + TokenText(e)));
    PairText(a, [b, Colon] + ([c, Colon] + ([d, Colon] + [e])),
             TokenText(b) + ":" + (TokenText(c) + ":" + (TokenText(d) + ":" + TokenText(e))));
    RowText(TokenText(a), TokenText(b), TokenText(c), TokenText(d), TokenText(e));
    RowOfPairs(a, b, c, d, e);
  }

  lemma ElementText(e: Element)
    requires Legal(e.jumpAndDepth)
    ensures Separated(ElementTokens(e)) && PrintElement(e) == Text(ElementTokens(e))
  {
    hide Print, PrintInt, DepthOf, JumpOf, Separated, Text, IsNumberText;
    NaturalIsNumber(e.offset);
    NaturalIsNumber(e.length);
    NaturalIsNumber(DepthOf(e.jumpAndDepth));
    IntTextIsNumber(e.index);
    FiveFields(Number(Print(e.offset)), Number(Print(e.length)), IntToken(e.index), JumpToken(JumpOf(e.jumpAndDepth)),
               Number(Print(DepthOf(e.jumpAndDepth))));
  }

  lemma NaturalIsNumber(n: nat)
    ensures IsNumberText(Print(n))
  {
    PrintedDigits(n);
    hide Print;
  }

  lemma ReadElement(e: Element, rest: string, s: string)
    requires WellTyped(e) && ElementEnd(rest) && s == PrintElement(e) + rest
    ensures var r := ReadSegment(s, Offset, EmptyBuilder);
            && (r.Reading? <==> e.index >= -1)
            && (r.Reading? ==>
                  r == Reading(FullBuilder(e), |PrintElement(e)| + (if rest == "" then 0 else 1), rest == ""))
  {
    ElementText(e);
    TakeElement(e);
    ReadText(ElementTokens(e), rest, s, Offset, EmptyBuilder);
  }

  predicate AllWellTyped(es: seq<Element>) {
    forall i :: 0 <= i < |es| ==> WellTyped(es[i])
  }

  function PrintedElements(es: seq<Element>): seq<string>
    requires AllWellTyped(es)
  {
    if es == [] then [] else [PrintElement(es[0])] + PrintedElements(es[1..])
  }

  predicate IndicesPrint(es: seq<Element>) {
    forall i :: 0 <= i < |es| ==> es[i].index >= -1
  }

  lemma IndicesSplit(es: seq<Element>)
    requires es != []
    ensures IndicesPrint(es) <==> es[0].index >= -1 && IndicesPrint(es[1..])
  {
    if IndicesPrint(es) {
      forall i | 0 <= i < |es[1..]| ensures es[1..][i].index >= -1 { assert es[1..][i] == es[i + 1]; }
    } else {
      var i :| 0 <= i < |es| && es[i].index < -1;
      assert i > 0 ==> es[1..][i - 1] == es[i];
    }
  }

  lemma JoinedFirstElement(es: seq<Element>, s: string)
    requires AllWellTyped(es) && es != [] && s == Join(PrintedElements(es))
    ensures var r := ReadSegment(s, Offset, EmptyBuilder);
            && (r.Reading? <==> es[0].index >= -1)
            && (r.Reading? ==>
                  && r.builder == FullBuilder(es[0]) && (r.last <==> |es| == 1)
                  && (|es| > 1 ==> s[r.length..] == Join(PrintedElements(es[1..]))))
  {
    hide ReadSegment, PrintElement;
    assert PrintedElements(es)[1..] == PrintedElements(es[1..]);
    var rest := if |es| == 1 then "" else ";" + Join(PrintedElements(es[1..]));
    assert s == PrintElement(es[0]) + rest;
    ReadElement(es[0], rest, s);
  }

  lemma ElementsStep(s: string, pos: nat, prev: Element, b: Builder, n: nat, last: bool, e: Element)
    requires ReadSegment(s, Offset, EmptyBuilder) == Reading(b, n, last) && Legal(prev.jumpAndDepth) &&
             Finish(b, prev) == Ok(e)
    ensures last ==> Elements(s, pos, prev) == Ok([e])
    ensures !last ==> var rest := Elements(s[n..], pos + n, e);
            Elements(s, pos, prev) == if rest.Err? then rest else Ok([e] + rest.value)
  {
    hide ReadSegment;
  }

  lemma RefusedElements(s: string, pos: nat, prev: Element)
    requires Legal(prev.jumpAndDepth) && !ReadSegment(s, Offset, EmptyBuilder).Reading?
    ensures Elements(s, pos, prev).Err?
  {
    hide ReadSegment;
  }

  lemma TypedRest(es: seq<Element>)
    requires AllWellTyped(es) && es != []
    ensures WellTyped(es[0]) && Legal(es[0].jumpAndDepth) && AllWellTyped(es[1..])
  {}

  lemma {:induction false} JoinedElements(es: seq<Element>, s: string, pos: nat, prev: Element)
    requires AllWellTyped(es) && es != [] && s == Join(PrintedElements(es)) && Legal(prev.jumpAndDepth)
    ensures Elements(s, pos, prev).Ok? <==> IndicesPrint(es)
    ensures IndicesPrint(es) ==> Elements(s, pos, prev) == Ok(es)
    decreases |es|
  {
    hide *;
    TypedRest(es);
    IndicesSplit(es);
    JoinedFirstElement(es, s);
    var r := ReadSegment(s, Offset, EmptyBuilder);
    if !r.Reading? {
      RefusedElements(s, pos, prev);
      return;
    }
    FinishFullBuilder(es[0], prev);
    ElementsStep(s, pos, prev, r.builder, r.length, r.last, es[0]);
    assert es == [es[0]] + es[1..];
    if |es| == 1 {
      assert es == [es[0]] && es[1..] == [];
      AllPrintNothing();
    } else {
      JoinedElements(es[1..], s[r.length..], pos + r.length, es[0]);
    }
  }

  lemma AllPrintNothing()
    ensures IndicesPrint([])
  {}

  /**
   Round trip of the full form: for any list of elements of the Rust type, parsing their
   ';'-joined printing gives the list back if and only if every index is at least -1;
   otherwise the parser refuses.
   */
  lemma FullRoundTrip(es: seq<Element>)
    requires AllWellTyped(es)
    ensures Parse(Join(PrintedElements(es))) == Ok(es) <==> IndicesPrint(es)
    ensures !IndicesPrint(es) ==> Parse(Join(PrintedElements(es))).Err?
  {
    if es != [] {
      var s := Join(PrintedElements(es));
      assert s != "" by {
        assert PrintElement(es[0]) != "";
        assert |s| >= |PrintedElements(es)[0]|;
      }
      JoinedElements(es, s, 0, DefaultElement);
    }
  }

  // ---------- The text itself ----------

  /** The letter in a printed element is the jump, and it goes above the 30 bits of the depth. */
  lemma PlainElement(offset: nat, length: nat, index: int, jump: Jump, depth: nat)
    requires offset <= U32_MAX && length <= U32_MAX && -1 <= index < 0x8000_0000 && depth < 0x4000_0000
    ensures var letter := if jump.In? then "i" else if jump.Out? then "o" else "-";
            var top := if jump.In? then 0 else if jump.Out? then 0x4000_0000 else 0x8000_0000;
            Parse(Print(offset) + ":" + Print(length) + ":" + (if index == -1 then "-1" else Print(index)) +
                  ":" + letter + ":" + Print(depth))
            == Ok([Element(offset, length, index, top + depth)])
  {
    var top := if jump.In? then 0 else if jump.Out? then 0x4000_0000 else 0x8000_0000;
    var e := Element(offset, length, index, top + depth);
    hide *;
    PlainWord(jump, depth, top);
    PlainText(e, jump, depth);
    Lone(e);
    FullRoundTrip([e]);
  }

  lemma PlainWord(jump: Jump, depth: nat, top: nat)
    requires depth < 0x4000_0000 && top == if jump.In? then 0 else if jump.Out? then 0x4000_0000 else 0x8000_0000
    ensures Legal(top + depth) && JumpOf(top + depth) == jump && DepthOf(top + depth) == depth
  {
  }

  lemma PlainText(e: Element, jump: Jump, depth: nat)
    requires Legal(e.jumpAndDepth) && JumpOf(e.jumpAndDepth) == jump && DepthOf(e.jumpAndDepth) == depth
    requires e.index >= -1
    ensures PrintElement(e) ==
            Print(e.offset) + ":" + Print(e.length) + ":" + (if e.index == -1 then "-1" else Print(e.index)) +
            ":" + (if jump.In? then "i" else if jump.Out? then "o" else "-") + ":" + Print(depth)
  {
    assert PrintInt(e.index) == if e.index == -1 then "-1" else Print(e.index) by { assert Print(1) == "1"; }
    hide Print, PrintInt, Legal, JumpOf, DepthOf;
  }

  lemma Lone(e: Element)
    requires e.offset <= U32_MAX && e.length <= U32_MAX && -1 <= e.index < 0x8000_0000 && Legal(e.jumpAndDepth)
    ensures AllWellTyped([e]) && IndicesPrint([e]) && Join(PrintedElements([e])) == PrintElement(e)
  {
    hide PrintElement, Legal;
    assert [e][1..] == [];
  }

  /** Numbers above the range of an i32 come back as negative indices. */
  lemma LargeIndexWraps(x: nat)
    requires x <= U32_MAX
    ensures -0x8000_0000 <= AsI32(x) < 0x8000_0000 && (AsI32(x) - x) % 0x1_0000_0000 == 0
  {
  }

  /** The text of one field, or nothing. */
  function FieldTexts(b: Builder): (ts: seq<string>)
    ensures |ts| == 5
  {
    [match b.offset case None => "" case Some(n) => if n == 0 && b.index == Some(None) then "-1" else Print(n),
     match b.length case None => "" case Some(n) => if n == 0 && b.index == Some(None) then "-1" else Print(n),
     match b.index case None => "" case Some(None) => "-1" case Some(Some(n)) => Print(n),
     match b.jump case None => "" case Some(j) => if j.In? then "i" else if j.Out? then "o" else "-",
     match b.modifierDepth case None => "" case Some(n) => if b.index == Some(None) then "-1" else Print(n)]
  }

  predicate EndsProperly(s: string) {
    s != "" ==> s[|s| - 1] != ':'
  }

  predicate AllColons(s: string) {
    forall i :: 0 <= i < |s| ==> s[i] == ':'
  }

  /** The text of a field never ends in a colon, and is empty only if the field is unset. */
  lemma FieldTextEnds(b: Builder, i: nat)
    requires i < 5
    ensures EndsProperly(FieldTexts(b)[i])
    ensures FieldTexts(b)[i] == "" <==>
            match i case 0 => b.offset.None? case 1 => b.length.None? case 2 => b.index.None? case 3 => b.jump.None?
                    case _ => b.modifierDepth.None?
  {
    if b.offset.Some? { PrintedDigits(b.offset.value); }
    if b.length.Some? { PrintedDigits(b.length.value); }
    if b.index.Some? && b.index.value.Some? { PrintedDigits(b.index.value.value); }
    if b.modifierDepth.Some? { PrintedDigits(b.modifierDepth.value); }
    hide Print;
  }

  /** Putting a field before a part of the text: where both are empty the colon between is left out. */
  lemma PartGrows(text: string, part: string, colons: string, rest: string) returns (more: string)
    requires part + colons == rest && EndsProperly(part) && EndsProperly(text) && AllColons(colons)
    ensures var whole := if text == "" && part == "" then "" else ":" + text + part;
            whole + more == ":" + text + rest && EndsProperly(whole)
    ensures AllColons(more)
  {
    if text == "" && part == "" {
      more := ":" + colons;
    } else {
      more := colons;
      assert (":" + text + part) + colons == ":" + text + (part + colons);
    }
  }

  /** What a builder prints, part by part. */
  lemma PartsPrinted(b: Builder)
    ensures var ts := FieldTexts(b);
            && PrintBuilder(b) == ts[0] + LengthPart(b)
            && LengthPart(b) == (if ts[1] == "" && IndexPart(b) == "" then "" else ":" + ts[1] + IndexPart(b))
            && IndexPart(b) == (if ts[2] == "" && JumpPart(b) == "" then "" else ":" + ts[2] + JumpPart(b))
            && JumpPart(b) == (if ts[3] == "" && DepthPart(b) == "" then "" else ":" + ts[3] + DepthPart(b))
            && DepthPart(b) == (if ts[4] == "" then "" else ":" + ts[4] + "")
  {
    FieldTextEnds(b, 1);
    FieldTextEnds(b, 2);
    FieldTextEnds(b, 3);
    FieldTextEnds(b, 4);
    hide Print;
  }

  /** A builder is printed as its five fields with colons between, less the colons that would end the text. */
  lemma PrintedFields(b: Builder) returns (colons: string)
    ensures AllColons(colons) && EndsProperly(PrintBuilder(b))
    ensures var ts := FieldTexts(b);
            PrintBuilder(b) + colons == ts[0] + (":" + ts[1] + (":" + ts[2] + (":" + ts[3] + (":" + ts[4]))))
  {
    hide *;
    var ts := FieldTexts(b);
    PartsPrinted(b);
    forall i | 0 <= i < 5 ensures EndsProperly(ts[i]) { FieldTextEnds(b, i); }
    NoColons();
    assert ":" + ts[4] + "" == ":" + ts[4];
    colons := PartGrows(ts[4], "", "", "");
    colons := PartGrows(ts[3], DepthPart(b), colons, ":" + ts[4]);
    colons := PartGrows(ts[2], JumpPart(b), colons, ":" + ts[3] + (":" + ts[4]));
    colons := PartGrows(ts[1], IndexPart(b), colons, ":" + ts[2] + (":" + ts[3] + (":" + ts[4])));
    Joined(ts[0], LengthPart(b), colons);
  }

  lemma NoColons()
    ensures AllColons("") && EndsProperly("")
  {
  }

  lemma Joined(a: string, b: string, c: string)
    requires EndsProperly(a) && EndsProperly(b)
    ensures EndsProperly(a + b) && (a + b) + c == a + (b + c)
  {
  }

  // ---------- Where parsing fails ----------

  /** The character that an error of this kind is found at. */
  predicate Blames(c: char, kind: ErrorKind) {
    match kind
    case UnexpectedCharacter(d) => d == c && c !in ";:io-" && !('0' <= c <= '9')
    case UnexpectedColon => c == ':'
    case JumpAlreadySet => c in "io-"
    case _ => c == '-' || '0' <= c <= '9'
  }

  lemma BadCharacter(s: string)
    requires Lex(s).Bad?
    ensures s != "" && Blames(s[0], UnexpectedCharacter(Lex(s).c))
  {
    hide DigitCount;
  }

  lemma TokenBlamed(s: string, state: State, b: Builder)
    requires Lex(s).Lexed? && !Lex(s).token.Semicolon? && TakeToken(Lex(s).token, state, b).Refused?
    ensures Blames(s[0], TakeToken(Lex(s).token, state, b).kind)
  {
    hide DigitCount, Value;
  }

  lemma SegmentFails(s: string, state: State, b: Builder)
    requires ReadSegment(s, state, b).Failed?
    ensures var r := ReadSegment(s, state, b);
            || (Lex(s).Bad? && r == Failed(0, UnexpectedCharacter(Lex(s).c)))
            || (&& Lex(s).Lexed? && !Lex(s).token.Semicolon?
                && var t := TakeToken(Lex(s).token, state, b);
                   if t.Refused? then r == Failed(0, t.kind)
                   else
                     && ReadSegment(s[Lex(s).length..], t.state, t.builder).Failed?
                     && r == ReadSegment(s[Lex(s).length..], t.state, t.builder).After(Lex(s).length))
  {
    hide TakeToken, Lex;
  }

  lemma {:induction false} SegmentErrorAt(s: string, state: State, b: Builder)
    requires ReadSegment(s, state, b).Failed?
    ensures var r := ReadSegment(s, state, b); r.at < |s| && Blames(s[r.at], r.kind)
    decreases |s|
  {
    hide ReadSegment, TakeToken, Lex, Blames;
    SegmentFails(s, state, b);
    if Lex(s).Bad? { BadCharacter(s); return; }
    var n, t := Lex(s).length, TakeToken(Lex(s).token, state, b);
    if t.Refused? {
      TokenBlamed(s, state, b);
    } else {
      SegmentErrorAt(s[n..], t.state, t.builder);
    }
  }

  lemma {:induction false} ElementsErrorAt(input: string, pos: nat, prev: Element)
    requires pos <= |input| && Legal(prev.jumpAndDepth) && Elements(input[pos..], pos, prev).Err?
    ensures var e := Elements(input[pos..], pos, prev).error;
            if e.pos.None? then e.kind.OffsetOverflow? || e.kind.ModifierOverflow?
            else pos <= e.pos.value < |input| && Blames(input[e.pos.value], e.kind)
    decreases |input| - pos
  {
    hide ReadSegment, Blames;
    var s := input[pos..];
    var r := ReadSegment(s, Offset, EmptyBuilder);
    if r.Failed? {
      SegmentErrorAt(s, Offset, EmptyBuilder);
    } else if Finish(r.builder, prev).Ok? && !r.last {
      assert s[r.length..] == input[pos + r.length..];
      ElementsErrorAt(input, pos + r.length, Finish(r.builder, prev).value);
    }
  }

  /** An error with a position names a place in the input at which there stands what it complains about. */
  lemma ErrorsPointAtText(input: string)
    requires Parse(input).Err?
    ensures var e := Parse(input).error;
            if e.pos.None? then e.kind.OffsetOverflow? || e.kind.ModifierOverflow?
            else e.pos.value < |input| && Blames(input[e.pos.value], e.kind)
  {
    assert input[0..] == input;
    hide Elements, Blames;
    ElementsErrorAt(input, 0, DefaultElement);
  }
}
