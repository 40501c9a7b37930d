/**
 Solidity source maps (crates/compilers/crates/artifacts/solc/src/sourcemap.rs): the
 delta-compressed format of the "Source Mappings" section of the Solidity documentation,
 its lexer, its parser and its two printers, as functions on strings.
 */
module SourceMap {
  import opened Common
  import opened Decimal

  const U32_MAX: nat := 0xFFFF_FFFF
  const I64_MAX: nat := 0x7FFF_FFFF_FFFF_FFFF
  const TWO_30: nat := 0x4000_0000
  const TWO_32: nat := 0x1_0000_0000
  const MAX_DEPTH: nat := TWO_30 - 1

  datatype Jump = In | Out | Regular {
    function ToChar(): char {
      match this case In => 'i' case Out => 'o' case Regular => '-'
    }

    function ToInt(): nat {
      match this case In => 0 case Out => 1 case Regular => 2
    }
  }

  datatype ErrorKind =
    | UnexpectedCharacter(c: char) | InvalidNumber | UnexpectedNegative | NumberTooLarge
    | ExpectedJump | UnexpectedColon
    | JumpAlreadySet | OffsetAlreadySet | LengthAlreadySet | IndexAlreadySet | ModifierAlreadySet
    | OffsetOverflow | ModifierOverflow
  datatype SyntaxError = SyntaxError(pos: Option<nat>, kind: ErrorKind)

  // ---------- Lexer ----------

  datatype Token = Number(text: string) | Semicolon | Colon | JumpToken(jump: Jump)

  /** A token inside an element. */
  type FieldToken = t: Token | !t.Semicolon? witness Colon

  /** How many digits `s` begins with. */
  function DigitCount(s: string): (n: nat)
    ensures n <= |s|
  {
    if s != "" && IsDigit(s[0]) then 1 + DigitCount(s[1..]) else 0
  }

  datatype Lexed = End | Bad(c: char) | Lexed(token: Token, length: nat)

  /** The token `s` begins with, and its length. */
  function Lex(s: string): (r: Lexed)
    ensures r.Lexed? ==> 0 < r.length <= |s|
    ensures r.End? <==> s == ""
  {
    if s == "" then End
    else if s[0] == ';' then Lexed(Semicolon, 1)
    else if s[0] == ':' then Lexed(Colon, 1)
    else if s[0] == 'i' then Lexed(JumpToken(In), 1)
    else if s[0] == 'o' then Lexed(JumpToken(Out), 1)
    else if s[0] == '-' then
      if |s| > 1 && IsDigit(s[1]) then
        var n := 2 + DigitCount(s[2..]);
        Lexed(Number(s[..n]), n)
      else Lexed(JumpToken(Regular), 1)
    else if IsDigit(s[0]) then
      var n := 1 + DigitCount(s[1..]);
      Lexed(Number(s[..n]), n)
    else Bad(s[0])
  }

  // ---------- One element ----------

  /** The fields one element sets explicitly; an index of `Some(None)` is the -1 of no source file. */
  datatype Builder = Builder(
    offset: Option<nat>, length: Option<nat>, index: Option<Option<nat>>, jump: Option<Jump>,
    modifierDepth: Option<nat>)

  const EmptyBuilder := Builder(None, None, None, None, None)

  datatype State = Offset | Length | Index | Jmp | Modifier

  /** `i64::from_str` on a lexed number, which is an optional minus sign and at least one digit. */
  function ParseI64(text: string): Result<int, ErrorKind> {
    var negative := text != "" && text[0] == '-';
    var digits := if negative then text[1..] else text;
    var v: int := Value(digits);
    if negative then (if v > I64_MAX + 1 then Err(InvalidNumber) else Ok(-v))
    else (if v > I64_MAX then Err(InvalidNumber) else Ok(v))
  }

  /** -1 stands for "nothing"; any other number must be an unsigned 32-bit one. */
  function ParseNumber(text: string): Result<Option<nat>, ErrorKind> {
    match ParseI64(text)
    case Err(e) => Err(e)
    case Ok(v) =>
      if v < -1 then Err(UnexpectedNegative)
      else if v == -1 then Ok(None)
      else if v > U32_MAX then Err(NumberTooLarge)
      else Ok(Some(v))
  }

  function OrZero(n: Option<nat>): nat {
    match n case Some(v) => v case None => 0
  }

  function SetNumber(state: State, b: Builder, n: Option<nat>): Result<Builder, ErrorKind> {
    match state
    case Offset => if b.offset.Some? then Err(OffsetAlreadySet) else Ok(b.(offset := Some(OrZero(n))))
    case Length => if b.length.Some? then Err(LengthAlreadySet) else Ok(b.(length := Some(OrZero(n))))
    case Index => if b.index.Some? then Err(IndexAlreadySet) else Ok(b.(index := Some(n)))
    case Modifier => if b.modifierDepth.Some? then Err(ModifierAlreadySet) else Ok(b.(modifierDepth := Some(OrZero(n))))
    case Jmp => Err(ExpectedJump)
  }

  function TakeNumber(state: State, b: Builder, text: string): Result<Builder, ErrorKind> {
    if state.Jmp? then Err(ExpectedJump)
    else
      match ParseNumber(text)
      case Err(e) => Err(e)
      case Ok(n) => SetNumber(state, b, n)
  }

  function SetJump(b: Builder, j: Jump): Result<Builder, ErrorKind> {
    if b.jump.Some? then Err(JumpAlreadySet) else Ok(b.(jump := Some(j)))
  }

  function AdvanceState(state: State): Result<State, ErrorKind> {
    match state
    case Offset => Ok(Length)
    case Length => Ok(Index)
    case Index => Ok(Jmp)
    case Jmp => Ok(Modifier)
    case Modifier => Err(UnexpectedColon)
  }

  datatype Taken = Next(state: State, builder: Builder) | Refused(kind: ErrorKind)

  /** What one token other than `;` does; jump letters are accepted in every state. */
  function TakeToken(token: FieldToken, state: State, b: Builder): Taken {
    match token
    case Number(text) => (match TakeNumber(state, b, text) case Ok(b') => Next(state, b') case Err(e) => Refused(e))
    case Colon => (match AdvanceState(state) case Ok(state') => Next(state', b) case Err(e) => Refused(e))
    case JumpToken(j) => (match SetJump(b, j) case Ok(b') => Next(state, b') case Err(e) => Refused(e))
  }

  /**
   One element read: its builder, how much was read, and whether the input ended with it; or where
   and why it failed.
   */
  datatype Reading = Reading(builder: Builder, length: nat, last: bool) | Failed(at: nat, kind: ErrorKind) {
    /** The same reading, `n` characters further into the input. */
    function After(n: nat): Reading {
      match this
      case Reading(b, length, last) => Reading(b, n + length, last)
      case Failed(at, kind) => Failed(n + at, kind)
    }
  }

  /** Reads up to and including the next `;`, or to the end. */
  function ReadSegment(s: string, state: State, b: Builder): (r: Reading)
    ensures r.Reading? ==> r.length <= |s| && (r.last ==> r.length == |s|) && (!r.last ==> r.length > 0)
    decreases |s|
  {
    match Lex(s)
    case End => Reading(b, 0, true)
    case Bad(c) => Failed(0, UnexpectedCharacter(c))
    case Lexed(token, n) =>
      if token.Semicolon? then Reading(b, n, false)
      else
        match TakeToken(token, state, b)
        case Refused(kind) => Failed(0, kind)
        case Next(state', b') => ReadSegment(s[n..], state', b').After(n)
  }

  // ---------- Packed elements ----------

  /** A decoded element; `jumpAndDepth` is a 32-bit word with the jump in its two top bits. */
  datatype Element = Element(offset: nat, length: nat, index: int, jumpAndDepth: nat)

  const DefaultElement := Element(0, 0, -1, 0)

  /** `word >> 30` */
  function JumpBits(word: nat): nat {
    word / TWO_30
  }

  /** `(word << 2) >> 2` in 32 bits */
  function DepthOf(word: nat): (d: nat)
    ensures d <= MAX_DEPTH
  {
    word * 4 % TWO_32 / 4
  }

  /** The word holds one of the three jumps. */
  predicate Legal(word: nat) {
    word < TWO_32 && JumpBits(word) <= 2
  }

  /** `(jump << 30) | depth`: the two do not overlap for depths that fit, so the or is a sum. */
  function Pack(jump: Jump, depth: nat): (word: nat)
    requires depth <= MAX_DEPTH
    ensures Legal(word) && JumpBits(word) == jump.ToInt() && DepthOf(word) == depth
  {
    jump.ToInt() * TWO_30 + depth
  }

  /** The sum in `Pack` is the bitwise or of the source. */
  lemma OrIsSum(jump: bv32, depth: bv32)
    requires jump <= 2 && depth <= 0x3FFF_FFFF
    ensures (jump << 30) | depth == (jump << 30) + depth
    ensures ((jump << 30) | depth) >> 30 == jump
    ensures (((jump << 30) | depth) << 2) >> 2 == depth
  {
  }

  function JumpOf(word: nat): Jump
    requires Legal(word)
  {
    if JumpBits(word) == 0 then In else if JumpBits(word) == 1 then Out else Regular
  }

  /** `x as i32` for an unsigned 32-bit number: the upper half wraps to the negatives. */
  function AsI32(x: nat): int {
    if x < TWO_32 / 2 then x else x - TWO_32
  }

  /** Values of the element's Rust type that the parser can have built. */
  predicate WellTyped(e: Element) {
    e.offset <= U32_MAX && e.length <= U32_MAX && -(TWO_32 / 2) <= e.index < TWO_32 / 2 && Legal(e.jumpAndDepth)
  }

  /** Fields not set explicitly are inherited from the element before. */
  function Finish(b: Builder, prev: Element): (r: Result<Element, SyntaxError>)
    requires Legal(prev.jumpAndDepth)
    ensures r.Ok? ==> Legal(r.value.jumpAndDepth)
  {
    if b.offset.Some? && b.offset.value > U32_MAX then Err(SyntaxError(None, OffsetOverflow))
    else if b.length.Some? && b.length.value > U32_MAX then Err(SyntaxError(None, OffsetOverflow))
    else
      var offset := if b.offset.Some? then b.offset.value else prev.offset;
      var length := if b.length.Some? then b.length.value else prev.length;
      var index :=
        match b.index
        case None => prev.index
        case Some(None) => -1
        case Some(Some(x)) => AsI32(x);
      var word := if b.jump.Some? then Pack(b.jump.value, DepthOf(prev.jumpAndDepth)) else prev.jumpAndDepth;
      if b.modifierDepth.None? then Ok(Element(offset, length, index, word))
      else if b.modifierDepth.value > MAX_DEPTH then Err(SyntaxError(None, ModifierOverflow))
      else Ok(Element(offset, length, index, Pack(JumpOf(word), b.modifierDepth.value)))
  }

  // ---------- The whole map ----------

  /** The elements of `s`, which begins at `pos` in the input. */
  function Elements(s: string, pos: nat, prev: Element): Result<seq<Element>, SyntaxError>
    requires Legal(prev.jumpAndDepth)
    decreases |s|
  {
    match ReadSegment(s, Offset, EmptyBuilder)
    case Failed(at, kind) => Err(SyntaxError(Some(pos + at), kind))
    case Reading(b, n, last) =>
      match Finish(b, prev)
      case Err(e) => Err(e)
      case Ok(element) =>
        if last then Ok([element])
        else
          match Elements(s[n..], pos + n, element)
          case Err(e) => Err(e)
          case Ok(rest) => Ok([element] + rest)
  }

  function Parse(s: string): Result<seq<Element>, SyntaxError> {
    if s == "" then Ok([]) else Elements(s, 0, DefaultElement)
  }
}
