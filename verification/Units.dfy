/**
 Decimal amounts in units of ten to the power of something
 (crates/block-explorers/src/utils.rs, crates/block-explorers/src/gas.rs).
 */
module Units {
  import opened Common
  import opened Decimal

  const TWO_256: nat := 0x1_0000000000000000_0000000000000000_0000000000000000_0000000000000000
  const TWO_255: nat := 0x8000000000000000_0000000000000000_0000000000000000_0000000000000000
  const TWO_64: nat := 0x1_0000000000000000
  const WEI_PER_GWEI: nat := 1_000_000_000
  const GWEI_EXPONENT: nat := 9

  datatype Amount = U256(n: nat) | I256(z: int)

  datatype ConversionError = FromDecStr | ParseI256 | ParseOverflow

  /** Number parsing of the big-integer library: two signed parsers, one for each branch. */
  datatype Numbers = Numbers(unsigned: string -> Option<nat>, signedDecimal: string -> Option<int>,
                             signed: string -> Option<int>)

  function Negated(n: int): int {
    -n
  }

  /**
   What is relied on: digits read as their value when it fits 256 bits, and no digits as zero if
   they are read at all.
   */
  ghost predicate ReadsDigits(lib: Numbers) {
    && (lib.unsigned("").Some? ==> lib.unsigned("") == Some(0))
    && (forall s :: s != "" && AllDigits(s) ==> ReadsAs(lib, s, Value(s)))
  }

  predicate ReadsAs(lib: Numbers, s: string, v: nat) {
    && lib.unsigned(s) == (if v < TWO_256 then Some(v) else None)
    && lib.signedDecimal("-" + s) == (if v <= TWO_255 then Some(Negated(v)) else None)
    && lib.signed("-" + s) == (if v <= TWO_255 then Some(Negated(v)) else None)
  }

  /** Whether the unsigned parser takes the digits given, few or many, as long as they fit. */
  predicate TakesAny(lib: Numbers, digits: string) {
    digits != "" || lib.unsigned("").Some?
  }

  // ---------- The conversion ----------

  function WithoutUnderscores(s: string): string {
    if s == "" then ""
    else if s[0] == '_' then WithoutUnderscores(s[1..])
    else [s[0]] + WithoutUnderscores(s[1..])
  }

  /** Position of the first point, or the length if there is none. */
  function PointAt(s: string): (p: nat)
    ensures p <= |s|
  {
    if s == "" || s[0] == '.' then 0 else 1 + PointAt(s[1..])
  }

  /** Multiplication of 256-bit words keeps the low 256 bits. */
  function Wrapped(x: int): int {
    x % TWO_256
  }

  function WrappedSigned(x: int): int {
    (x + TWO_255) % TWO_256 - TWO_255
  }

  function FromDecimal<T>(n: Option<T>, wrap: T -> Amount): Result<Amount, ConversionError> {
    if n.Some? then Ok(wrap(n.value)) else Err(FromDecStr)
  }

  /** The text with the point removed, if there is one. */
  function WithoutPoint(given: string): (r: string)
    ensures |r| >= PointAt(given)
  {
    var point := PointAt(given);
    if point < |given| then given[..point] + given[point + 1..] else given
  }

  /** The digits kept when there are more decimals than the exponent asks for. */
  function ConvertCut(negative: bool, kept: string, lib: Numbers): Result<Amount, ConversionError> {
    if negative then
      if kept == "-" then Ok(I256(0)) else FromDecimal(lib.signedDecimal(kept), z => I256(z))
    else FromDecimal(lib.unsigned(kept), n => U256(n))
  }

  function ConvertScaled(negative: bool, digits: string, power: nat, lib: Numbers): Result<Amount, ConversionError> {
    if negative then
      if digits == "-" then Ok(I256(0))
      else
        var z := lib.signed(digits);
        if z.None? then Err(ParseI256)
        else if Pow10(power) >= TWO_255 then Err(ParseOverflow)
        else Ok(I256(WrappedSigned(z.value * Pow10(power))))
    else
      var n := lib.unsigned(digits);
      if n.None? then Err(FromDecStr)
      else if Pow10(power) >= TWO_256 then Err(ParseOverflow)
      else Ok(U256(Wrapped(n.value * Pow10(power))))
  }

  function Convert(negative: bool, digits: string, decimals: nat, exponent: nat, lib: Numbers)
    : Result<Amount, ConversionError>
    requires decimals <= |digits|
  {
    if decimals > exponent then ConvertCut(negative, digits[..|digits| - (decimals - exponent)], lib)
    else ConvertScaled(negative, digits, exponent - decimals, lib)
  }

  function ParseUnits(amount: string, exponent: nat, lib: Numbers): Result<Amount, ConversionError> {
    var given := WithoutUnderscores(amount);
    var negative := given != "" && given[0] == '-';
    var digits := WithoutPoint(given);
    Convert(negative, digits, |digits| - PointAt(given), exponent, lib)
  }

  function IntoU256(a: Amount): nat {
    if a.U256? then a.n else Wrapped(a.z)
  }

  /** Gas prices arrive as an integer or as a string, in gwei. */
  datatype Gwei = Number(n: nat) | Text(s: string)

  function DeserGweiAmount(g: Gwei, lib: Numbers): Result<nat, ConversionError> {
    match g
    case Number(n) => Ok(Wrapped(n * WEI_PER_GWEI))
    case Text(s) =>
      var r := ParseUnits(s, GWEI_EXPONENT, lib);
      if r.Ok? then Ok(IntoU256(r.value)) else Err(r.error)
  }

  /** What is left of a text once its underscores are gone. */
  lemma {:induction false} UnderscoresGone(s: string, t: string)
    ensures WithoutUnderscores(s + "_" + t) == WithoutUnderscores(s + t)
    ensures (forall i :: 0 <= i < |s| ==> s[i] != '_') ==> WithoutUnderscores(s) == s
  {
    if s == "" {
      assert "" + "_" + t == "_" + t && "" + t == t && ("_" + t)[1..] == t;
    } else {
      assert (s + "_" + t)[1..] == s[1..] + "_" + t && (s + t)[1..] == s[1..] + t;
      UnderscoresGone(s[1..], t);
    }
  }

  // ---------- Truncating division ----------

  function Times(a: nat, b: nat): nat {
    a * b
  }

  function Quotient(n: nat, d: nat): nat
    requires d > 0
  {
    n / d
  }

  lemma Fundamental(n: nat, d: nat)
    requires d > 0
    ensures n == Times(Quotient(n, d), d) + n % d && n % d < d
  {}

  lemma {:induction false} ProductsApart(p: nat, q: nat, d: nat)
    requires p < q
    ensures Times(p, d) + d <= Times(q, d)
    decreases q
  {
    assert q * d == (q - 1) * d + d;
    if p < q - 1 { ProductsApart(p, q - 1, d); }
  }

  lemma QuotientIs(q: nat, r: nat, d: nat)
    requires r < d
    ensures Quotient(Times(q, d) + r, d) == q
  {
    var n := Times(q, d) + r;
    var p := Quotient(n, d);
    Fundamental(n, d);
    hide Times, Quotient;
    if p < q { ProductsApart(p, q, d); }
    if q < p { ProductsApart(q, p, d); }
  }

  lemma CancelFactor(a: nat, b: nat, c: nat)
    requires b > 0 && c > 0
    ensures Times(b, c) > 0 && Quotient(Times(a, c), Times(b, c)) == Quotient(a, b)
  {
    var q, r := Quotient(a, b), a % b;
    Fundamental(a, b);
    assert Times(a, c) == Times(q, Times(b, c)) + Times(r, c) by { Regroup(q, b, r, c); }
    ProductsApart(r, b, c);
    QuotientIs(q, Times(r, c), Times(b, c));
  }

  lemma Regroup(q: nat, b: nat, r: nat, c: nat)
    ensures Times(Times(q, b) + r, c) == Times(q, Times(b, c)) + Times(r, c)
  {
    assert (q * b + r) * c == q * b * c + r * c;
    assert q * b * c == q * (b * c);
  }

  // ---------- What it means ----------

  /** An amount as written: a sign, digits, and digits after a point if there is one. */
  datatype Written = Written(negative: bool, whole: string, point: bool, fraction: string) {
    predicate Valid() {
      && AllDigits(whole) && AllDigits(fraction)
      && (!point ==> fraction == "")
    }

    /** The digits left when those too small for the exponent are cut off. */
    function Kept(exponent: nat): string {
      whole + (if |fraction| > exponent then fraction[..exponent] else fraction)
    }

    function Sign(): string { if negative then "-" else "" }

    function Text(): string {
      Sign() + whole + (if point then "." else "") + fraction
    }

    /** The magnitude times ten to the exponent, truncated. */
    function Scaled(exponent: nat): nat {
      Pow10Positive(|fraction|);
      Quotient(Times(Value(whole + fraction), Pow10(exponent)), Pow10(|fraction|))
    }

    /**
     The amount and the power of ten it is multiplied by fit their types. Without a sign, an
     amount of which no digit is kept is left to the number parser.
     */
    predicate Fits(exponent: nat, lib: Numbers) {
      var scale := if exponent >= |fraction| then Pow10(exponent - |fraction|) else 1;
      if negative then
        Kept(exponent) == "" || (scale < TWO_255 && Scaled(exponent) <= TWO_255)
      else TakesAny(lib, Kept(exponent)) && scale < TWO_256 && Scaled(exponent) < TWO_256
    }

    function Amount(exponent: nat): Amount {
      if negative then I256(Negated(Scaled(exponent))) else U256(Scaled(exponent))
    }
  }

  lemma {:induction false} PointFound(before: string, after: string)
    requires forall i :: 0 <= i < |before| ==> before[i] != '.'
    ensures PointAt(before + "." + after) == |before|
  {
    if before != "" {
      assert (before + "." + after)[1..] == before[1..] + "." + after;
      PointFound(before[1..], after);
    }
  }

  lemma {:induction false} NoPointFound(s: string)
    requires forall i :: 0 <= i < |s| ==> s[i] != '.'
    ensures PointAt(s) == |s|
  {
    if s != "" { NoPointFound(s[1..]); }
  }

  lemma NoPointBefore(w: Written, i: nat)
    requires w.Valid() && i < |w.Sign() + w.whole|
    ensures (w.Sign() + w.whole)[i] != '.'
  {
    var j := i - |w.Sign()|;
    if j >= 0 { assert IsDigit(w.whole[j]); }
  }

  /** Where the point is found, and the digits without it. */
  lemma PointOfWritten(w: Written)
    requires w.Valid()
    ensures var given, p := w.Text(), PointAt(w.Text());
            && p == |w.Sign() + w.whole|
            && (if p < |given| then given[..p] + given[p + 1..] else given) == w.Sign() + w.whole + w.fraction
  {
    var before := w.Sign() + w.whole;
    forall i | 0 <= i < |before| ensures before[i] != '.' { NoPointBefore(w, i); }
    if w.point {
      PointFound(before, w.fraction);
      assert w.Text() == before + "." + w.fraction;
    } else {
      NoPointFound(before);
      assert w.Text() == before && before + w.fraction == before;
    }
  }

  lemma Pow10Step(a: nat)
    requires a > 0
    ensures Pow10(a) == 10 * Pow10(a - 1)
  {}

  lemma TenTimes(x: nat, y: nat)
    ensures 10 * (x * y) == (10 * x) * y
  {}

  lemma {:induction false} Pow10Sum(a: nat, b: nat)
    ensures Pow10(a + b) == Pow10(a) * Pow10(b)
  {
    if a > 0 {
      Pow10Sum(a - 1, b);
      TenTimes(Pow10(a - 1), Pow10(b));
      hide *;
      Pow10Step(a);
      Pow10Step(a + b);
    }
  }

  lemma ScaledUp(w: Written, exponent: nat)
    requires exponent >= |w.fraction|
    ensures w.Scaled(exponent) == Times(Value(w.whole + w.fraction), Pow10(exponent - |w.fraction|))
  {
    var v, up, down := Value(w.whole + w.fraction), Pow10(exponent - |w.fraction|), Pow10(|w.fraction|);
    Pow10Sum(exponent - |w.fraction|, |w.fraction|);
    Pow10Positive(|w.fraction|);
    assert Times(v, Times(up, down)) == Times(Times(v, up), down) by { Regroup(v, up, 0, down); }
    QuotientIs(Times(v, up), 0, down);
  }

  /** Cutting digits off the end truncates. */
  lemma ScaledDown(w: Written, exponent: nat)
    requires exponent < |w.fraction|
    ensures w.Scaled(exponent) == Value(w.whole + w.fraction[..exponent])
  {
    var kept, cut := w.whole + w.fraction[..exponent], w.fraction[exponent..];
    assert w.whole + w.fraction == kept + cut;
    ValueOfConcat(kept, cut);
    ValueBelowPow10(cut);
    Pow10Sum(|cut|, exponent);
    Pow10Positive(exponent);
    Pow10Positive(|cut|);
    CancelFactor(Value(kept + cut), Pow10(|cut|), Pow10(exponent));
    QuotientIs(Value(kept), Value(cut), Pow10(|cut|));
  }

  lemma ProductAtLeast(v: nat, scale: nat)
    requires scale >= 1
    ensures Times(v, scale) >= v
  {
    if v > 0 { assert v * scale == v + v * (scale - 1); }
  }

  lemma KeptDigits(w: Written, exponent: nat)
    requires w.Valid()
    ensures AllDigits(w.Kept(exponent))
  {}

  lemma CutsDigits(w: Written, exponent: nat)
    requires w.Valid() && |w.fraction| > exponent
    ensures var digits := w.Sign() + w.whole + w.fraction;
            digits[..|digits| - (|w.fraction| - exponent)] == w.Sign() + w.Kept(exponent)
  {}

  lemma FirstCharacter(w: Written)
    requires w.Valid()
    ensures w.negative <==> w.Text() != "" && w.Text()[0] == '-'
  {
    if w.whole != "" { assert IsDigit(w.whole[0]); }
  }

  lemma DigitsOfWritten(w: Written)
    requires w.Valid()
    ensures WithoutPoint(w.Text()) == w.Sign() + w.whole + w.fraction
    ensures |WithoutPoint(w.Text())| - PointAt(w.Text()) == |w.fraction|
  {
    PointOfWritten(w);
  }

  /** How `ParseUnits` takes a written amount apart. */
  lemma Takes(amount: string, w: Written, exponent: nat, lib: Numbers)
    requires w.Valid() && WithoutUnderscores(amount) == w.Text()
    ensures ParseUnits(amount, exponent, lib) ==
            if |w.fraction| > exponent then ConvertCut(w.negative, w.Sign() + w.Kept(exponent), lib)
            else ConvertScaled(w.negative, w.Sign() + w.Kept(exponent), exponent - |w.fraction|, lib)
  {
    hide *;
    var digits := w.Sign() + w.whole + w.fraction;
    FirstCharacter(w);
    DigitsOfWritten(w);
    ParsesAs(amount, w.Text(), w.negative, digits, |w.fraction|, exponent, lib);
    if |w.fraction| > exponent { CutsDigits(w, exponent); }
    else { AllDigitsKept(w, exponent); }
  }

  lemma AllDigitsKept(w: Written, exponent: nat)
    requires |w.fraction| <= exponent
    ensures w.Sign() + w.whole + w.fraction == w.Sign() + w.Kept(exponent)
  {
    hide Written.Sign;
  }

  lemma ParsesAs(amount: string, given: string, negative: bool, digits: string, decimals: nat, exponent: nat,
                 lib: Numbers)
    requires WithoutUnderscores(amount) == given && (negative <==> given != "" && given[0] == '-')
    requires WithoutPoint(given) == digits && |digits| - PointAt(given) == decimals
    ensures ParseUnits(amount, exponent, lib) ==
            if decimals > exponent then ConvertCut(negative, digits[..|digits| - (decimals - exponent)], lib)
            else ConvertScaled(negative, digits, exponent - decimals, lib)
  {
    hide WithoutUnderscores, WithoutPoint, PointAt, ConvertCut, ConvertScaled;
  }

  lemma CutIsExact(negative: bool, kept: string, lib: Numbers)
    requires ReadsDigits(lib) && AllDigits(kept)
    ensures negative ==>
              (ConvertCut(negative, "-" + kept, lib) == Ok(I256(Negated(Value(kept)))) <==>
               Value(kept) <= TWO_255 || kept == "")
    ensures !negative ==>
              (ConvertCut(negative, kept, lib) == Ok(U256(Value(kept))) <==>
               TakesAny(lib, kept) && Value(kept) < TWO_256)
  {
    assert kept != "" ==> ReadsAs(lib, kept, Value(kept));
    assert kept == "" ==> Value(kept) == 0;
    hide AllDigits, Value, ReadsDigits;
  }

  lemma WrapIsExact(x: nat)
    ensures Wrapped(x) == x <==> x < TWO_256
    ensures WrappedSigned(Negated(x)) == Negated(x) <==> x <= TWO_255
  {}

  lemma NegatedProduct(v: nat, scale: nat)
    ensures Negated(v) * scale == Negated(Times(v, scale)) && v * scale == Times(v, scale)
  {}

  lemma ScaleUnsigned(digits: string, power: nat, lib: Numbers)
    requires ReadsDigits(lib) && AllDigits(digits)
    ensures ConvertScaled(false, digits, power, lib) == Ok(U256(Times(Value(digits), Pow10(power)))) <==>
            TakesAny(lib, digits) && Pow10(power) < TWO_256 && Times(Value(digits), Pow10(power)) < TWO_256
  {
    var v, scale := Value(digits), Pow10(power);
    assert digits != "" ==> ReadsAs(lib, digits, v);
    assert digits == "" ==> v == 0;
    Pow10Positive(power);
    ProductAtLeast(v, scale);
    NegatedProduct(v, scale);
    WrapIsExact(Times(v, scale));
    hide AllDigits, Pow10, Value, Times, Wrapped, WrappedSigned, Negated, ReadsDigits;
  }

  lemma ScaleSigned(digits: string, power: nat, lib: Numbers)
    requires ReadsDigits(lib) && AllDigits(digits)
    ensures ConvertScaled(true, "-" + digits, power, lib) == Ok(I256(Negated(Times(Value(digits), Pow10(power))))) <==>
            digits == "" || (Pow10(power) < TWO_255 && Times(Value(digits), Pow10(power)) <= TWO_255)
  {
    var v, scale := Value(digits), Pow10(power);
    if digits == "" {
      NegatedProduct(v, scale);
    } else {
      assert ReadsAs(lib, digits, v);
      Pow10Positive(power);
      ProductAtLeast(v, scale);
      NegatedProduct(v, scale);
      WrapIsExact(Times(v, scale));
      hide AllDigits, Pow10, Value, Times, Wrapped, WrappedSigned, Negated;
    }
  }

  lemma ParsesCut(amount: string, w: Written, exponent: nat, lib: Numbers)
    requires ReadsDigits(lib) && w.Valid() && WithoutUnderscores(amount) == w.Text()
    requires |w.fraction| > exponent
    ensures ParseUnits(amount, exponent, lib) == Ok(w.Amount(exponent)) <==> w.Fits(exponent, lib)
  {
    Takes(amount, w, exponent, lib);
    ScaledDown(w, exponent);
    KeptDigits(w, exponent);
    CutIsExact(w.negative, w.Kept(exponent), lib);
    assert "" + w.Kept(exponent) == w.Kept(exponent);
    hide ReadsDigits, ParseUnits, ConvertCut, WithoutUnderscores, AllDigits, Value, Written.Scaled;
  }

  lemma ScaledIsExact(w: Written, exponent: nat, lib: Numbers)
    requires ReadsDigits(lib) && w.Valid() && |w.fraction| <= exponent
    ensures ConvertScaled(w.negative, w.Sign() + w.Kept(exponent), exponent - |w.fraction|, lib) ==
            Ok(w.Amount(exponent))
            <==> w.Fits(exponent, lib)
  {
    hide *;
    var kept, power := w.Kept(exponent), exponent - |w.fraction|;
    var product := Times(Value(kept), Pow10(power));
    KeptDigits(w, exponent);
    assert w.Scaled(exponent) == product by {
      ScaledUp(w, exponent);
      KeepsAll(w, exponent);
    }
    FitsScaled(w, exponent, lib);
    WrittenAmount(w, exponent);
    ScaleSigned(kept, power, lib);
    ScaleUnsigned(kept, power, lib);
  }

  lemma KeepsAll(w: Written, exponent: nat)
    requires |w.fraction| <= exponent
    ensures w.Kept(exponent) == w.whole + w.fraction
  {}

  lemma WrittenAmount(w: Written, exponent: nat)
    ensures w.Amount(exponent) == if w.negative then I256(Negated(w.Scaled(exponent))) else U256(w.Scaled(exponent))
    ensures w.Sign() + w.Kept(exponent) == if w.negative then "-" + w.Kept(exponent) else w.Kept(exponent)
  {}

  lemma FitsScaled(w: Written, exponent: nat, lib: Numbers)
    requires |w.fraction| <= exponent
    ensures w.Fits(exponent, lib) <==>
            if w.negative then
              w.Kept(exponent) == "" || (Pow10(exponent - |w.fraction|) < TWO_255 && w.Scaled(exponent) <= TWO_255)
            else
              && TakesAny(lib, w.Kept(exponent))
              && Pow10(exponent - |w.fraction|) < TWO_256 && w.Scaled(exponent) < TWO_256
  {
    hide Pow10, Written.Scaled, Written.Kept, TakesAny;
  }

  lemma ParsesScaled(amount: string, w: Written, exponent: nat, lib: Numbers)
    requires ReadsDigits(lib) && w.Valid() && WithoutUnderscores(amount) == w.Text()
    requires |w.fraction| <= exponent
    ensures ParseUnits(amount, exponent, lib) == Ok(w.Amount(exponent)) <==> w.Fits(exponent, lib)
  {
    hide *;
    Takes(amount, w, exponent, lib);
    ScaledIsExact(w, exponent, lib);
  }

  /**
   An amount parses to its value times ten to the exponent, truncated toward zero, exactly
   when that value and the power of ten it is scaled by fit their types.
   */
  lemma ParsesExactly(amount: string, w: Written, exponent: nat, lib: Numbers)
    requires ReadsDigits(lib) && w.Valid() && WithoutUnderscores(amount) == w.Text()
    ensures ParseUnits(amount, exponent, lib) == Ok(w.Amount(exponent)) <==> w.Fits(exponent, lib)
  {
    hide *;
    if |w.fraction| > exponent { ParsesCut(amount, w, exponent, lib); }
    else { ParsesScaled(amount, w, exponent, lib); }
  }

  /**
   What an amount with some digit and no more decimals than the exponent gives, whatever
   its size: too many digits and too large a power of ten are refused, but a product that
   does not fit wraps around.
   */
  lemma ParsesModulo(amount: string, w: Written, exponent: nat, lib: Numbers)
    requires ReadsDigits(lib) && w.Valid() && WithoutUnderscores(amount) == w.Text()
    requires |w.fraction| <= exponent && w.whole + w.fraction != ""
    ensures var digits, scale := Value(w.whole + w.fraction), Pow10(exponent - |w.fraction|);
            ParseUnits(amount, exponent, lib) ==
            if w.negative then
              if digits > TWO_255 then Err(ParseI256)
              else if scale >= TWO_255 then Err(ParseOverflow)
              else Ok(I256((TWO_255 - digits * scale) % TWO_256 - TWO_255))
            else
              if digits >= TWO_256 then Err(FromDecStr)
              else if scale >= TWO_256 then Err(ParseOverflow)
              else Ok(U256(digits * scale % TWO_256))
  {
    hide *;
    var kept := w.whole + w.fraction;
    Takes(amount, w, exponent, lib);
    KeepsAll(w, exponent);
    KeptDigits(w, exponent);
    WrittenAmount(w, exponent);
    ReadsKept(lib, kept);
    if w.negative { ScaledSigned(kept, exponent - |w.fraction|, lib); }
    else { ScaledUnsigned(kept, exponent - |w.fraction|, lib); }
  }

  lemma ReadsKept(lib: Numbers, digits: string)
    requires ReadsDigits(lib) && AllDigits(digits) && digits != ""
    ensures ReadsAs(lib, digits, Value(digits))
  {
    hide AllDigits, ReadsAs, Value;
  }

  lemma ScaledUnsigned(digits: string, power: nat, lib: Numbers)
    requires ReadsAs(lib, digits, Value(digits))
    ensures ConvertScaled(false, digits, power, lib) ==
            if Value(digits) >= TWO_256 then Err(FromDecStr)
            else if Pow10(power) >= TWO_256 then Err(ParseOverflow)
            else Ok(U256(Value(digits) * Pow10(power) % TWO_256))
  {
    hide Pow10, Value;
  }

  lemma ScaledSigned(digits: string, power: nat, lib: Numbers)
    requires ReadsAs(lib, digits, Value(digits)) && digits != ""
    ensures ConvertScaled(true, "-" + digits, power, lib) ==
            if Value(digits) > TWO_255 then Err(ParseI256)
            else if Pow10(power) >= TWO_255 then Err(ParseOverflow)
            else Ok(I256((TWO_255 - Value(digits) * Pow10(power)) % TWO_256 - TWO_255))
  {
    NegatedProduct(Value(digits), Pow10(power));
    hide Pow10, Value;
  }

  /** Digits may be grouped: an underscore between them changes nothing, 1_000 is 1000. */
  lemma UnderscoresDoNotCount(a: string, b: string, exponent: nat, lib: Numbers)
    ensures ParseUnits(a + "_" + b, exponent, lib) == ParseUnits(a + b, exponent, lib)
  {
    UnderscoresGone(a, b);
    hide WithoutUnderscores, Convert, WithoutPoint, PointAt;
  }

  lemma {:induction false} NothingToRemove(s: string)
    requires AllDigits(s)
    ensures WithoutUnderscores(s) == s
  {
    if s != "" {
      assert IsDigit(s[0]);
      NothingToRemove(s[1..]);
    }
  }

  /** A number as it is printed, taken as an amount without a point. */
  function PrintedAmount(n: nat): Written {
    Written(false, Print(n), false, "")
  }

  lemma PrintedIsWritten(n: nat)
    ensures PrintedAmount(n).Valid() && PrintedAmount(n).Text() == Print(n)
    ensures !PrintedAmount(n).negative && PrintedAmount(n).fraction == ""
    ensures WithoutUnderscores(Print(n)) == Print(n)
    ensures PrintedAmount(n).Kept(GWEI_EXPONENT) == PrintedAmount(n).whole + PrintedAmount(n).fraction == Print(n) != ""
  {
    PrintedDigits(n);
    NothingToRemove(Print(n));
    hide Print, WithoutUnderscores;
  }

  lemma PrintedParses(n: nat, lib: Numbers)
    requires Times(n, Pow10(GWEI_EXPONENT)) < TWO_256 && Pow10(GWEI_EXPONENT) < TWO_256 && ReadsDigits(lib)
    ensures ParseUnits(Print(n), GWEI_EXPONENT, lib) == Ok(U256(Times(n, Pow10(GWEI_EXPONENT))))
  {
    hide *;
    var w := PrintedAmount(n);
    PrintedIsWritten(n);
    PrintedValue(n);
    ScaledUp(w, GWEI_EXPONENT);
    FitsScaled(w, GWEI_EXPONENT, lib);
    WrittenAmount(w, GWEI_EXPONENT);
    SomeDigits(lib, Print(n));
    ParsesExactly(Print(n), w, GWEI_EXPONENT, lib);
  }

  lemma SomeDigits(lib: Numbers, digits: string)
    requires digits != ""
    ensures TakesAny(lib, digits)
  {}

  /** A gas price given as a number and as that number's printing is the same price. */
  lemma GweiFormsAgree(n: nat, lib: Numbers)
    requires n < TWO_64 && ReadsDigits(lib)
    ensures DeserGweiAmount(Text(Print(n)), lib) == DeserGweiAmount(Number(n), lib)
    ensures DeserGweiAmount(Number(n), lib) == Ok(n * WEI_PER_GWEI)
  {
    Nine();
    assert Times(n, Pow10(GWEI_EXPONENT)) == n * WEI_PER_GWEI < TWO_256;
    PrintedParses(n, lib);
    hide Print, ParseUnits, Pow10;
  }

  lemma Nine()
    ensures Pow10(9) == WEI_PER_GWEI
  {
    assert Pow10(3) == 1000;
    assert Pow10(6) == 1000000;
  }
}
