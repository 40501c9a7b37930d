/**
 Library linking (crates/compilers/crates/artifacts/solc/src/bytecode.rs): placeholders in
 unlinked hex text are overwritten with addresses, until the text decodes.
 */
module BytecodeLink {
  import opened Hex

  const LEN := 40

  /** A library: its names, and the 34 hex digits that its fully qualified name hashes to. */
  datatype Library = Library(file: string, name: string, digits: string) {
    predicate Valid() {
      |digits| == 34 && AllHex(digits)
    }
  }

  type Address = a: seq<byte> | |a| == 20 witness seq(20, i => 0)

  function QualifiedName(lib: Library): string {
    lib.file + ":" + lib.name
  }

  /** The first 36 characters of a name, filled up with underscores. */
  function Padded(name: string): (r: string)
    ensures |r| == 36
  {
    if |name| >= 36 then name[..36] else name + seq(36 - |name|, i => '_')
  }

  function HashForm(lib: Library): (r: string)
    requires lib.Valid()
    ensures |r| == LEN && r[0] == r[LEN - 1] == '_'
  {
    "__$" + lib.digits + "$__"
  }

  function NameForm(lib: Library): (r: string)
    ensures |r| == LEN && r[0] == r[LEN - 1] == '_'
  {
    "__" + Padded(QualifiedName(lib)) + "__"
  }

  // ---------- Searching and overwriting ----------

  predicate Occurs(text: string, needle: string, at: int) {
    0 <= at <= |text| - |needle| && text[at..at + |needle|] == needle
  }

  /** Leftmost occurrences that do not overlap, from a position on. */
  function FindAll(text: string, needle: string, from: nat): seq<nat>
    requires |needle| > 0
    decreases |text| - from
  {
    if from + |needle| > |text| then []
    else if Occurs(text, needle, from) then [from] + FindAll(text, needle, from + |needle|)
    else FindAll(text, needle, from + 1)
  }

  function Overwrite(text: string, at: nat, patch: string): (r: string)
    requires at + |patch| <= |text|
    ensures |r| == |text|
  {
    text[..at] + patch + text[at + |patch|..]
  }

  predicate AllFit(length: nat, places: seq<nat>) {
    forall i :: 0 <= i < |places| ==> places[i] + LEN <= length
  }

  function OverwriteAll(text: string, places: seq<nat>, patch: string): (r: string)
    requires |patch| == LEN && AllFit(|text|, places)
    ensures |r| == |text|
    decreases |places|
  {
    if places == [] then text else OverwriteAll(Overwrite(text, places[0], patch), places[1..], patch)
  }

  /** Where a library's placeholders are found, the hash form first. */
  function Places(text: string, lib: Library): seq<nat>
    requires lib.Valid()
  {
    FindAll(text, HashForm(lib), 0) + FindAll(text, NameForm(lib), 0)
  }

  function Link(text: string, lib: Library, address: Address): (r: string)
    requires lib.Valid()
    ensures |r| == |text|
  {
    PlacesFit(text, lib);
    OverwriteAll(text, Places(text, lib), Encode(address))
  }

  lemma {:induction false} FindAllSound(text: string, needle: string, from: nat)
    requires |needle| > 0
    ensures forall m :: m in FindAll(text, needle, from) ==> m >= from && Occurs(text, needle, m)
    decreases |text| - from
  {
    if from + |needle| <= |text| {
      if Occurs(text, needle, from) { FindAllSound(text, needle, from + |needle|); }
      else { FindAllSound(text, needle, from + 1); }
    }
  }

  lemma PlacesFit(text: string, lib: Library)
    requires lib.Valid()
    ensures AllFit(|text|, Places(text, lib))
  {
    FindAllSound(text, HashForm(lib), 0);
    FindAllSound(text, NameForm(lib), 0);
    forall i | 0 <= i < |Places(text, lib)| ensures Places(text, lib)[i] + LEN <= |text| {
      assert Places(text, lib)[i] in FindAll(text, HashForm(lib), 0) ||
             Places(text, lib)[i] in FindAll(text, NameForm(lib), 0);
    }
  }

  /** Every occurrence is found or starts inside one found before it. */
  lemma {:induction false} FindAllComplete(text: string, needle: string, from: nat, at: nat)
    requires |needle| > 0 && from <= at && Occurs(text, needle, at)
    ensures exists m :: m in FindAll(text, needle, from) && m <= at < m + |needle|
    decreases |text| - from
  {
    if Occurs(text, needle, from) {
      if at >= from + |needle| {
        FindAllComplete(text, needle, from + |needle|, at);
        var m :| m in FindAll(text, needle, from + |needle|) && m <= at < m + |needle|;
        assert m in FindAll(text, needle, from);
      } else {
        assert from in FindAll(text, needle, from);
      }
    } else {
      assert FindAll(text, needle, from) == FindAll(text, needle, from + 1);
      FindAllComplete(text, needle, from + 1, at);
    }
  }

  /** Occurrences found stay the ones found if they survive and no new one appears. */
  lemma {:induction false} FindAllSurvives(text: string, later: string, needle: string, from: nat)
    requires |needle| > 0 && |text| == |later|
    requires forall m :: m in FindAll(text, needle, from) ==> Occurs(later, needle, m)
    requires forall m :: Occurs(later, needle, m) ==> Occurs(text, needle, m)
    ensures FindAll(later, needle, from) == FindAll(text, needle, from)
    decreases |text| - from
  {
    if from + |needle| <= |text| {
      if Occurs(text, needle, from) {
        assert from in FindAll(text, needle, from);
        forall m | m in FindAll(text, needle, from + |needle|) ensures Occurs(later, needle, m) {
          assert m in FindAll(text, needle, from);
        }
        FindAllSurvives(text, later, needle, from + |needle|);
      } else {
        FindAllSurvives(text, later, needle, from + 1);
      }
    }
  }

  // ---------- What overwriting does to each position ----------

  predicate Covers(place: nat, k: int) {
    place <= k < place + LEN
  }

  predicate CoveredBy(places: seq<nat>, k: int) {
    exists i :: 0 <= i < |places| && Covers(places[i], k)
  }

  predicate Apart(p: nat, q: nat) {
    p + LEN <= q || q + LEN <= p
  }

  /** No two of these places share only a part of their characters. */
  predicate NoOverlap(places: seq<nat>) {
    forall i, j :: 0 <= i < |places| && 0 <= j < |places| ==> places[i] == places[j] || Apart(places[i], places[j])
  }

  lemma {:induction false} OverwriteAllOutside(text: string, places: seq<nat>, patch: string, k: nat)
    requires |patch| == LEN && AllFit(|text|, places) && k < |text|
    requires !CoveredBy(places, k)
    ensures OverwriteAll(text, places, patch)[k] == text[k]
    decreases |places|
  {
    if places != [] {
      assert !Covers(places[0], k);
      assert forall i :: 0 <= i < |places| - 1 ==> places[1..][i] == places[i + 1];
      OverwriteAllOutside(Overwrite(text, places[0], patch), places[1..], patch, k);
    }
  }

  /** A covered position holds a character of what was written. */
  lemma {:induction false} OverwriteAllInside(text: string, places: seq<nat>, patch: string, k: nat)
    requires |patch| == LEN && AllFit(|text|, places) && k < |text|
    requires CoveredBy(places, k)
    ensures exists i ::
              && 0 <= i < |places| && Covers(places[i], k)
              && OverwriteAll(text, places, patch)[k] == patch[k - places[i]]
    decreases |places|
  {
    var rest, step := places[1..], Overwrite(text, places[0], patch);
    assert forall i :: 0 <= i < |rest| ==> rest[i] == places[i + 1];
    if CoveredBy(rest, k) {
      OverwriteAllInside(step, rest, patch, k);
      var i :| 0 <= i < |rest| && Covers(rest[i], k) && OverwriteAll(step, rest, patch)[k] == patch[k - rest[i]];
      assert Covers(places[i + 1], k);
    } else {
      OverwriteAllOutside(step, rest, patch, k);
      assert Covers(places[0], k);
    }
  }

  /** A position that only one place covers holds the character written for that place. */
  lemma {:induction false} OverwrittenAt(text: string, places: seq<nat>, patch: string, p: nat, k: nat)
    requires |patch| == LEN && AllFit(|text|, places) && k < |text| && Covers(p, k)
    requires p in places && forall q :: q in places && Covers(q, k) ==> q == p
    ensures OverwriteAll(text, places, patch)[k] == patch[k - p]
    decreases |places|
  {
    var rest, step := places[1..], Overwrite(text, places[0], patch);
    if p in rest {
      OverwrittenAt(step, rest, patch, p, k);
    } else {
      assert !CoveredBy(rest, k) by { hide Covers; }
      OverwriteAllOutside(step, rest, patch, k);
    }
  }

  lemma OnlyCover(places: seq<nat>, i: nat, k: nat)
    requires NoOverlap(places) && i < |places| && Covers(places[i], k)
    ensures forall q :: q in places && Covers(q, k) ==> q == places[i]
  {}

  lemma PlacedCharacter(text: string, places: seq<nat>, patch: string, i: nat, d: nat)
    requires |patch| == LEN && AllFit(|text|, places) && NoOverlap(places) && i < |places| && d < LEN
    ensures places[i] + d < |text| && OverwriteAll(text, places, patch)[places[i] + d] == patch[d]
  {
    hide OverwriteAll;
    OnlyCover(places, i, places[i] + d);
    OverwrittenAt(text, places, patch, places[i], places[i] + d);
  }

  lemma SliceIs(r: string, p: nat, patch: string)
    requires p + |patch| <= |r|
    requires forall d :: 0 <= d < |patch| ==> r[p..p + |patch|][d] == patch[d]
    ensures r[p..p + |patch|] == patch
  {}

  lemma OverwrittenPlace(text: string, places: seq<nat>, patch: string, i: nat)
    requires |patch| == LEN && AllFit(|text|, places) && NoOverlap(places) && i < |places|
    ensures OverwriteAll(text, places, patch)[places[i]..places[i] + LEN] == patch
  {
    var r, p := OverwriteAll(text, places, patch), places[i];
    assert p + LEN <= |r|;
    hide *;
    forall d | 0 <= d < LEN ensures r[p..p + LEN][d] == patch[d] { PlacedCharacter(text, places, patch, i, d); }
    SliceIs(r, p, patch);
  }

  // ---------- Linking one library ----------

  lemma UnderscoreIsUncovered(text: string, places: seq<nat>, patch: string, k: nat)
    requires |patch| == LEN && AllHex(patch) && AllFit(|text|, places) && k < |text|
    requires OverwriteAll(text, places, patch)[k] == '_'
    ensures !CoveredBy(places, k)
  {
    if CoveredBy(places, k) { OverwriteAllInside(text, places, patch, k); }
  }

  lemma OccurrenceEnds(text: string, needle: string, at: int)
    requires |needle| == LEN && Occurs(text, needle, at)
    ensures text[at] == needle[0] && text[at + LEN - 1] == needle[LEN - 1]
  {
    assert text[at] == text[at..at + LEN][0];
    assert text[at + LEN - 1] == text[at..at + LEN][LEN - 1];
  }

  /** Underscores at both ends keep placeholders off text that was overwritten with hex. */
  lemma OccurrenceIsApart(text: string, places: seq<nat>, patch: string, needle: string, at: int)
    requires |patch| == LEN && AllHex(patch) && AllFit(|text|, places)
    requires |needle| == LEN && needle[0] == needle[LEN - 1] == '_'
    requires Occurs(OverwriteAll(text, places, patch), needle, at)
    ensures forall i :: 0 <= i < |places| ==> Apart(places[i], at)
  {
    OccurrenceEnds(OverwriteAll(text, places, patch), needle, at);
    UnderscoreIsUncovered(text, places, patch, at);
    UnderscoreIsUncovered(text, places, patch, at + LEN - 1);
    hide OverwriteAll, AllHex, Occurs;
    forall i | 0 <= i < |places| ensures Apart(places[i], at) {
      assert !Covers(places[i], at) && !Covers(places[i], at + LEN - 1);
    }
  }

  lemma OccurrenceWasThere(text: string, places: seq<nat>, patch: string, needle: string, at: int)
    requires |patch| == LEN && AllHex(patch) && AllFit(|text|, places)
    requires |needle| == LEN && needle[0] == needle[LEN - 1] == '_'
    requires Occurs(OverwriteAll(text, places, patch), needle, at)
    ensures Occurs(text, needle, at)
    ensures forall i :: 0 <= i < |places| ==> Apart(places[i], at)
  {
    var r := OverwriteAll(text, places, patch);
    OccurrenceIsApart(text, places, patch, needle, at);
    forall k | at <= k < at + LEN ensures text[k] == r[k] {
      assert !CoveredBy(places, k);
      OverwriteAllOutside(text, places, patch, k);
    }
    assert text[at..at + LEN] == r[at..at + LEN];
  }

  /** Only placeholders change, and they become hex digits. */
  lemma LinkIsLocal(text: string, lib: Library, address: Address, k: nat)
    requires lib.Valid() && k < |text|
    ensures !CoveredBy(Places(text, lib), k) ==> Link(text, lib, address)[k] == text[k]
    ensures CoveredBy(Places(text, lib), k) ==> IsHexDigit(Link(text, lib, address)[k])
  {
    PlacesFit(text, lib);
    if CoveredBy(Places(text, lib), k) {
      OverwriteAllInside(text, Places(text, lib), Encode(address), k);
    } else {
      OverwriteAllOutside(text, Places(text, lib), Encode(address), k);
    }
  }

  lemma PlaceNearOccurrence(text: string, lib: Library, needle: string, at: int)
    requires lib.Valid() && (needle == HashForm(lib) || needle == NameForm(lib)) && Occurs(text, needle, at)
    ensures exists i :: 0 <= i < |Places(text, lib)| && !Apart(Places(text, lib)[i], at)
  {
    FindAllComplete(text, needle, 0, at);
    var m :| m in FindAll(text, needle, 0) && m <= at < m + LEN;
    assert m in Places(text, lib);
    var i :| 0 <= i < |Places(text, lib)| && Places(text, lib)[i] == m;
    assert !Apart(Places(text, lib)[i], at);
  }

  /** Linking leaves no placeholder of the library, in either form, anywhere. */
  lemma NoPlaceholderLeft(text: string, lib: Library, address: Address, at: int)
    requires lib.Valid()
    ensures !Occurs(Link(text, lib, address), HashForm(lib), at)
    ensures !Occurs(Link(text, lib, address), NameForm(lib), at)
  {
    PlacesFit(text, lib);
    var places := Places(text, lib);
    forall needle | needle == HashForm(lib) || needle == NameForm(lib)
      ensures !Occurs(Link(text, lib, address), needle, at)
    {
      if Occurs(Link(text, lib, address), needle, at) {
        OccurrenceWasThere(text, places, Encode(address), needle, at);
        PlaceNearOccurrence(text, lib, needle, at);
      }
    }
  }

  // ---------- The placeholder that the compiler writes ----------

  /** In text that is hex but for 40 characters, a needle with underscores at both ends occurs only there. */
  lemma LoneOccurrence(a: string, m: string, b: string, needle: string, at: int)
    requires AllHex(a) && AllHex(b) && |m| == LEN
    requires |needle| == LEN && needle[0] == needle[LEN - 1] == '_'
    ensures Occurs(a + m + b, needle, at) <==> at == |a| && m == needle
  {
    var text := a + m + b;
    assert text[|a|..|a| + LEN] == m;
    NoUnderscoreAround(a, m, b);
    hide AllHex;
    if Occurs(text, needle, at) { OccurrenceEnds(text, needle, at); }
  }

  lemma NoUnderscoreAround(a: string, m: string, b: string)
    requires AllHex(a) && AllHex(b)
    ensures var text := a + m + b;
            forall k :: 0 <= k < |a| || |a| + |m| <= k < |text| ==> text[k] != '_'
  {
  }

  lemma {:induction false} FindOnly(text: string, needle: string, from: nat, p: nat)
    requires |needle| > 0 && forall at :: Occurs(text, needle, at) ==> at == p
    ensures FindAll(text, needle, from) == if from <= p && Occurs(text, needle, p) then [p] else []
    decreases |text| - from
  {
    if from + |needle| <= |text| {
      if Occurs(text, needle, from) { FindOnly(text, needle, from + |needle|, p); }
      else { FindOnly(text, needle, from + 1, p); }
    }
  }

  lemma OverwriteBetween(a: string, m: string, b: string, patch: string)
    requires |m| == |patch|
    ensures |a| + |patch| <= |a + m + b| && Overwrite(a + m + b, |a|, patch) == a + patch + b
  {
  }

  lemma OverwriteOne(text: string, p: nat, patch: string)
    requires |patch| == LEN && AllFit(|text|, [p])
    ensures p + LEN <= |text| && OverwriteAll(text, [p], patch) == Overwrite(text, p, patch)
  {
    assert [p][0] == p && [p][1..] == [];
    hide Overwrite;
  }

  lemma OverwriteTwo(text: string, p: nat, patch: string)
    requires |patch| == LEN && AllFit(|text|, [p, p])
    ensures p + LEN <= |text| && AllFit(|text|, [p])
    ensures OverwriteAll(text, [p, p], patch) == OverwriteAll(Overwrite(text, p, patch), [p], patch)
  {
    assert [p, p][0] == p && [p, p][1..] == [p];
    hide Overwrite;
  }

  lemma OverwriteLone(a: string, m: string, b: string, places: seq<nat>, patch: string)
    requires |m| == LEN == |patch| && AllFit(|a + m + b|, places)
    requires places == [|a|] || places == [|a|, |a|]
    ensures OverwriteAll(a + m + b, places, patch) == a + patch + b
  {
    hide OverwriteAll, Overwrite, AllFit;
    OverwriteBetween(a, m, b, patch);
    OverwriteBetween(a, patch, b, patch);
    if places == [|a|, |a|] {
      OverwriteTwo(a + m + b, |a|, patch);
      OverwriteOne(a + patch + b, |a|, patch);
    } else {
      OverwriteOne(a + m + b, |a|, patch);
    }
  }

  lemma LinkLone(a: string, m: string, b: string, lib: Library, address: Address)
    requires lib.Valid() && AllHex(a) && AllHex(b) && (m == HashForm(lib) || m == NameForm(lib))
    ensures Link(a + m + b, lib, address) == a + Encode(address) + b
  {
    hide HashForm, NameForm, AllHex, OverwriteAll, Encode;
    var text := a + m + b;
    forall at: int ensures Occurs(text, HashForm(lib), at) <==> at == |a| && m == HashForm(lib) {
      LoneOccurrence(a, m, b, HashForm(lib), at);
    }
    forall at: int ensures Occurs(text, NameForm(lib), at) <==> at == |a| && m == NameForm(lib) {
      LoneOccurrence(a, m, b, NameForm(lib), at);
    }
    FindOnly(text, HashForm(lib), 0, |a|);
    FindOnly(text, NameForm(lib), 0, |a|);
    assert Places(text, lib) == [|a|] || Places(text, lib) == [|a|, |a|];
    PlacesFit(text, lib);
    OverwriteLone(a, m, b, Places(text, lib), Encode(address));
  }

  /** The placeholder with the digits of the library's hash becomes the address. */
  lemma LinkReplacesHash(a: string, b: string, lib: Library, address: Address)
    requires lib.Valid() && AllHex(a) && AllHex(b)
    ensures Link(a + "__$" + lib.digits + "$__" + b, lib, address) == a + Encode(address) + b
  {
    assert a + "__$" + lib.digits + "$__" + b == a + HashForm(lib) + b;
    LinkLone(a, HashForm(lib), b, lib, address);
  }

  /** The name form spelled out: the name cut, or filled up, to 36 characters. */
  lemma NameFormIs(lib: Library, fill: string)
    requires |fill| == 36 && forall i :: 0 <= i < |fill| ==> fill[i] == '_'
    ensures NameForm(lib) == "__" + (lib.file + ":" + lib.name + fill)[..36] + "__"
  {
    var name := lib.file + ":" + lib.name;
    assert Padded(name) == (name + fill)[..36];
  }

  /** So does the older one with the library's name. */
  lemma LinkReplacesName(a: string, b: string, lib: Library, address: Address, fill: string)
    requires lib.Valid() && AllHex(a) && AllHex(b)
    requires |fill| == 36 && forall i :: 0 <= i < |fill| ==> fill[i] == '_'
    ensures Link(a + "__" + (lib.file + ":" + lib.name + fill)[..36] + "__" + b, lib, address) ==
            a + Encode(address) + b
  {
    var name := (lib.file + ":" + lib.name + fill)[..36];
    NameFormIs(lib, fill);
    assert a + "__" + name + "__" + b == a + ("__" + name + "__") + b;
    LinkLone(a, NameForm(lib), b, lib, address);
  }

  /** Whatever the text was, neither of them is left in it. */
  lemma NoPlaceholderTextLeft(text: string, lib: Library, address: Address, a: string, b: string, fill: string)
    requires lib.Valid() && |fill| == 36 && forall i :: 0 <= i < |fill| ==> fill[i] == '_'
    ensures Link(text, lib, address) != a + "__$" + lib.digits + "$__" + b
    ensures Link(text, lib, address) != a + "__" + (lib.file + ":" + lib.name + fill)[..36] + "__" + b
  {
    NoPlaceholderLeft(text, lib, address, |a|);
    NameFormIs(lib, fill);
    var name := (lib.file + ":" + lib.name + fill)[..36];
    OccursBetween(a, HashForm(lib), b);
    OccursBetween(a, NameForm(lib), b);
    hide Link, Padded, Occurs;
    assert a + "__$" + lib.digits + "$__" + b == a + HashForm(lib) + b;
    assert a + "__" + name + "__" + b == a + ("__" + name + "__") + b;
  }

  lemma OccursBetween(a: string, needle: string, b: string)
    ensures Occurs(a + needle + b, needle, |a|)
  {
    assert (a + needle + b)[|a|..|a| + |needle|] == needle;
  }

  // ---------- When every place ends as the address ----------

  /** An address no shift of which agrees with itself: nineteen zero bytes and a one. */
  const WITNESS: Address := seq(19, i => 0) + [1]

  lemma WitnessDigits(i: nat)
    requires i < LEN
    ensures Encode(WITNESS)[i] == if i == LEN - 1 then '1' else '0'
  {
    EncodeAt(WITNESS, i / 2);
  }

  lemma {:induction false} EncodeAt(bytes: seq<byte>, i: nat)
    requires i < |bytes|
    ensures Encode(bytes)[2 * i] == DigitOf(bytes[i] as int / 16)
    ensures Encode(bytes)[2 * i + 1] == DigitOf(bytes[i] as int % 16)
  {
    if i < |bytes| - 1 { EncodeAt(bytes[..|bytes| - 1], i); }
  }

  predicate AddressEverywhere(text: string, lib: Library, address: Address)
    requires lib.Valid()
  {
    var places := Places(text, lib);
    forall i :: 0 <= i < |places| ==> Occurs(Link(text, lib, address), Encode(address), places[i])
  }

  /**
   The comment in `link` takes the found ranges for non-overlapping. A hash form and a
   name form can share underscores; every placeholder ends as the address, whatever the
   address, exactly when that does not happen.
   */
  lemma AddressEverywhereIff(text: string, lib: Library)
    requires lib.Valid()
    ensures (forall address: Address :: AddressEverywhere(text, lib, address)) <==> NoOverlap(Places(text, lib))
  {
    PlacesFit(text, lib);
    var places := Places(text, lib);
    if NoOverlap(places) {
      forall address: Address, i | 0 <= i < |places|
        ensures Occurs(Link(text, lib, address), Encode(address), places[i])
      {
        OverwrittenPlace(text, places, Encode(address), i);
      }
    } else {
      var i, j :| 0 <= i < |places| && 0 <= j < |places| && places[i] < places[j] < places[i] + LEN;
      if AddressEverywhere(text, lib, WITNESS) {
        OverlapClashes(Link(text, lib, WITNESS), places[i], places[j]);
      }
    }
  }

  lemma OverlapClashes(text: string, p: nat, q: nat)
    requires p < q < p + LEN && Occurs(text, Encode(WITNESS), p)
    ensures !Occurs(text, Encode(WITNESS), q)
  {
    var last := p + LEN - 1;
    assert text[last] == text[p..p + LEN][LEN - 1];
    assert Occurs(text, Encode(WITNESS), q) ==> text[last] == text[q..q + LEN][last - q];
    WitnessDigits(LEN - 1);
    WitnessDigits(last - q);
  }

  /** Overlapping forms exist: a hash form whose closing underscores open a name form. */
  lemma FormsCanOverlap(lib: Library)
    requires lib.Valid() && QualifiedName(lib)[0] != '$'
    ensures var text := HashForm(lib) + NameForm(lib)[2..];
            Occurs(text, HashForm(lib), 0) && Occurs(text, NameForm(lib), LEN - 2) && !NoOverlap(Places(text, lib))
  {
    var text := HashForm(lib) + NameForm(lib)[2..];
    assert text[0..LEN] == HashForm(lib);
    assert text[LEN - 2..LEN - 2 + LEN] == NameForm(lib) by {
      assert HashForm(lib)[LEN - 2..] == "__" && NameForm(lib)[..2] == "__";
      assert text[LEN - 2..] == HashForm(lib)[LEN - 2..] + NameForm(lib)[2..];
      assert NameForm(lib) == NameForm(lib)[..2] + NameForm(lib)[2..];
      assert text[LEN - 2..LEN - 2 + LEN] == text[LEN - 2..];
    }
    var places := Places(text, lib);
    assert 0 in FindAll(text, HashForm(lib), 0) by { assert Occurs(text, HashForm(lib), 0); }
    FindAllComplete(text, NameForm(lib), 0, LEN - 2);
    FindAllSound(text, NameForm(lib), 0);
    var m :| m in FindAll(text, NameForm(lib), 0) && m <= LEN - 2 < m + LEN;
    assert m != 0 by {
      assert text[0..LEN][2] == '$' && NameForm(lib)[2] == QualifiedName(lib)[0];
    }
    assert 0 in places && m in places;
    var i, j :| 0 <= i < |places| && 0 <= j < |places| && places[i] == 0 && places[j] == m;
    assert places[i] != places[j] && !Apart(places[i], places[j]);
  }
}
