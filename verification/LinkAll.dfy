/**
 `Bytecode::link` and `Bytecode::link_all`: libraries are crossed off the link references
 one by one, and the text is decoded when none is left.
 */
module LinkAll {
  import opened Common
  import opened Hex
  import opened BytecodeLink

  datatype Object = Decoded(bytes: seq<byte>) | Unlinked(text: string)

  /** Names of a file's libraries still to be linked; their offsets are not used. */
  type References = map<string, set<string>>

  datatype Code = Code(body: Object, references: References)

  datatype Supply = Supply(lib: Library, address: Address)

  predicate Referenced(references: References, lib: Library) {
    lib.file in references && lib.name in references[lib.file]
  }

  function Cross(references: References, lib: Library): References
    requires lib.file in references
  {
    var left := references[lib.file] - {lib.name};
    if left == {} then references - {lib.file} else references[lib.file := left]
  }

  function Resolved(body: Object): Object {
    if body.Unlinked? && Decode(body.text).Some? then Decoded(Decode(body.text).value) else body
  }

  function LinkOne(code: Code, lib: Library, address: Address): Code
    requires lib.Valid()
  {
    if code.body.Decoded? || lib.file !in code.references then code
    else
      var body := if Referenced(code.references, lib) then Unlinked(Link(code.body.text, lib, address)) else code.body;
      var references := Cross(code.references, lib);
      Code(if references == map[] then Resolved(body) else body, references)
  }

  predicate AllValid(supplies: seq<Supply>) {
    forall i :: 0 <= i < |supplies| ==> supplies[i].lib.Valid()
  }

  /** Stops at the first call that ends with a decoded object. */
  function LinkEach(code: Code, supplies: seq<Supply>): Code
    requires AllValid(supplies)
    decreases |supplies|
  {
    if supplies == [] then code
    else
      var next := LinkOne(code, supplies[0].lib, supplies[0].address);
      if next.body.Decoded? then next else LinkEach(next, supplies[1..])
  }

  // ---------- The result, whatever the order ----------

  /** Files without libraries left are not kept. */
  predicate NoEmptyFile(references: References) {
    forall f :: f in references ==> references[f] != {}
  }

  predicate DistinctNames(supplies: seq<Supply>) {
    forall i, j :: 0 <= i < j < |supplies| ==>
      supplies[i].lib.file != supplies[j].lib.file || supplies[i].lib.name != supplies[j].lib.name
  }

  predicate Supplied(references: References, supplies: seq<Supply>) {
    forall f :: f in references ==> forall n :: n in references[f] ==>
      exists i :: 0 <= i < |supplies| && supplies[i].lib.file == f && supplies[i].lib.name == n
  }

  function Used(references: References, supplies: seq<Supply>): set<Supply> {
    set s | s in supplies && Referenced(references, s.lib)
  }

  ghost predicate Uncovered(text: string, used: set<Supply>, k: int)
    requires forall s :: s in used ==> s.lib.Valid()
  {
    forall s :: s in used ==> !CoveredBy(Places(text, s.lib), k)
  }

  predicate AllApart(ps: seq<nat>, qs: seq<nat>) {
    forall i, j :: 0 <= i < |ps| && 0 <= j < |qs| ==> Apart(ps[i], qs[j])
  }

  /** Placeholders do not share characters, and everything else is hex. */
  ghost predicate Linkable(text: string, used: set<Supply>) {
    && (forall s :: s in used ==> s.lib.Valid())
    && (forall s :: s in used ==> NoOverlap(Places(text, s.lib)))
    && (forall s, t :: s in used && t in used && s != t ==> AllApart(Places(text, s.lib), Places(text, t.lib)))
    && (forall k :: 0 <= k < |text| && Uncovered(text, used, k) ==> IsHexDigit(text[k]))
  }

  predicate Filled(text: string, s: Supply, r: string)
    requires s.lib.Valid()
  {
    forall i :: 0 <= i < |Places(text, s.lib)| ==> Occurs(r, Encode(s.address), Places(text, s.lib)[i])
  }

  /** Every placeholder is its library's address and nothing else changed. */
  ghost predicate FilledIn(text: string, used: set<Supply>, r: string)
    requires forall s :: s in used ==> s.lib.Valid()
  {
    && |r| == |text|
    && (forall s :: s in used ==> Filled(text, s, r))
    && (forall k :: 0 <= k < |text| && Uncovered(text, used, k) ==> r[k] == text[k])
  }

  /** Linking one library leaves the placeholders of the others where they were. */
  lemma FormSurvives(text: string, s: Supply, needle: string)
    requires s.lib.Valid() && |needle| == LEN && needle[0] == needle[LEN - 1] == '_'
    requires AllApart(Places(text, s.lib), FindAll(text, needle, 0))
    ensures FindAll(Link(text, s.lib, s.address), needle, 0) == FindAll(text, needle, 0)
  {
    var later, places, found := Link(text, s.lib, s.address), Places(text, s.lib), FindAll(text, needle, 0);
    PlacesFit(text, s.lib);
    FindAllSound(text, needle, 0);
    forall m | m in found ensures Occurs(later, needle, m) {
      var i :| 0 <= i < |found| && found[i] == m;
      forall k | m <= k < m + LEN ensures later[k] == text[k] { KeptWhereApart(text, s, found, i, k); }
      assert later[m..m + LEN] == text[m..m + LEN];
    }
    forall m | Occurs(later, needle, m) ensures Occurs(text, needle, m) {
      OccurrenceWasThere(text, places, Encode(s.address), needle, m);
    }
    FindAllSurvives(text, later, needle, 0);
  }

  lemma KeptWhereApart(text: string, s: Supply, found: seq<nat>, i: nat, k: nat)
    requires s.lib.Valid() && AllApart(Places(text, s.lib), found)
    requires i < |found| && Covers(found[i], k) && k < |text|
    ensures !CoveredBy(Places(text, s.lib), k)
    ensures Link(text, s.lib, s.address)[k] == text[k]
  {
    hide Link, FindAll, Places;
    LinkIsLocal(text, s.lib, s.address, k);
  }

  lemma PlacesSurvive(text: string, s: Supply, other: Library)
    requires s.lib.Valid() && other.Valid() && AllApart(Places(text, s.lib), Places(text, other))
    ensures Places(Link(text, s.lib, s.address), other) == Places(text, other)
  {
    var ps, hashes, names := Places(text, s.lib), FindAll(text, HashForm(other), 0), FindAll(text, NameForm(other), 0);
    assert forall j :: 0 <= j < |hashes| ==> Places(text, other)[j] == hashes[j];
    assert forall j :: 0 <= j < |names| ==> Places(text, other)[|hashes| + j] == names[j];
    FormSurvives(text, s, HashForm(other));
    FormSurvives(text, s, NameForm(other));
  }

  lemma LinkKeepsLinkable(text: string, used: set<Supply>, s: Supply)
    requires Linkable(text, used) && s in used
    ensures Linkable(Link(text, s.lib, s.address), used - {s})
  {
    var later, left := Link(text, s.lib, s.address), used - {s};
    forall u | u in left ensures u.lib.Valid() && Places(later, u.lib) == Places(text, u.lib) {
      PlacesSurvive(text, s, u.lib);
    }
    forall k | 0 <= k < |later| && Uncovered(later, left, k) ensures IsHexDigit(later[k]) {
      hide Places, Link;
      LinkIsLocal(text, s.lib, s.address, k);
      if !CoveredBy(Places(text, s.lib), k) { assert Uncovered(text, used, k); }
    }
  }

  /** What is filled in after one library was linked is filled in for all of them. */
  lemma FilledFromLater(text: string, used: set<Supply>, s: Supply, r: string)
    requires Linkable(text, used) && s in used
    requires FilledIn(Link(text, s.lib, s.address), used - {s}, r)
    ensures FilledIn(text, used, r)
  {
    var later, left := Link(text, s.lib, s.address), used - {s};
    forall u | u in left ensures u.lib.Valid() && Places(later, u.lib) == Places(text, u.lib) {
      PlacesSurvive(text, s, u.lib);
    }
    forall k | 0 <= k < |text| && Uncovered(text, used, k) ensures r[k] == text[k] {
      hide Places, Link;
      LinkIsLocal(text, s.lib, s.address, k);
      assert Uncovered(later, left, k);
    }
    forall u | u in used ensures Filled(text, u, r) {
      if u == s { OwnPlacesFilled(text, used, s, r); }
      else { assert u in left && Filled(later, u, r); }
    }
  }

  lemma OwnPlacesFilled(text: string, used: set<Supply>, s: Supply, r: string)
    requires Linkable(text, used) && s in used
    requires FilledIn(Link(text, s.lib, s.address), used - {s}, r)
    ensures Filled(text, s, r)
  {
    var later, left, places := Link(text, s.lib, s.address), used - {s}, Places(text, s.lib);
    PlacesFit(text, s.lib);
    forall i | 0 <= i < |places| ensures Occurs(r, Encode(s.address), places[i]) {
      OverwrittenPlace(text, places, Encode(s.address), i);
      forall k | places[i] <= k < places[i] + LEN ensures r[k] == later[k] {
        forall u | u in left ensures !CoveredBy(Places(later, u.lib), k) {
          PlacesSurvive(text, s, u.lib);
          hide Places, Link;
          assert Covers(places[i], k);
        }
        assert Uncovered(later, left, k);
      }
      assert r[places[i]..places[i] + LEN] == later[places[i]..places[i] + LEN];
    }
  }

  lemma UnreferencedIsSkipped(code: Code, s: Supply)
    requires s.lib.Valid() && code.body.Unlinked? && code.references != map[] && NoEmptyFile(code.references)
    requires !Referenced(code.references, s.lib)
    ensures LinkOne(code, s.lib, s.address) == code
  {
    if s.lib.file in code.references {
      assert code.references[s.lib.file] - {s.lib.name} == code.references[s.lib.file];
      assert code.references[s.lib.file := code.references[s.lib.file]] == code.references;
    }
  }

  lemma CrossLeavesOthers(references: References, lib: Library, other: Library)
    requires Referenced(references, lib)
    ensures Referenced(Cross(references, lib), other) <==>
            Referenced(references, other) && (other.file != lib.file || other.name != lib.name)
  {
    if other.file == lib.file && other.name != lib.name && Referenced(references, other) {
      assert other.name in references[lib.file] - {lib.name};
    }
  }

  lemma CrossedOffUsed(references: References, supplies: seq<Supply>)
    requires supplies != [] && DistinctNames(supplies) && Referenced(references, supplies[0].lib)
    ensures Used(Cross(references, supplies[0].lib), supplies[1..]) == Used(references, supplies) - {supplies[0]}
  {
    var s, left := supplies[0], Cross(references, supplies[0].lib);
    hide Cross, Referenced;
    forall u ensures u in Used(left, supplies[1..]) <==> u in Used(references, supplies) && u != s {
      CrossLeavesOthers(references, s.lib, u.lib);
      if u in supplies[1..] {
        var i :| 0 <= i < |supplies| - 1 && supplies[1..][i] == u;
        assert supplies[i + 1] == u;
      }
    }
  }

  lemma SuppliedByRest(references: References, left: References, supplies: seq<Supply>)
    requires supplies != [] && Supplied(references, supplies)
    requires forall f :: f in left ==> f in references && left[f] <= references[f]
    requires !Referenced(left, supplies[0].lib)
    ensures Supplied(left, supplies[1..])
  {
    forall f, n | f in left && n in left[f]
      ensures exists i :: 0 <= i < |supplies| - 1 && supplies[1..][i].lib.file == f && supplies[1..][i].lib.name == n
    {
      assert f in references && n in references[f];
      var i :| 0 <= i < |supplies| && supplies[i].lib.file == f && supplies[i].lib.name == n;
      assert i != 0;
      assert supplies[1..][i - 1] == supplies[i];
    }
  }

  /** Everything `link_all` is promised for: unlinked text, and an address for each reference. */
  ghost predicate Ready(code: Code, supplies: seq<Supply>) {
    && code.body.Unlinked? && |code.body.text| % 2 == 0
    && code.references != map[] && NoEmptyFile(code.references)
    && AllValid(supplies) && DistinctNames(supplies) && Supplied(code.references, supplies)
    && Linkable(code.body.text, Used(code.references, supplies))
  }

  lemma NothingLeftToFill(text: string)
    requires Linkable(text, {}) && |text| % 2 == 0
    ensures AllHex(text) && Decode(text) == Some(Pairs(text)) && FilledIn(text, {}, text)
  {
    assert forall k :: 0 <= k < |text| ==> Uncovered(text, {}, k);
    AllHexHasNoPrefix(text);
  }

  lemma RestStaysValid(supplies: seq<Supply>)
    requires supplies != [] && AllValid(supplies) && DistinctNames(supplies)
    ensures AllValid(supplies[1..]) && DistinctNames(supplies[1..])
  {}

  lemma SkippedIsUnused(references: References, supplies: seq<Supply>)
    requires supplies != [] && !Referenced(references, supplies[0].lib)
    ensures Used(references, supplies[1..]) == Used(references, supplies)
  {
    hide Referenced;
    assert forall u :: u in supplies <==> u == supplies[0] || u in supplies[1..];
  }

  lemma SkippedStaysReady(code: Code, supplies: seq<Supply>)
    requires Ready(code, supplies) && supplies != [] && !Referenced(code.references, supplies[0].lib)
    ensures LinkOne(code, supplies[0].lib, supplies[0].address) == code && Ready(code, supplies[1..])
    ensures Used(code.references, supplies[1..]) == Used(code.references, supplies)
  {
    UnreferencedIsSkipped(code, supplies[0]);
    hide Linkable, NoEmptyFile, DistinctNames, AllValid, Used, LinkOne;
    RestStaysValid(supplies);
    SkippedIsUnused(code.references, supplies);
    SuppliedByRest(code.references, code.references, supplies);
  }

  lemma ReadyHasSupplies(code: Code, supplies: seq<Supply>)
    requires Ready(code, supplies)
    ensures supplies != []
  {
    hide Linkable;
    var f :| f in code.references;
    var n :| n in code.references[f];
    var i :| 0 <= i < |supplies| && supplies[i].lib.file == f && supplies[i].lib.name == n;
  }

  /** The state after linking the first library, before the text is decoded. */
  function Linked(code: Code, s: Supply): Code
    requires s.lib.Valid() && code.body.Unlinked? && Referenced(code.references, s.lib)
  {
    Code(Unlinked(Link(code.body.text, s.lib, s.address)), Cross(code.references, s.lib))
  }

  lemma LinkedStaysReady(code: Code, supplies: seq<Supply>)
    requires Ready(code, supplies) && supplies != [] && Referenced(code.references, supplies[0].lib)
    ensures var next := Linked(code, supplies[0]);
            && Used(next.references, supplies[1..]) == Used(code.references, supplies) - {supplies[0]}
            && Linkable(next.body.text, Used(next.references, supplies[1..]))
            && (next.references != map[] ==> Ready(next, supplies[1..]))
  {
    assert supplies[0].lib.Valid();
    hide Linkable, Link, Used, Referenced, Cross, DistinctNames, AllValid, NoEmptyFile, Supplied;
    var lib, left := supplies[0].lib, Cross(code.references, supplies[0].lib);
    CrossedOffUsed(code.references, supplies);
    FirstIsUsed(code.references, supplies);
    LinkKeepsLinkable(code.body.text, Used(code.references, supplies), supplies[0]);
    CrossLeavesOthers(code.references, lib, lib);
    CrossShrinks(code.references, lib);
    RestStaysValid(supplies);
    SuppliedByRest(code.references, left, supplies);
  }

  lemma FirstIsUsed(references: References, supplies: seq<Supply>)
    requires supplies != [] && Referenced(references, supplies[0].lib)
    ensures supplies[0] in Used(references, supplies)
  {
    hide Referenced;
  }

  lemma CrossShrinks(references: References, lib: Library)
    requires NoEmptyFile(references) && Referenced(references, lib)
    ensures var left := Cross(references, lib);
            NoEmptyFile(left) && forall f :: f in left ==> f in references && left[f] <= references[f]
  {}

  lemma LastLinkDecodes(code: Code, supplies: seq<Supply>)
    requires Ready(code, supplies) && supplies != [] && Referenced(code.references, supplies[0].lib)
    requires Linked(code, supplies[0]).references == map[]
    ensures var r := Link(code.body.text, supplies[0].lib, supplies[0].address);
            && AllHex(r) && LinkOne(code, supplies[0].lib, supplies[0].address).body == Decoded(Pairs(r))
            && FilledIn(code.body.text, Used(code.references, supplies), r)
  {
    var s, next := supplies[0], Linked(code, supplies[0]);
    LinkedStaysReady(code, supplies);
    hide Linkable, FilledIn, Link;
    assert Used(next.references, supplies[1..]) == {};
    NothingLeftToFill(next.body.text);
    FilledFromLater(code.body.text, Used(code.references, supplies), s, next.body.text);
  }

  /**
   With an address for every reference, and placeholders that do not overlap in otherwise
   hex text, `link_all` ends decoded: to the text with every placeholder filled in.
   */
  lemma {:induction false} LinkEachFillsIn(code: Code, supplies: seq<Supply>) returns (r: string)
    requires Ready(code, supplies)
    ensures FilledIn(code.body.text, Used(code.references, supplies), r)
    ensures AllHex(r) && LinkEach(code, supplies).body == Decoded(Pairs(r))
    decreases |supplies|
  {
    ReadyHasSupplies(code, supplies);
    hide FilledIn, Linkable, Link, Used, Pairs, Supplied, DistinctNames;
    var s := supplies[0];
    if !Referenced(code.references, s.lib) {
      SkippedStaysReady(code, supplies);
      r := LinkEachFillsIn(code, supplies[1..]);
    } else if Linked(code, s).references == map[] {
      LastLinkDecodes(code, supplies);
      r := Link(code.body.text, s.lib, s.address);
    } else {
      LinkedStaysReady(code, supplies);
      assert LinkOne(code, s.lib, s.address) == Linked(code, s);
      r := LinkEachFillsIn(Linked(code, s), supplies[1..]);
      FilledFromLater(code.body.text, Used(code.references, supplies), s, r);
    }
  }

  lemma FilledCharacter(text: string, s: Supply, r: string, i: nat, k: nat)
    requires s.lib.Valid() && Filled(text, s, r) && i < |Places(text, s.lib)| && Covers(Places(text, s.lib)[i], k)
    ensures k < |r| && r[k] == Encode(s.address)[k - Places(text, s.lib)[i]]
  {
    hide Places;
    var p := Places(text, s.lib)[i];
    assert Occurs(r, Encode(s.address), p);
    assert r[k] == r[p..p + LEN][k - p];
  }

  lemma FilledInIsUnique(text: string, used: set<Supply>, r: string, q: string)
    requires forall s :: s in used ==> s.lib.Valid()
    requires FilledIn(text, used, r) && FilledIn(text, used, q)
    ensures r == q
  {
    hide Places, Filled;
    forall k | 0 <= k < |text| ensures r[k] == q[k] {
      if !Uncovered(text, used, k) {
        var s :| s in used && CoveredBy(Places(text, s.lib), k);
        var i :| 0 <= i < |Places(text, s.lib)| && Covers(Places(text, s.lib)[i], k);
        FilledCharacter(text, s, r, i, k);
        FilledCharacter(text, s, q, i, k);
      }
    }
  }

  /** The order in which the addresses are given does not matter. */
  lemma OrderIrrelevant(code: Code, supplies: seq<Supply>, others: seq<Supply>)
    requires Ready(code, supplies) && Ready(code, others)
    requires forall s :: s in supplies <==> s in others
    ensures LinkEach(code, supplies).body.Decoded?
    ensures LinkEach(code, supplies).body == LinkEach(code, others).body
  {
    var r := LinkEachFillsIn(code, supplies);
    var q := LinkEachFillsIn(code, others);
    assert Used(code.references, supplies) == Used(code.references, others);
    FilledInIsUnique(code.body.text, Used(code.references, supplies), r, q);
  }

  /** At an even position, the decoded bytes hold the address itself. */
  lemma DecodedAddress(text: string, s: Supply, r: string, i: nat)
    requires s.lib.Valid() && Filled(text, s, r) && AllHex(r) && |r| % 2 == 0
    requires i < |Places(text, s.lib)| && Places(text, s.lib)[i] % 2 == 0
    ensures var p := Places(text, s.lib)[i] / 2; p + 20 <= |Pairs(r)| && Pairs(r)[p..p + 20] == s.address
  {
    assert Occurs(r, Encode(s.address), Places(text, s.lib)[i]);
    hide Encode, Places, Filled, NibbleOf;
    var p := Places(text, s.lib)[i];
    forall d | 0 <= d < 20 ensures Pairs(r)[p / 2 + d] == s.address[d] { DecodedByte(r, s.address, p, d); }
  }

  lemma DecodedByte(r: string, address: Address, p: nat, d: nat)
    requires AllHex(r) && |r| % 2 == 0 && Occurs(r, Encode(address), p) && p % 2 == 0 && d < 20
    ensures Pairs(r)[p / 2 + d] == address[d]
  {
    hide Encode, NibbleOf;
    assert r[p + 2 * d] == r[p..p + LEN][2 * d] && r[p + 2 * d + 1] == r[p..p + LEN][2 * d + 1];
    EncodedPairs(address, d);
  }

  // ---------- One placeholder, spelled out ----------

  lemma PairsOfConcat(a: string, b: string)
    requires AllHex(a) && AllHex(b) && |a| % 2 == 0 && |b| % 2 == 0
    ensures AllHex(a + b) && Pairs(a + b) == Pairs(a) + Pairs(b)
  {
    hide NibbleOf;
    assert forall i :: 0 <= i < |a| / 2 ==> ByteAt(a + b, i) == ByteAt(a, i);
    assert forall i :: 0 <= i < |b| / 2 ==> ByteAt(a + b, |a| / 2 + i) == ByteAt(b, i);
  }

  lemma PairsOfEncoded(bytes: seq<byte>)
    ensures AllHex(Encode(bytes)) && Pairs(Encode(bytes)) == bytes
  {
    hide ByteAt;
    forall i | 0 <= i < |bytes| ensures Pairs(Encode(bytes))[i] == bytes[i] { EncodedPairs(bytes, i); }
  }

  /**
   Linking the only referenced library, whose placeholder stands between hex text, decodes
   to the bytes before it, the address, and the bytes after it.
   */
  lemma LinkingDecodes(a: string, b: string, lib: Library, address: Address)
    requires lib.Valid() && AllHex(a) && AllHex(b) && |a| % 2 == 0 && |b| % 2 == 0
    ensures var code := Code(Unlinked(a + "__$" + lib.digits + "$__" + b), map[lib.file := {lib.name}]);
            LinkOne(code, lib, address) == Code(Decoded(Pairs(a) + address + Pairs(b)), map[])
  {
    var text := a + "__$" + lib.digits + "$__" + b;
    var linked := a + Encode(address) + b;
    LinkReplacesHash(a, b, lib, address);
    PairsOfEncoded(address);
    PairsOfConcat(a, Encode(address));
    PairsOfConcat(a + Encode(address), b);
    AllHexHasNoPrefix(linked);
    assert Decode(linked) == Some(Pairs(a) + address + Pairs(b));
    LastCrossed(lib);
    hide Link, Decode, Encode, Cross, AllHex;
  }

  lemma LastCrossed(lib: Library)
    ensures Referenced(map[lib.file := {lib.name}], lib) && Cross(map[lib.file := {lib.name}], lib) == map[]
  {
    assert {lib.name} - {lib.name} == {};
    assert map[lib.file := {lib.name}] - {lib.file} == map[];
  }
}
