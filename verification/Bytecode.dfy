/** `link` and the methods of `Bytecode`, updating text and references in place. */
module Bytecode {
  import opened Common
  import opened Hex
  import opened BytecodeLink
  import opened LinkAll

  /** Copies a patch over the characters from a place on. */
  method CopyOver(text: array<char>, at: nat, patch: string)
    requires at + |patch| <= text.Length
    modifies text
    ensures text[..] == Overwrite(old(text[..]), at, patch)
  {
    for i := 0 to |patch|
      invariant text[..] == old(text[..at]) + patch[..i] + old(text[at + i..])
    {
      text[at + i] := patch[i];
    }
  }

  method LinkInPlace(unlinked: array<char>, lib: Library, address: Address)
    requires lib.Valid()
    modifies unlinked
    ensures unlinked[..] == Link(old(unlinked[..]), lib, address)
  {
    var places := FindAll(unlinked[..], HashForm(lib), 0);
    places := places + FindAll(unlinked[..], NameForm(lib), 0);
    PlacesFit(unlinked[..], lib);
    if places == [] { return; }
    var hex := Encode(address);
    for i := 0 to |places|
      invariant OverwriteAll(unlinked[..], places[i..], hex) == Link(old(unlinked[..]), lib, address)
    {
      assert places[i..][0] == places[i] && places[i..][1..] == places[i + 1..];
      CopyOver(unlinked, places[i], hex);
    }
    assert places[|places|..] == [];
  }

  class Bytecode {
    var body: Object
    var references: References

    function State(): Code
      reads this
    {
      Code(body, references)
    }

    constructor (body: Object, references: References)
      ensures State() == Code(body, references)
    {
      this.body, this.references := body, references;
    }

    /** Decodes the text if it is hex by now; the bytes, if there are any. */
    method Resolve() returns (bytes: Option<seq<byte>>)
      modifies `body
      ensures body == Resolved(old(body))
      ensures bytes == if body.Decoded? then Some(body.bytes) else None
    {
      if body.Unlinked? {
        var linked := Decode(body.text);
        if linked.Some? { body := Decoded(linked.value); }
      }
      bytes := if body.Decoded? then Some(body.bytes) else None;
    }

    /** True exactly when the object is decoded afterwards. */
    method Link(lib: Library, address: Address) returns (linked: bool)
      requires lib.Valid()
      modifies this
      ensures State() == LinkOne(old(State()), lib, address)
      ensures linked <==> body.Decoded?
    {
      if body.Decoded? { return true; }
      if lib.file in references {
        var contracts := references[lib.file];
        references := references - {lib.file};
        if lib.name in contracts {
          var text := body.text;
          var unlinked := new char[|text|](i requires 0 <= i < |text| => text[i]);
          assert unlinked[..] == text;
          LinkInPlace(unlinked, lib, address);
          body := Unlinked(unlinked[..]);
        }
        contracts := contracts - {lib.name};
        if contracts != {} { references := references[lib.file := contracts]; }
        assert references == Cross(old(references), lib);
        if references == map[] {
          var bytes := Resolve();
          return bytes.Some?;
        }
      }
      return false;
    }

    method LinkAll(supplies: seq<Supply>) returns (linked: bool)
      requires AllValid(supplies)
      modifies this
      ensures State() == LinkEach(old(State()), supplies)
      ensures linked <==> body.Decoded? && supplies != []
    {
      for i := 0 to |supplies|
        invariant LinkEach(State(), supplies[i..]) == LinkEach(old(State()), supplies)
        invariant i > 0 ==> body.Unlinked?
      {
        assert supplies[i..][0] == supplies[i] && supplies[i..][1..] == supplies[i + 1..];
        var done := Link(supplies[i].lib, supplies[i].address);
        if done { return true; }
      }
      assert supplies[|supplies|..] == [];
      return false;
    }
  }
}
