/**
 * The story-bible handlers of src/components/BibleManager.tsx. Each builds
 * a new bible with a spread and hands it to `onUpdate`. Character and
 * location lists are edited by id, and a list missing from the bible counts
 * as empty (`bible.characters || []`).
 *
 * `crypto.randomUUID` is a fresh-id parameter and `confirm` a boolean
 * parameter.
 */
module BibleEditor {

  import opened Types
  import opened Text
  import opened Records

  function Characters(b: Bible): seq<Character> { b.characters.GetOr([]) }
  function Locations(b: Bible): seq<Location> { b.locations.GetOr([]) }

  /** handleUpdateSummary: the summary is replaced, nothing else changes. */
  function UpdateSummary(b: Bible, summary: string): (r: Bible)
    ensures r.summary == summary
    ensures r.characters == b.characters && r.locations == b.locations
  {
    b.(summary := summary)
  }

  // ---- characters ----

  /** addCharacter: one new character at the end, with the fresh id and the
      default name, traits, arc status and description; earlier characters,
      the locations and the summary are unchanged, and ids stay distinct. */
  function AddCharacter(b: Bible, freshId: string): (r: Bible)
    requires !HasId(Characters(b), freshId, CharacterId)
    ensures |Characters(r)| == |Characters(b)| + 1
    ensures Characters(r)[..|Characters(b)|] == Characters(b)
    ensures Characters(r)[|Characters(b)|] == Character(freshId, "New Character", [], "Alive", "Description...")
    ensures r.locations == b.locations && r.summary == b.summary
    ensures UniqueIds(Characters(b), CharacterId) ==> UniqueIds(Characters(r), CharacterId)
  {
    var cs := Characters(b) + [Character(freshId, "New Character", [], "Alive", "Description...")];
    assert cs[..|Characters(b)|] == Characters(b);
    b.(characters := Some(cs))
  }

  /** deleteCharacter: when confirmed, exactly the characters with the id go
      and the rest keep their order; when not, nothing changes. */
  function DeleteCharacter(b: Bible, id: string, confirmed: bool): (r: Bible)
    ensures !confirmed ==> r == b
    ensures confirmed ==> r.locations == b.locations && r.summary == b.summary
    ensures confirmed ==> forall i :: 0 <= i < |Characters(r)| ==>
      Characters(r)[i].id != id && Characters(r)[i] in Characters(b)
    ensures confirmed ==> forall i :: 0 <= i < |Characters(b)| && Characters(b)[i].id != id ==>
      Characters(b)[i] in Characters(r)
    ensures confirmed ==> Subsequence(Characters(r), Characters(b))
    ensures confirmed ==> |Characters(r)| == |Characters(b)| - CountId(Characters(b), id, CharacterId)
  {
    if confirmed then b.(characters := Some(RemoveWhere(Characters(b), id, CharacterId))) else b
  }

  /** The value `updateCharacter` is called with: a field of a character
      and a new value for it. Traits can come as a list, or as the text of
      an input, which is split at commas. */
  datatype CharacterEdit =
    | SetCharacterId(id: string)
    | SetName(name: string)
    | SetTraits(traits: seq<string>)
    | SetTraitsText(text: string)
    | SetArcStatus(arcStatus: string)
    | SetCharacterDescription(description: string)

  /** `s.trim()` of every piece. */
  function TrimAll(xs: seq<string>): (r: seq<string>)
    ensures |r| == |xs|
    ensures forall i :: 0 <= i < |xs| ==> r[i] == Trim(xs[i])
  {
    if |xs| == 0 then [] else [Trim(xs[0])] + TrimAll(xs[1..])
  }

  /** `value.split(',').map(s => s.trim())`: one trait per comma-separated
      piece, so one more than there are commas, each without white space at
      either end. */
  function ParseTraits(text: string): (r: seq<string>)
    ensures |r| == |Split(text, ',')| == multiset(text)[','] + 1
    ensures Lines(r, ',')
    ensures forall i :: 0 <= i < |r| ==> Trimmed(r[i]) && r[i] == Trim(Split(text, ',')[i])
  {
    SplitCount(text, ',');
    TrimAllKeepsLines(Split(text, ','), ',');
    TrimAll(Split(text, ','))
  }

  /** Trimming never brings in a character that was not there. */
  lemma TrimKeepsOut(s: string, c: char)
    requires c !in s
    ensures c !in Trim(s)
  {
    var a, b :| 0 <= a <= b <= |s| && Trim(s) == s[a..b] && AllSpace(s[..a]) && AllSpace(s[b..]);
    assert forall k :: 0 <= k < b - a ==> Trim(s)[k] == s[a + k];
  }

  lemma TrimAllKeepsLines(xs: seq<string>, c: char)
    requires Lines(xs, c)
    ensures Lines(TrimAll(xs), c)
  {
    forall i | 0 <= i < |xs| ensures c !in TrimAll(xs)[i] {
      TrimKeepsOut(xs[i], c);
    }
  }

  /** Traits that hold no comma and no white space at either end come back
      unchanged from a comma-joined text. */
  lemma ParseTraitsJoin(traits: seq<string>)
    requires |traits| >= 1
    requires Lines(traits, ',') && forall i :: 0 <= i < |traits| ==> Trimmed(traits[i])
    ensures ParseTraits(Join(traits, ',')) == traits
  {
    SplitJoin(traits, ',');
    forall i | 0 <= i < |traits| ensures Trim(traits[i]) == traits[i] {
      TrimUnique("", traits[i], "");
      assert "" + traits[i] + "" == traits[i];
    }
  }

  /** `{ ...c, [field]: value }`, with the traits text split. */
  function ApplyCharacterEdit(c: Character, e: CharacterEdit): Character {
    match e
    case SetCharacterId(v) => c.(id := v)
    case SetName(v) => c.(name := v)
    case SetTraits(v) => c.(traits := v)
    case SetTraitsText(v) => c.(traits := ParseTraits(v))
    case SetArcStatus(v) => c.(arcStatus := v)
    case SetCharacterDescription(v) => c.(description := v)
  }

  /** updateCharacter: every character with the id gets the edit; the others,
      the length and order of the list, the locations and the summary stay. */
  function UpdateCharacter(b: Bible, id: string, e: CharacterEdit): (r: Bible)
    ensures |Characters(r)| == |Characters(b)|
    ensures forall i :: 0 <= i < |Characters(b)| ==>
      (Characters(r)[i] == if Characters(b)[i].id == id then ApplyCharacterEdit(Characters(b)[i], e) else Characters(b)[i])
    ensures r.locations == b.locations && r.summary == b.summary
  {
    b.(characters := Some(UpdateWhere(Characters(b), id, CharacterId, c => ApplyCharacterEdit(c, e))))
  }

  /** Deleting a character just added, under its fresh id, gives back the
      list as it was. */
  lemma AddThenDeleteCharacter(b: Bible, freshId: string)
    requires !HasId(Characters(b), freshId, CharacterId)
    ensures Characters(DeleteCharacter(AddCharacter(b, freshId), freshId, true)) == Characters(b)
  {
    var added := Character(freshId, "New Character", [], "Alive", "Description...");
    assert Characters(AddCharacter(b, freshId)) == Characters(b) + [added];
    RemoveWhereAppend(Characters(b), added, freshId, CharacterId);
    RemoveWhereAbsent(Characters(b), freshId, CharacterId);
  }

  /** With distinct ids an update changes one character at most, and an
      edit of anything but the id keeps the ids distinct. */
  lemma UpdateCharacterTouchesOne(b: Bible, k: nat, e: CharacterEdit)
    requires UniqueIds(Characters(b), CharacterId) && k < |Characters(b)|
    ensures Characters(UpdateCharacter(b, Characters(b)[k].id, e))
         == Characters(b)[k := ApplyCharacterEdit(Characters(b)[k], e)]
    ensures !e.SetCharacterId? ==> UniqueIds(Characters(UpdateCharacter(b, Characters(b)[k].id, e)), CharacterId)
  {
    UpdateWhereOne(Characters(b), k, CharacterId, c => ApplyCharacterEdit(c, e));
  }

  // ---- locations ----

  /** addLocation: one new location at the end, with the fresh id and the
      default name and description; nothing else changes. */
  function AddLocation(b: Bible, freshId: string): (r: Bible)
    requires !HasId(Locations(b), freshId, LocationId)
    ensures |Locations(r)| == |Locations(b)| + 1
    ensures Locations(r)[..|Locations(b)|] == Locations(b)
    ensures Locations(r)[|Locations(b)|] == Location(freshId, "New Location", "Description...")
    ensures r.characters == b.characters && r.summary == b.summary
    ensures UniqueIds(Locations(b), LocationId) ==> UniqueIds(Locations(r), LocationId)
  {
    var ls := Locations(b) + [Location(freshId, "New Location", "Description...")];
    assert ls[..|Locations(b)|] == Locations(b);
    b.(locations := Some(ls))
  }

  /** deleteLocation: when confirmed, exactly the locations with the id go
      and the rest keep their order; when not, nothing changes. */
  function DeleteLocation(b: Bible, id: string, confirmed: bool): (r: Bible)
    ensures !confirmed ==> r == b
    ensures confirmed ==> r.characters == b.characters && r.summary == b.summary
    ensures confirmed ==> forall i :: 0 <= i < |Locations(r)| ==>
      Locations(r)[i].id != id && Locations(r)[i] in Locations(b)
    ensures confirmed ==> forall i :: 0 <= i < |Locations(b)| && Locations(b)[i].id != id ==>
      Locations(b)[i] in Locations(r)
    ensures confirmed ==> Subsequence(Locations(r), Locations(b))
    ensures confirmed ==> |Locations(r)| == |Locations(b)| - CountId(Locations(b), id, LocationId)
  {
    if confirmed then b.(locations := Some(RemoveWhere(Locations(b), id, LocationId))) else b
  }

  /** Deleting a location just added, under its fresh id, gives back the
      list as it was. */
  lemma AddThenDeleteLocation(b: Bible, freshId: string)
    requires !HasId(Locations(b), freshId, LocationId)
    ensures Locations(DeleteLocation(AddLocation(b, freshId), freshId, true)) == Locations(b)
  {
    var added := Location(freshId, "New Location", "Description...");
    assert Locations(AddLocation(b, freshId)) == Locations(b) + [added];
    RemoveWhereAppend(Locations(b), added, freshId, LocationId);
    RemoveWhereAbsent(Locations(b), freshId, LocationId);
  }

  datatype LocationEdit =
    | SetLocationId(id: string)
    | SetLocationName(name: string)
    | SetLocationDescription(description: string)

  function ApplyLocationEdit(l: Location, e: LocationEdit): Location {
    match e
    case SetLocationId(v) => l.(id := v)
    case SetLocationName(v) => l.(name := v)
    case SetLocationDescription(v) => l.(description := v)
  }

  /** updateLocation: every location with the id gets the edit; the others,
      the length and order of the list, the characters and the summary stay. */
  function UpdateLocation(b: Bible, id: string, e: LocationEdit): (r: Bible)
    ensures |Locations(r)| == |Locations(b)|
    ensures forall i :: 0 <= i < |Locations(b)| ==>
      (Locations(r)[i] == if Locations(b)[i].id == id then ApplyLocationEdit(Locations(b)[i], e) else Locations(b)[i])
    ensures r.characters == b.characters && r.summary == b.summary
  {
    b.(locations := Some(UpdateWhere(Locations(b), id, LocationId, l => ApplyLocationEdit(l, e))))
  }

  /** An id nobody has leaves the lists as they were (a missing list becomes
      an empty one). */
  lemma EditsOfAbsentIds(b: Bible, id: string, ce: CharacterEdit, le: LocationEdit)
    requires !HasId(Characters(b), id, CharacterId) && !HasId(Locations(b), id, LocationId)
    ensures Characters(UpdateCharacter(b, id, ce)) == Characters(b)
    ensures Locations(UpdateLocation(b, id, le)) == Locations(b)
    ensures Characters(DeleteCharacter(b, id, true)) == Characters(b)
    ensures Locations(DeleteLocation(b, id, true)) == Locations(b)
  {
    UpdateWhereAbsent(Characters(b), id, CharacterId, c => ApplyCharacterEdit(c, ce));
    UpdateWhereAbsent(Locations(b), id, LocationId, l => ApplyLocationEdit(l, le));
    RemoveWhereAbsent(Characters(b), id, CharacterId);
    RemoveWhereAbsent(Locations(b), id, LocationId);
  }
}
