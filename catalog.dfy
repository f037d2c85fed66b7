/** The block types the rally-page builder offers, with the fields a new block of each
    type starts with (the `componentTypes` array of components/RallyGenerator.js). */
module Catalog {
  import opened Wrappers

  /** A field value: one of the string attributes, or the list of form fields. */
  datatype Value = Str(s: string) | Arr(items: seq<string>)

  /** The type-specific fields of a block, keyed by field name. */
  type Fields = map<string, Value>

  /** One block on the canvas: the JavaScript object `{ id, type, ...fields }`. */
  datatype Block = Block(id: int, kind: string, fields: Fields)

  /** One palette entry: its type tag, its label (`name`) and its default fields. */
  datatype ComponentType = ComponentType(kind: string, name: string, defaults: Fields)

  const HeaderDefaults: Fields := map["text" := Str("Page Header"), "size" := Str("xl")]
  const TextDefaults: Fields := map["content" := Str("Add your text here...")]
  const ImageDefaults: Fields := map["src" := Str(""), "alt" := Str("Image placeholder")]
  const FormDefaults: Fields := map["fields" := Arr([])]
  const DividerDefaults: Fields := map[]

  /** The palette, in display order. */
  const ComponentTypes: seq<ComponentType> := [
    ComponentType("header", "Header", HeaderDefaults),
    ComponentType("text", "Text Block", TextDefaults),
    ComponentType("image", "Image", ImageDefaults),
    ComponentType("form", "Form", FormDefaults),
    ComponentType("divider", "Divider", DividerDefaults)
  ]

  /** `types.find(c => c.type === kind)`: the first entry with that type tag, if any. */
  function Find(types: seq<ComponentType>, kind: string): (r: Option<ComponentType>)
    ensures r.Some? ==> r.value in types && r.value.kind == kind
    ensures r.Some? ==> exists i :: (0 <= i < |types| && types[i] == r.value &&
                                     forall j :: 0 <= j < i ==> types[j].kind != kind)
    ensures r.None? <==> forall t :: t in types ==> t.kind != kind
  {
    if |types| == 0 then None
    else if types[0].kind == kind then Some(types[0])
    else
      var r := Find(types[1..], kind);
      assert r.Some? ==> exists i :: (0 <= i < |types| && types[i] == r.value &&
                                      forall j :: 0 <= j < i ==> types[j].kind != kind) by {
        if r.Some? {
          var i :| 0 <= i < |types[1..]| && types[1..][i] == r.value &&
            forall j :: 0 <= j < i ==> types[1..][j].kind != kind;
          assert types[i + 1] == r.value;
          assert forall j :: 0 <= j < i + 1 ==> types[j].kind != kind by {
            forall j | 0 <= j < i + 1 ensures types[j].kind != kind {
              if j > 0 { assert types[j] == types[1..][j - 1]; }
            }
          }
        }
      }
      r
  }

  /** A type tag the palette offers. */
  predicate IsKnown(kind: string) {
    Find(ComponentTypes, kind).Some?
  }

  /** Exactly the five tags header, text, image, form and divider are in the palette,
      and each one's lookup yields its own defaults. */
  lemma {:induction false} KnownKinds(kind: string)
    ensures IsKnown(kind) <==> kind in {"header", "text", "image", "form", "divider"}
    ensures kind == "header" ==> Find(ComponentTypes, kind).value.defaults == HeaderDefaults
    ensures kind == "text" ==> Find(ComponentTypes, kind).value.defaults == TextDefaults
    ensures kind == "image" ==> Find(ComponentTypes, kind).value.defaults == ImageDefaults
    ensures kind == "form" ==> Find(ComponentTypes, kind).value.defaults == FormDefaults
    ensures kind == "divider" ==> Find(ComponentTypes, kind).value.defaults == DividerDefaults
  {
    PaletteLookup(kind);
  }

  /** The lookup walks the palette in order. */
  lemma PaletteLookup(kind: string)
    ensures Find(ComponentTypes, kind) ==
      if kind == "header" then Some(ComponentTypes[0])
      else if kind == "text" then Some(ComponentTypes[1])
      else if kind == "image" then Some(ComponentTypes[2])
      else if kind == "form" then Some(ComponentTypes[3])
      else if kind == "divider" then Some(ComponentTypes[4])
      else None
  {
    var c0 := ComponentTypes;
    var c1, c2, c3, c4 := c0[1..], c0[2..], c0[3..], c0[4..];
    assert c1 == c0[1..] && c2 == c1[1..] && c3 == c2[1..] && c4 == c3[1..] && c4[1..] == [];
    assert Find(c4, kind) == if kind == "divider" then Some(c4[0]) else None;
    assert Find(c3, kind) == if kind == "form" then Some(c3[0]) else Find(c4, kind);
    assert Find(c2, kind) == if kind == "image" then Some(c2[0]) else Find(c3, kind);
    assert Find(c1, kind) == if kind == "text" then Some(c1[0]) else Find(c2, kind);
  }
}
