/** `generateRallyHTML`: the page as a static HTML document, one fragment per block in
    list order between a fixed head and a fixed tail. Field values are interpolated as
    they are, without HTML escaping. */
module Exporter {
  import opened Wrappers
  import opened Catalog

  /** Everything the template literal emits before the first block fragment. */
  const Prefix: string :=
    "<!DOCTYPE html>\n"
    + "  <html>\n"
    + "  <head>\n"
    + "    <meta charset=\"utf-8\">\n"
    + "    <meta name=\"viewport\" content=\"width=device-width, initial-scale=1\">\n"
    + "    <title>Rally Page</title>\n"
    + "    <style>\n"
    + "      body { font-family: sans-serif; margin: 0; padding: 0; line-height: 1.6; }\n"
    + "      .container { max-width: 800px; margin: 0 auto; padding: 20px; }\n"
    + "      .header { text-align: center; padding: 40px 0; }\n"
    + "      .content { margin: 20px 0; }\n"
    + "      .image-placeholder { background: #f3f4f6; padding: 60px; text-align: center; color: #6b7280; }\n"
    + "      .form { background: #f9fafb; padding: 30px; border-radius: 8px; }\n"
    + "      .button { background: #22c55e; color: white; padding: 12px 24px; border: none; border-radius: 6px; cursor: pointer; }\n"
    + "    </style>\n"
    + "  </head>\n"
    + "  <body>\n"
    + "    <div class=\"container\">\n"
    + "      "

  /** Everything the template literal emits after the last block fragment. */
  const Suffix: string := "\n    </div>\n  </body>\n  </html>"

  const HeaderOpen: string := "<div class=\"header\"><h1>"
  const HeaderClose: string := "</h1></div>"
  const TextOpen: string := "<div class=\"content\"><p>"
  const TextClose: string := "</p></div>"
  const ImageHtml: string := "<div class=\"image-placeholder\">Image Placeholder</div>"
  const FormHtml: string :=
    "<div class=\"form\"><h3>Sign Up Form</h3><input type=\"email\" placeholder=\"Email address\">"
    + "<button class=\"button\">Subscribe</button></div>"
  const DividerHtml: string := "<hr style=\"margin: 30px 0; border: none; border-top: 1px solid #e5e7eb;\">"

  /** `items.join(',')`, which is how JavaScript turns an array into a string. */
  function JoinComma(items: seq<string>): string {
    if |items| == 0 then ""
    else if |items| == 1 then items[0]
    else items[0] + "," + JoinComma(items[1..])
  }

  /** `${comp[key]}`: a missing field prints as `undefined`, a string as itself. */
  function Interpolate(f: Fields, key: string): (r: string)
    ensures key !in f ==> r == "undefined"
    ensures key in f && f[key].Str? ==> r == f[key].s
    ensures key in f && f[key] == Arr([]) ==> r == ""
  {
    if key !in f then "undefined"
    else match f[key]
      case Str(s) => s
      case Arr(items) => JoinComma(items)
  }

  /** The per-block template; a block of an unrecognised type contributes nothing. */
  function Fragment(b: Block): (r: string)
    ensures r == "" <==> !IsKnown(b.kind)
  {
    KnownKinds(b.kind);
    if b.kind == "header" then HeaderOpen + Interpolate(b.fields, "text") + HeaderClose
    else if b.kind == "text" then TextOpen + Interpolate(b.fields, "content") + TextClose
    else if b.kind == "image" then ImageHtml
    else if b.kind == "form" then FormHtml
    else if b.kind == "divider" then DividerHtml
    else ""
  }

  /** `components.map(...).join('')`. */
  function Fragments(s: seq<Block>): (r: string)
    ensures r == "" <==> forall b :: b in s ==> !IsKnown(b.kind)
  {
    if |s| == 0 then ""
    else
      assert forall b :: b in s <==> b == s[0] || b in s[1..];
      Fragment(s[0]) + Fragments(s[1..])
  }

  /** The exported document for the list `s`: whatever the blocks, it opens with the
      fixed head and closes with the fixed tail. */
  function GenerateRallyHtml(s: seq<Block>): (r: string)
    ensures |r| >= |Prefix| + |Suffix|
    ensures r[..|Prefix|] == Prefix && r[|r| - |Suffix|..] == Suffix
  {
    Prefix + Fragments(s) + Suffix
  }

  /** Exporting two lists one after the other puts the first list's fragments first. */
  lemma {:induction false} FragmentsConcat(a: seq<Block>, b: seq<Block>)
    ensures Fragments(a + b) == Fragments(a) + Fragments(b)
  {
    if |a| == 0 {
      assert a + b == b;
    } else {
      assert (a + b)[0] == a[0] && (a + b)[1..] == a[1..] + b;
      FragmentsConcat(a[1..], b);
      var x, y, z := Fragment(a[0]), Fragments(a[1..]), Fragments(b);
      assert x + (y + z) == (x + y) + z;
    }
  }

  /** An empty page exports to the head and the tail alone. */
  lemma ExportEmpty()
    ensures GenerateRallyHtml([]) == Prefix + Suffix
  {
    assert Fragments([]) == "";
    assert Prefix + "" == Prefix;
  }

  /** A block dropped at the end of the page adds its fragment right before the tail. */
  lemma ExportAppend(s: seq<Block>, b: Block)
    ensures GenerateRallyHtml(s + [b]) == Prefix + (Fragments(s) + Fragment(b)) + Suffix
  {
    FragmentsConcat(s, [b]);
    assert [b][1..] == [];
    assert Fragments([b]) == Fragment(b) + "" == Fragment(b);
  }

  /** Blocks of types the palette does not offer leave no trace in the export. */
  lemma {:induction false} UnknownSkipped(s: seq<Block>)
    requires forall b :: b in s ==> !IsKnown(b.kind)
    ensures GenerateRallyHtml(s) == Prefix + Suffix
    ensures Fragments(s) == ""
  {
    if |s| > 0 {
      assert s[0] in s;
      UnknownSkipped(s[1..]);
    }
  }

  /** The header text and the paragraph content appear in the export verbatim, between
      fixed markup: nothing is escaped. */
  lemma InterpolatedVerbatim(b: Block, t: string)
    requires b.kind == "header" || b.kind == "text"
    requires (if b.kind == "header" then "text" else "content") in b.fields
    requires b.fields[if b.kind == "header" then "text" else "content"] == Str(t)
    ensures Fragment(b) == if b.kind == "header" then HeaderOpen + t + HeaderClose
      else TextOpen + t + TextClose
  {
  }

  /** On a page whose blocks all have palette types, the fragments are empty exactly
      when the page is. */
  lemma KnownFragments(s: seq<Block>)
    requires forall b :: b in s ==> IsKnown(b.kind)
    ensures Fragments(s) == "" <==> s == []
  {
    if s != [] {
      assert s[0] in s;
    }
  }

  /** Image, form and divider fragments ignore the block's id and fields. */
  lemma FixedFragments(b: Block, c: Block)
    requires b.kind == c.kind && b.kind in {"image", "form", "divider"}
    ensures Fragment(b) == Fragment(c)
  {
  }
}
