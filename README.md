# Rally-page builder: document model and HTML export

This project models the core of the Grassroots Toolkit's rally-page builder, the
`RallyGenerator` component. The page is an ordered list of typed blocks: header, text,
image, form and divider. Blocks come from a fixed five-entry palette of defaults. Drag
and drop changes the list, and the list is exported as a static HTML document.

- `Catalog` (catalog.dfy): the block value, the palette (`componentTypes`) and its lookup
  by type tag.
- `Document` (document.dfy): the new list values the handlers build, as pure functions
  over `seq<Block>`. These are append, filter-by-id, find-by-id, the filter/slice/insert
  move, and the map-and-merge update. Lemmas state the positional behaviour.
- `Exporter` (exporter.dfy): `generateRallyHTML` as a fixed head, one fragment per block
  in list order, and a fixed tail.
- `Builder` (builder.dfy): the component's five state variables as the fields of the
  class `RallyGenerator`. Its event handlers are methods that overwrite those fields.
  `Valid()` says block ids are unique and every block has a palette type. Each method
  that changes the list keeps `Valid()` and ties the new list to the `Document`
  function. The other methods change only the flag or index that their `modifies`
  clause names.
- `Wrappers` (wrappers.dfy): `Option` and `Result`.

A block is `Block(id, kind, fields)`, where `fields` maps field names to values. This
mirrors the JavaScript object `{ id, type, ...fields }`, so the update `{ ...comp,
...updates }` is a map union on `fields`. Interpolating a field into the HTML follows
JavaScript's `${...}`: a missing field prints as `undefined`, a string as itself, and an
array as its comma-joined items. Nothing is HTML-escaped, because the source escapes
nothing.

In these cases the source behaves as follows, and the model keeps that behaviour:
- The export does not escape header text or paragraph content (`InterpolatedVerbatim`).
- When the dragged id is not on the page, a move inserts `undefined` instead of failing
  or doing nothing (`MoveMissing`).
- Removing or updating an absent id is a silent no-op.
- Selecting a block for editing does not check that the id exists.
- Removing the block being edited does not clear the selection.
- A drop of an unknown type fails because the palette lookup yields `undefined` and
  reading `.default` from it throws. The handler then stops before it sets the list, so
  the list is unchanged. `Appended` returns `Err(UnknownType(kind))` in that case.

## Model

| member | source | states |
|---|---|---|
| Catalog.Find | components/RallyGenerator.js:31 | the palette lookup returns the first entry with the requested type tag, and returns none exactly when no entry has that tag |
| Catalog.KnownKinds | components/RallyGenerator.js:13-19 | the palette has exactly the five tags header, text, image, form and divider, and each tag's lookup yields that type's own defaults |
| Document.Appended | components/RallyGenerator.js:25-34 | a canvas drop fails exactly when the type is not in the palette, and then reports that type; otherwise it yields the old list unchanged followed by one new block with the given id, the dropped type and that type's palette defaults |
| Document.AppendedDefaults | components/RallyGenerator.js:13-33 | each of the five types appends a block with its defaults: header {text: 'Page Header', size: 'xl'}, text {content: 'Add your text here...'}, image {src: '', alt: 'Image placeholder'}, form {fields: []}, divider {} |
| Document.Without | components/RallyGenerator.js:44 | the filtered list holds exactly the blocks of the old list whose id differs from the dropped id, and is never longer |
| Document.WithoutKeepsAll | components/RallyGenerator.js:40-47 | filtering keeps the list's length exactly when no block has the id, and then the list is unchanged |
| Document.WithoutConcat | components/RallyGenerator.js:44 | filtering works piecewise over concatenation, so kept blocks keep their relative order |
| Document.WithoutUnique | components/RallyGenerator.js:44 | removing blocks keeps ids unique |
| Document.FindById | components/RallyGenerator.js:72 | the lookup returns the first block of the list with the dragged id, and returns none exactly when no block has it |
| Document.Take | components/RallyGenerator.js:77 | `slice(0, d)` is the prefix of length min(d, n) |
| Document.Skip | components/RallyGenerator.js:79 | `slice(d)` is the rest of the list after `slice(0, d)`, so the two slices rebuild the list |
| Document.Moved | components/RallyGenerator.js:72-80 | the move yields a list of blocks exactly when some block has the dragged id, and otherwise a list with an `undefined` hole |
| Document.MoveOnce | components/RallyGenerator.js:72-80 | if the dragged id occurs once, in a list of length n, then the moved list has length n and the same multiset of blocks; the dragged block sits at min(d, n-1); the other blocks are in their old relative order |
| Document.MoveToOwnPosition | components/RallyGenerator.js:72-80 | dropping a block at the index it already occupies leaves the list unchanged |
| Document.SwapTwo | components/RallyGenerator.js:72-80 | with blocks [A, B], dragging A onto index 1 gives [B, A] |
| Document.MoveMissing | components/RallyGenerator.js:72-80 | if no block has the dragged id, the list is split at min(d, n) with `undefined` between the halves, so it grows by one instead of staying as it was |
| Document.MoveUnique | components/RallyGenerator.js:72-80 | moving a block keeps ids unique |
| Document.Merge | components/RallyGenerator.js:89 | the merged block keeps its id and type; each key of the update takes its new value; every other field keeps its old value; its field names are the union of both |
| Document.Updated | components/RallyGenerator.js:87-91 | the update keeps the length, order, ids and types; a block whose id differs is unchanged; a block whose id matches is merged with the update |
| Exporter.Fragment | components/RallyGenerator.js:140-146 | a block contributes the empty string exactly when its type is not in the palette |
| Exporter.FragmentsConcat | components/RallyGenerator.js:140-147 | the fragments of a ++ b are a's fragments followed by b's |
| Exporter.Interpolate | components/RallyGenerator.js:141-142 | a field interpolates as its string unchanged, a missing field as `undefined`, and an empty array as the empty string |
| Exporter.Fragments | components/RallyGenerator.js:140-147 | the joined fragments are empty exactly when no block has a palette type |
| Exporter.GenerateRallyHtml | components/RallyGenerator.js:120-151 | every export begins with the fixed document head and ends with the fixed tail |
| Exporter.ExportEmpty | components/RallyGenerator.js:122-150 | an empty page exports to the head followed directly by the tail |
| Exporter.ExportAppend | components/RallyGenerator.js:122-150 | a block at the end of the page adds its fragment after all earlier fragments and right before the tail |
| Exporter.UnknownSkipped | components/RallyGenerator.js:146 | a page made only of blocks of unrecognised types exports to the head and tail alone |
| Exporter.InterpolatedVerbatim | components/RallyGenerator.js:141-142 | header text and paragraph content appear verbatim, unescaped, between the fixed opening and closing markup |
| Exporter.KnownFragments | components/RallyGenerator.js:140-147 | on a page whose blocks all have palette types, the fragments are empty exactly when the page is |
| Exporter.FixedFragments | components/RallyGenerator.js:143-145 | image, form and divider fragments do not depend on the block's id or fields |
| Builder.RallyGenerator.constructor | components/RallyGenerator.js:7-11 | the state starts with an empty list, no active block, the trash not highlighted, no hovered index and the export menu closed |
| Builder.RallyGenerator.HandleCanvasDrop | components/RallyGenerator.js:25-34 | the list becomes the `Appended` list, or stays unchanged with an unknown-type error; ids stay unique |
| Builder.RallyGenerator.HandleTrashDrop | components/RallyGenerator.js:40-47 | with an id payload, the list becomes the filtered list; without one, it is unchanged; either way the trash highlight is cleared |
| Builder.RallyGenerator.HandleTrashDragOver | components/RallyGenerator.js:49-52 | the trash is highlighted and nothing else changes |
| Builder.RallyGenerator.HandleTrashDragLeave | components/RallyGenerator.js:54-57 | the trash highlight is cleared and nothing else changes |
| Builder.RallyGenerator.HandleComponentDragOver | components/RallyGenerator.js:63-66 | the hovered index becomes the block's index and nothing else changes |
| Builder.RallyGenerator.HandleComponentDrop | components/RallyGenerator.js:68-85 | with an id payload, the list becomes the moved list; without one, it is unchanged; the hovered index is cleared |
| Builder.RallyGenerator.UpdateComponent | components/RallyGenerator.js:87-91 | the list becomes the updated list and ids stay unique |
| Builder.RallyGenerator.SetActiveComponent | components/RallyGenerator.js:184 | the clicked block's id becomes the active one and nothing else changes |
| Builder.RallyGenerator.ToggleExportOptions | components/RallyGenerator.js:401 | the export button flips whether the format menu is open |
| Builder.RallyGenerator.HandleExport | components/RallyGenerator.js:93-108 | choosing 'pdf', 'html' or 'email' starts that export, where 'html' downloads the current page's export as rally-page.html; any other format does nothing; on a valid page the html export is the bare head and tail exactly when the page is empty; the menu is closed in every case |

## Left out

- Builder.RallyGenerator.HandleCanvasDrop: the new id is a parameter that must not already be on the page. The source reads the clock (`Date.now()`), which does not guarantee uniqueness.
- Builder.RallyGenerator.HandleComponentDrop: requires that the dragged id, when present, is on the page. When it is not, the source stores `undefined` in the list, which is not a block. That branch is modelled by `Document.Moved` and `Document.MoveMissing` only.
- Document.Merge: states the merge only for updates without an `id` or `type` key. In the source such a key would overwrite the block's id or type, but the model keeps both, because an id is a number here and an update value is a string or an array.
- Document.Updated: keeps every block's id and type, for the same reason as `Document.Merge`. The only caller, `UpdateComponent`, never passes those keys.
- Builder.RallyGenerator.UpdateComponent: requires that the update carries no `id` or `type` key. The editors only pass `text`, `size` or `content` (components/RallyGenerator.js:195, 200, 234).
- Builder.RallyGenerator.HandleExport: the side effects of the three formats (the alert, the Blob download, the `mailto:` navigation) are returned as an `ExportAction` value. The URI encoding of the mail subject and body is not modelled.
- Drag payloads (`dataTransfer.setData`/`getData`, `handleDragStart`, `handleComponentDragStart`, `handleDragOver`) are browser plumbing. The model passes the type tag as a string (empty when absent) and the block id as `Option<int>`. `parseInt` and its `NaN` case are not modelled.
- The drop event of a block bubbles up to the canvas's drop handler, which then throws on an empty type tag. Event propagation is not modelled.
- A new form block's `fields` array is the same array as the palette default of the render that created it, because the spread copies shallowly. Block values are immutable here, so this aliasing is not modelled.
- `renderComponent` and the JSX tree are presentation only.
- The `downloadHTML`, `shareViaEmail` and `exportAsPDF` bodies touch the DOM and `window`.
- components/EmailBuilder.js, app/page.js and app/layout.js are UI markup and are not part of this model.
- app/api/pages/route.js and app/api/templates/route.js are mock HTTP handlers with no logic, and are not part of this model.
