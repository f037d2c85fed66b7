/** The `RallyGenerator` component's state and the event handlers that overwrite it: the
    block list, the block open for editing, the trash highlight, the hovered drop index
    and the export menu. */
module Builder {
  import opened Wrappers
  import opened Catalog
  import opened Document
  import opened Exporter

  const ExportFileName: string := "rally-page.html"
  const EmailSubject: string := "Check out my rally page"
  const EmailBody: string := "I created a rally page using the Grassroots Toolkit!"

  /** What choosing an export format hands to the browser. */
  datatype ExportAction =
    | PdfNotice                                      // an alert that PDF export is not built
    | DownloadHtml(html: string, filename: string)   // a file download of the exported page
    | MailTo(subject: string, body: string)          // a `mailto:` link
    | NoAction                                       // an unrecognised format

  class RallyGenerator {
    var components: seq<Block>
    var activeComponent: Option<int>
    var draggingOverTrash: bool
    var dragOverIndex: Option<nat>
    var showExportOptions: bool

    /** Block ids are unique and every block has a palette type. HandleComponentDrop
        relies on the first, HandleExport on the second. */
    ghost predicate Valid()
      reads this
    {
      UniqueIds(components) && forall b :: b in components ==> IsKnown(b.kind)
    }

    /** The initial `useState` values. */
    constructor ()
      ensures Valid()
      ensures components == [] && activeComponent == None && !draggingOverTrash
      ensures dragOverIndex == None && !showExportOptions
    {
      components := [];
      activeComponent := None;
      draggingOverTrash := false;
      dragOverIndex := None;
      showExportOptions := false;
    }

    /** `handleCanvasDrop`: a palette entry of type `kind` dropped on the canvas appends a
        block with id `freshId` and that type's defaults; an unknown type makes the lookup
        throw and leaves the list as it was. */
    method HandleCanvasDrop(kind: string, freshId: int) returns (error: Option<Error>)
      requires Valid() && !HasId(components, freshId)
      modifies this`components
      ensures Valid()
      ensures error.None? <==> IsKnown(kind)
      ensures error.None? ==> Appended(old(components), kind, freshId) == Ok(components)
      ensures error.Some? ==> error.value == UnknownType(kind) && components == old(components)
    {
      var r := Appended(components, kind, freshId);
      if r.Ok? {
        var s := r.value;
        assert s[..|components|] == components;
        forall i, j | 0 <= i < j < |s| ensures s[i].id != s[j].id {
          if j == |components| {
            assert s[i] == components[i] && components[i] in components;
          } else {
            assert s[i] == components[i] && s[j] == components[j];
          }
        }
        forall b | b in s ensures IsKnown(b.kind) {
          var i :| 0 <= i < |s| && s[i] == b;
          if i < |components| {
            assert b == components[i] && components[i] in components;
          }
        }
        components := s;
        error := None;
      } else {
        error := Some(r.error);
      }
    }

    /** `handleTrashDrop`: a dragged block id removes every block with that id; without an
        id payload the list stays. Either way the trash is no longer highlighted. */
    method HandleTrashDrop(payload: Option<int>)
      requires Valid()
      modifies this`components, this`draggingOverTrash
      ensures Valid()
      ensures payload.Some? ==> components == Without(old(components), payload.value)
      ensures payload.None? ==> components == old(components)
      ensures !draggingOverTrash
    {
      if payload.Some? {
        WithoutUnique(components, payload.value);
        components := Without(components, payload.value);
      }
      draggingOverTrash := false;
    }

    /** `handleTrashDragOver`: highlights the trash. */
    method HandleTrashDragOver()
      modifies this`draggingOverTrash
      ensures draggingOverTrash
    {
      draggingOverTrash := true;
    }

    /** `handleTrashDragLeave`: clears the trash highlight. */
    method HandleTrashDragLeave()
      modifies this`draggingOverTrash
      ensures !draggingOverTrash
    {
      draggingOverTrash := false;
    }

    /** `handleComponentDragOver`: marks the block at `index` as the drop target. */
    method HandleComponentDragOver(index: nat)
      modifies this`dragOverIndex
      ensures dragOverIndex == Some(index)
    {
      dragOverIndex := Some(index);
    }

    /** `handleComponentDrop`: a dragged block dropped on the block at `dropIndex` moves
        there; without an id payload the list stays. The drop target is cleared. */
    method HandleComponentDrop(payload: Option<int>, dropIndex: nat)
      requires Valid()
      requires payload.Some? ==> HasId(components, payload.value)
      modifies this`components, this`dragOverIndex
      ensures Valid()
      ensures payload.Some? ==> Moved(old(components), payload.value, dropIndex) == Reordered(components)
      ensures payload.None? ==> components == old(components)
      ensures dragOverIndex == None
    {
      if payload.Some? {
        var k := payload.value;
        var b :| b in components && b.id == k;
        var p :| 0 <= p < |components| && components[p] == b;
        MoveUnique(components, k, p, dropIndex);
        MoveOnce(components, k, p, dropIndex);
        var t := Moved(components, k, dropIndex).blocks;
        forall x | x in t ensures IsKnown(x.kind) {
          assert x in multiset(t);
        }
        components := t;
      }
      dragOverIndex := None;
    }

    /** `updateComponent`: merges `updates` into every block with id `id`. The editors
        only ever pass `text`, `size` or `content`, never `id` or `type`. */
    method UpdateComponent(id: int, updates: Fields)
      requires Valid() && "id" !in updates && "type" !in updates
      modifies this`components
      ensures Valid()
      ensures components == Updated(old(components), id, updates)
    {
      var s := Updated(components, id, updates);
      forall x | x in s ensures IsKnown(x.kind) {
        var i :| 0 <= i < |s| && s[i] == x;
        assert components[i] in components;
      }
      components := s;
    }

    /** A click on a block opens it for editing. */
    method SetActiveComponent(id: int)
      modifies this`activeComponent
      ensures activeComponent == Some(id)
    {
      activeComponent := Some(id);
    }

    /** The export button opens or closes the format menu. */
    method ToggleExportOptions()
      modifies this`showExportOptions
      ensures showExportOptions == !old(showExportOptions)
    {
      showExportOptions := !showExportOptions;
    }

    /** `handleExport`: starts the chosen export and closes the menu, whatever the format. */
    method HandleExport(format: string) returns (action: ExportAction)
      modifies this`showExportOptions
      ensures !showExportOptions
      ensures format == "pdf" ==> action == PdfNotice
      ensures format == "html" ==> action == DownloadHtml(GenerateRallyHtml(components), ExportFileName)
      ensures format == "html" && Valid() ==> (action.html == Prefix + Suffix <==> components == [])
      ensures format == "email" ==> action == MailTo(EmailSubject, EmailBody)
      ensures format !in {"pdf", "html", "email"} ==> action == NoAction
    {
      if format == "pdf" {
        action := PdfNotice;
      } else if format == "html" {
        action := DownloadHtml(GenerateRallyHtml(components), ExportFileName);
        if Valid() {
          KnownFragments(components);
          assert |action.html| == |Prefix| + |Fragments(components)| + |Suffix|;
        }
      } else if format == "email" {
        action := MailTo(EmailSubject, EmailBody);
      } else {
        action := NoAction;
      }
      showExportOptions := false;
    }
  }
}
