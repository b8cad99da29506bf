/**
 * `FileContainer`: the attachment list of a page. It keeps the documents of
 * one parent record, sorts them in place by name, date or size, tracks the
 * single selected document in grid view and in row view, switches between
 * the two views and buffers the file chosen for upload.
 */
module FileContainer {
  import opened Wrappers

  /**
   * A document record as the list receives it. `createdAt` is the creation
   * time in milliseconds, what `new Date(createdAt).getTime()` yields.
   */
  datatype Document = Document(
    id: int,
    name: string,
    createdAt: int,
    fileSize: int,
    fileType: string,
    description: string)

  /** The two values of the view toggle, 'grid' and 'row'. */
  datatype View = Grid | Row

  /** The comparator a sort value selects. */
  datatype SortKey = ByName | ByDate | BySize

  /** A file picked in the browser's file chooser. */
  datatype ChosenFile = ChosenFile(name: string, size: int)

  /** The `switch (newSort)`: 'date' and 'size' name their comparators; 'name' and anything else compare names. */
  function KeyOf(sort: string): (k: SortKey)
    ensures k == ByDate <==> sort == "date"
    ensures k == BySize <==> sort == "size"
    ensures k == ByName <==> sort != "date" && sort != "size"
  {
    if sort == "name" then ByName
    else if sort == "date" then ByDate
    else if sort == "size" then BySize
    else ByName
  }

  /**
   * `localeCompare` is given by the runtime's collation; the model takes it
   * as `localeLe(s, t)`, standing for `s.localeCompare(t) <= 0`, and relies
   * only on its being a total preorder.
   */
  ghost predicate TotalPreorder(le: (string, string) -> bool)
  {
    && (forall s, t :: le(s, t) || le(t, s))
    && (forall s, t, u :: le(s, t) && le(t, u) ==> le(s, u))
  }

  /** The comparator of `key` returns a value `<= 0` for `x` and `y`: `x` may stay before `y`. */
  predicate Precedes(localeLe: (string, string) -> bool, key: SortKey, x: Document, y: Document)
  {
    match key
    case ByName => localeLe(x.name, y.name)
    case ByDate => x.createdAt <= y.createdAt
    case BySize => x.fileSize <= y.fileSize
  }

  lemma PrecedesTotal(localeLe: (string, string) -> bool, key: SortKey, x: Document, y: Document)
    requires TotalPreorder(localeLe)
    ensures Precedes(localeLe, key, x, y) || Precedes(localeLe, key, y, x)
  {
  }

  lemma PrecedesTransitive(localeLe: (string, string) -> bool, key: SortKey, x: Document, y: Document, z: Document)
    requires TotalPreorder(localeLe)
    requires Precedes(localeLe, key, x, y) && Precedes(localeLe, key, y, z)
    ensures Precedes(localeLe, key, x, z)
  {
  }

  /** Every document precedes every later one under `key`. */
  predicate SortedBy(localeLe: (string, string) -> bool, key: SortKey, s: seq<Document>)
  {
    forall p, q :: 0 <= p < q < |s| ==> Precedes(localeLe, key, s[p], s[q])
  }

  /** Neighbours in an ordered sequence are in order. */
  lemma SortedAdjacent(localeLe: (string, string) -> bool, key: SortKey, s: seq<Document>, t: seq<Document>, j: nat)
    requires SortedBy(localeLe, key, t) && s == t && 0 < j < |s|
    ensures Precedes(localeLe, key, s[j - 1], s[j])
  {
  }

  /** Exchanges two adjacent slots. */
  method Swap(a: array<Document>, i: nat)
    requires i + 1 < a.Length
    modifies a
    ensures a[..] == old(a[..])[i := old(a[i + 1])][i + 1 := old(a[i])]
    ensures multiset(a[..]) == multiset(old(a[..]))
  {
    a[i], a[i + 1] := a[i + 1], a[i];
  }

  /**
   * One step of the sort: moves `a[i]` down past the larger documents before
   * it, so that the first `i + 1` slots are ordered. Equal documents are not
   * passed, which keeps the sort stable; a document already in place stays.
   */
  method InsertAt(a: array<Document>, i: nat, localeLe: (string, string) -> bool, key: SortKey)
    requires TotalPreorder(localeLe)
    requires i < a.Length
    requires forall p, q :: 0 <= p < q < i ==> Precedes(localeLe, key, a[p], a[q])
    modifies a
    ensures forall p, q :: 0 <= p < q <= i ==> Precedes(localeLe, key, a[p], a[q])
    ensures multiset(a[..]) == multiset(old(a[..]))
    ensures i == 0 || Precedes(localeLe, key, old(a[i - 1]), old(a[i])) ==> a[..] == old(a[..])
  {
    var j := i;
    while j > 0 && !Precedes(localeLe, key, a[j - 1], a[j])
      invariant 0 <= j <= i
      invariant forall p, q :: 0 <= p < q <= i && p != j && q != j ==> Precedes(localeLe, key, a[p], a[q])
      invariant forall q :: j < q <= i ==> Precedes(localeLe, key, a[j], a[q])
      invariant multiset(a[..]) == multiset(old(a[..]))
      invariant j == i ==> a[..] == old(a[..])
      invariant j < i ==> 0 < i && !Precedes(localeLe, key, old(a[i - 1]), old(a[i]))
    {
      PrecedesTotal(localeLe, key, a[j - 1], a[j]);
      Swap(a, j - 1);
      j := j - 1;
    }
    forall p | 0 <= p < j
      ensures Precedes(localeLe, key, a[p], a[j])
    {
      if p < j - 1 {
        PrecedesTransitive(localeLe, key, a[p], a[j - 1], a[j]);
      }
    }
  }

  /**
   * `files.sort(comparator)`: a stable sort of the array in place. The
   * result is ordered by `key`, holds the same documents, and an array that
   * is already ordered is left exactly as it was.
   */
  method SortInPlace(a: array<Document>, localeLe: (string, string) -> bool, key: SortKey)
    requires TotalPreorder(localeLe)
    modifies a
    ensures SortedBy(localeLe, key, a[..])
    ensures multiset(a[..]) == multiset(old(a[..]))
    ensures SortedBy(localeLe, key, old(a[..])) ==> a[..] == old(a[..])
  {
    ghost var orig := a[..];
    ghost var wasSorted := SortedBy(localeLe, key, orig);
    var i := 0;
    while i < a.Length
      invariant 0 <= i <= a.Length
      invariant forall p, q :: 0 <= p < q < i ==> Precedes(localeLe, key, a[p], a[q])
      invariant multiset(a[..]) == multiset(orig)
      invariant wasSorted ==> a[..] == orig
    {
      if wasSorted && i > 0 {
        SortedAdjacent(localeLe, key, a[..], orig, i);
      }
      InsertAt(a, i, localeLe, key);
      i := i + 1;
    }
  }

  /** `array.indexOf(x)`: the first position holding `x`, or -1. */
  function IndexOf(s: seq<Document>, x: Option<Document>): (r: int)
    ensures -1 <= r < |s|
    ensures r >= 0 ==> x == Some(s[r]) && forall k :: 0 <= k < r ==> x != Some(s[k])
    ensures r == -1 ==> forall k :: 0 <= k < |s| ==> x != Some(s[k])
  {
    if x.None? || s == [] then -1
    else if s[0] == x.value then 0
    else
      var k := IndexOf(s[1..], x);
      if k == -1 then -1 else k + 1
  }

  /**
   * `handleSelection(file)` in grid view. Its first statement (a `null`
   * file clears the selection) is overridden by the second, so the net
   * effect is: the file already selected is deselected, any other replaces it.
   */
  function CardToggle(selected: Option<Document>, file: Option<Document>): Option<Document>
  {
    if selected == file then None else file
  }

  /** Clicking the selected card deselects it; clicking another card selects that one. */
  lemma CardToggleLaws(selected: Option<Document>, d: Document)
    ensures CardToggle(Some(d), Some(d)) == None
    ensures selected != Some(d) ==> CardToggle(selected, Some(d)) == Some(d)
    ensures CardToggle(CardToggle(selected, Some(d)), Some(d)) == if selected == Some(d) then Some(d) else None
  {
  }

  /**
   * The row view's selection callback. `model` is the grid's new selection
   * model (row ids, which are row positions). Choosing the row of the
   * selected document clears the selection; otherwise the document at the
   * chosen position is selected, or nothing when there is no such row.
   */
  function RowToggle(rows: seq<Document>, selected: Option<Document>, model: seq<int>): (r: Option<Document>)
    ensures r.Some? ==> |model| > 0 && 0 <= model[0] < |rows| && r.value == rows[model[0]]
    ensures |model| > 0 && 0 <= model[0] < |rows| && selected != Some(rows[model[0]]) ==> r == Some(rows[model[0]])
    ensures |model| == 0 ==> r == None
  {
    if |model| > 0 && model[0] == IndexOf(rows, selected) then None
    else if |model| > 0 && 0 <= model[0] < |rows| then Some(rows[model[0]])
    else None
  }

  /** No document occurs twice in the list. */
  predicate Distinct(s: seq<Document>)
  {
    forall p, q :: 0 <= p < q < |s| ==> s[p] != s[q]
  }

  /**
   * Row view follows the grid rule: choosing row `k` has the effect of
   * clicking the card of the document at position `k`.
   */
  lemma RowToggleIsCardToggle(rows: seq<Document>, selected: Option<Document>, k: nat)
    requires Distinct(rows) && k < |rows|
    ensures RowToggle(rows, selected, [k]) == CardToggle(selected, Some(rows[k]))
  {
    var idx := IndexOf(rows, selected);
    if selected == Some(rows[k]) {
      assert idx == k;
    } else {
      assert idx != k;
    }
  }

  /** `selected={selectedFile?.id === file?.id}`: the flag a card is drawn with. */
  predicate CardShownSelected(selected: Option<Document>, file: Document)
  {
    selected.Some? && selected.value.id == file.id
  }

  /** With distinct ids, at most one card of the list is drawn as selected. */
  lemma AtMostOneCardShownSelected(files: seq<Document>, selected: Option<Document>, p: nat, q: nat)
    requires forall i, j :: 0 <= i < j < |files| ==> files[i].id != files[j].id
    requires p < |files| && q < |files|
    ensures CardShownSelected(selected, files[p]) && CardShownSelected(selected, files[q]) ==> p == q
  {
  }

  /**
   * One row of the row view's table. `size` is the byte count that the
   * table passes through `humanFileSize` for display.
   */
  datatype FileRow = FileRow(id: int, name: string, date: int, fileType: string, size: int, description: string)

  /**
   * `getRows(files)`: one row per document, in list order, with its
   * position as id. ChosenRowSelectsItsDocument relates a row's id back to
   * the document the row selection callback picks.
   */
  function GetRows(files: seq<Document>): (rows: seq<FileRow>)
    ensures |rows| == |files|
    ensures forall i :: 0 <= i < |rows| ==> rows[i].id == i
    ensures forall i :: 0 <= i < |rows| ==>
      rows[i] == FileRow(i, files[i].name, files[i].createdAt, files[i].fileType, files[i].fileSize, files[i].description)
  {
    seq(|files|, i requires 0 <= i < |files| =>
      FileRow(i, files[i].name, files[i].createdAt, files[i].fileType, files[i].fileSize, files[i].description))
  }

  /** Choosing a row by its id, with nothing selected, selects the document the row shows. */
  lemma ChosenRowSelectsItsDocument(files: seq<Document>, k: nat)
    requires k < |files|
    ensures RowToggle(files, None, [GetRows(files)[k].id]) == Some(files[k])
    ensures GetRows(files)[k].name == files[k].name
  {
  }

  /**
   * The attachment list's component state. `files` is the array the parent
   * page passes in; sorting rearranges that very array, which then becomes
   * `renderedFiles`.
   */
  class FileContainer {
    var files: array<Document>
    var renderedFiles: array<Document>
    var view: View
    var sort: string
    var selectedFile: Option<Document>
    var fileToUpload: seq<ChosenFile>
    var fileName: string
    var fileDescription: string
    var openAddDialog: bool
    var openUpdateDialog: bool

    /** Mounting: the initial state, then the mount effect `handleSort(null, "name")`. */
    constructor (files: array<Document>, localeLe: (string, string) -> bool)
      requires TotalPreorder(localeLe)
      modifies files
      ensures this.files == files && renderedFiles == files
      ensures SortedBy(localeLe, ByName, files[..])
      ensures multiset(files[..]) == multiset(old(files[..]))
      ensures view == Grid && sort == "name" && selectedFile == None
      ensures fileToUpload == [] && fileName == "" && fileDescription == ""
      ensures !openAddDialog && !openUpdateDialog
    {
      this.files := files;
      renderedFiles := files;
      view := Grid;
      sort := "name";
      selectedFile := None;
      fileToUpload := [];
      fileName := "";
      fileDescription := "";
      openAddDialog := false;
      openUpdateDialog := false;
      new;
      HandleSort(Some("name"), localeLe);
    }

    /**
     * `handleSort(event, newSort)`. The selection is cleared on every call.
     * A `null` value (the active toggle clicked again) changes nothing
     * else; any other value sorts `files` in place, renders that array and
     * records the value.
     */
    method HandleSort(newSort: Option<string>, localeLe: (string, string) -> bool)
      requires TotalPreorder(localeLe)
      modifies this, files
      ensures files == old(files) && selectedFile == None
      ensures multiset(files[..]) == multiset(old(files[..]))
      ensures newSort.None? ==> files[..] == old(files[..]) && renderedFiles == old(renderedFiles) && sort == old(sort)
      ensures newSort.Some? ==> sort == newSort.value && renderedFiles == files
      ensures newSort.Some? ==> SortedBy(localeLe, KeyOf(newSort.value), files[..])
      ensures newSort.Some? && SortedBy(localeLe, KeyOf(newSort.value), old(files[..])) ==> files[..] == old(files[..])
      ensures view == old(view) && fileToUpload == old(fileToUpload)
      ensures fileName == old(fileName) && fileDescription == old(fileDescription)
      ensures openAddDialog == old(openAddDialog) && openUpdateDialog == old(openUpdateDialog)
    {
      selectedFile := None;
      if newSort.Some? {
        SortInPlace(files, localeLe, KeyOf(newSort.value));
        renderedFiles := files;
        sort := newSort.value;
      }
    }

    /**
     * The parent passes a new `files` array: the `[files]` effect renders it
     * as given. It is not sorted, and the sort key and the selection are kept.
     */
    method ReceiveFiles(newFiles: array<Document>)
      modifies this`files, this`renderedFiles
      ensures files == newFiles && renderedFiles == newFiles
      ensures newFiles[..] == old(newFiles[..])
    {
      files := newFiles;
      renderedFiles := newFiles;
    }

    /** `handleSelection(file)`: a card was clicked in grid view. */
    method HandleSelection(file: Option<Document>)
      modifies this`selectedFile
      ensures selectedFile == CardToggle(old(selectedFile), file)
    {
      var current := selectedFile;
      if file.None? {
        selectedFile := None;
      }
      if current == file {
        selectedFile := None;
      } else {
        selectedFile := file;
      }
    }

    /** The row view's `onSelectionModelChange` callback. */
    method HandleRowSelection(model: seq<int>)
      modifies this`selectedFile
      ensures selectedFile == RowToggle(renderedFiles[..], old(selectedFile), model)
    {
      var current := IndexOf(renderedFiles[..], selectedFile);
      if |model| > 0 && model[0] == current {
        selectedFile := None;
        return;
      }
      if |model| > 0 && 0 <= model[0] < renderedFiles.Length {
        selectedFile := Some(renderedFiles[model[0]]);
      } else {
        selectedFile := None;
      }
    }

    /** `handleView(event, newView)`: `null` (the active toggle clicked again) keeps the view. */
    method HandleView(newView: Option<View>)
      modifies this`view
      ensures newView.Some? ==> view == newView.value
      ensures newView.None? ==> view == old(view)
    {
      if newView.Some? {
        view := newView.value;
      }
    }

    /** The add button: opens the upload dialog. */
    method HandleAddClick()
      modifies this`openAddDialog
      ensures openAddDialog
    {
      openAddDialog := true;
    }

    /**
     * The rename button: fills the form with the selected document's name
     * and description and opens the update dialog. With nothing selected,
     * reading the name throws before any state is set (`threw`); the button
     * is then hidden by its zoom transition.
     */
    method HandleRenameClick() returns (threw: bool)
      modifies this`fileName, this`fileDescription, this`openUpdateDialog
      ensures threw <==> selectedFile.None?
      ensures !threw ==>
        fileName == selectedFile.value.name && fileDescription == selectedFile.value.description && openUpdateDialog
      ensures threw ==>
        fileName == old(fileName) && fileDescription == old(fileDescription) && openUpdateDialog == old(openUpdateDialog)
    {
      if selectedFile.None? {
        return true;
      }
      fileName := selectedFile.value.name;
      fileDescription := selectedFile.value.description;
      openUpdateDialog := true;
      return false;
    }

    /**
     * `handleFileBuffer(event)`: buffers every chosen file and names the
     * upload after the first. With no file chosen, reading the first
     * file's name throws after the buffer was already set (`threw`).
     */
    method HandleFileBuffer(chosen: seq<ChosenFile>) returns (threw: bool)
      modifies this`fileToUpload, this`fileName
      ensures fileToUpload == chosen
      ensures threw <==> chosen == []
      ensures !threw ==> fileName == chosen[0].name
      ensures threw ==> fileName == old(fileName)
    {
      fileToUpload := chosen;
      if |chosen| == 0 {
        return true;
      }
      fileName := chosen[0].name;
      return false;
    }

    /** `handleDeleteBuffer()`: empties the buffered file, its name and its description. */
    method HandleDeleteBuffer()
      modifies this`fileToUpload, this`fileName, this`fileDescription
      ensures fileToUpload == [] && fileName == "" && fileDescription == ""
    {
      fileToUpload := [];
      fileName := "";
      fileDescription := "";
    }

    /** `handleClose()`: closes both dialogs and empties the upload buffer. */
    method HandleClose()
      modifies this`openAddDialog, this`openUpdateDialog, this`fileToUpload, this`fileName, this`fileDescription
      ensures !openAddDialog && !openUpdateDialog
      ensures fileToUpload == [] && fileName == "" && fileDescription == ""
    {
      openAddDialog := false;
      fileName := "";
      fileDescription := "";
      openUpdateDialog := false;
      HandleDeleteBuffer();
    }
  }
}
