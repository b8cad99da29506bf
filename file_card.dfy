/**
 * `FileCard`: one document shown as a card. The card draws an icon chosen
 * from the file's MIME major type and a caption that is truncated unless
 * the card is selected.
 */
module FileCard {
  import opened Wrappers
  import Strings
  import FileIcon

  /** Captions of this many characters or more are truncated. */
  const TruncateFrom: nat := 10
  /** A truncated caption keeps this many leading characters. */
  const KeptPrefix: nat := 7
  const Ellipsis: string := "..."

  /** `Boolean(title)`: a title is used only when it is present and non-empty. */
  predicate TitleIsTruthy(title: Option<string>)
  {
    title.Some? && title.value != ""
  }

  /** The text the caption is drawn from: the truthy title, else the file's name. */
  function CaptionSource(title: Option<string>, fileName: string): (s: string)
    ensures TitleIsTruthy(title) ==> s == title.value
    ensures !TitleIsTruthy(title) ==> s == fileName
  {
    if TitleIsTruthy(title) then title.value else fileName
  }

  /**
   * The caption expression, with its two symmetric arms for the title and
   * for the file name. The card always has a file when no truthy title is
   * given, so `fileName` is the name of that file.
   */
  function Caption(title: Option<string>, fileName: string, selected: bool): (r: string)
    ensures var s := CaptionSource(title, fileName);
      if |s| < TruncateFrom || selected then r == s
      else r == s[..KeptPrefix] + Ellipsis
  {
    if TitleIsTruthy(title) then
      if |title.value| < 10 then title.value
      else if selected then title.value
      else title.value[..7] + "..."
    else
      if |fileName| < 10 then fileName
      else if selected then fileName
      else fileName[..7] + "..."
  }

  /** An unselected caption never exceeds ten characters, and no caption is longer than its source. */
  lemma CaptionLength(title: Option<string>, fileName: string, selected: bool)
    ensures !selected ==> |Caption(title, fileName, selected)| <= TruncateFrom
    ensures |Caption(title, fileName, selected)| <= |CaptionSource(title, fileName)|
  {
  }

  /** A caption always begins with the first characters of its source. */
  lemma CaptionKeepsPrefix(title: Option<string>, fileName: string, selected: bool)
    ensures var s := CaptionSource(title, fileName);
      var r := Caption(title, fileName, selected);
      |s| >= KeptPrefix ==> |r| >= KeptPrefix && r[..KeptPrefix] == s[..KeptPrefix]
  {
  }

  /** "invoice.pdf" is shown as "invoice..." until its card is selected. */
  lemma InvoiceCaption()
    ensures Caption(None, "invoice.pdf", false) == "invoice..."
    ensures Caption(None, "invoice.pdf", true) == "invoice.pdf"
  {
  }

  /** `fileType.split('/')[0]`: the MIME major type. */
  function MajorType(fileType: string): (r: string)
    ensures r <= fileType
    ensures '/' !in r
    ensures |r| < |fileType| ==> fileType[|r|] == '/'
  {
    Strings.FirstPiece(fileType, '/');
    Strings.Split(fileType, '/')[0]
  }

  /** The major type of "type/subtype" is "type", whatever the subtype. */
  lemma MajorTypeOfMime(major: string, subtype: string)
    requires '/' !in major
    ensures MajorType(major + "/" + subtype) == major
  {
    Strings.SplitFront(major, '/', subtype);
  }

  /** `disabled || uploadingMode`: the click area ignores clicks in either case. */
  predicate ClickDisabled(disabled: bool, uploadingMode: bool)
  {
    disabled || uploadingMode
  }

  /**
   * What the click area shows: a progress indicator (`None`) while
   * uploading, otherwise the large icon for the file's major type.
   */
  function CardIcon(uploadingMode: bool, fileType: string): (r: Option<FileIcon.Icon>)
    ensures uploadingMode <==> r.None?
    ensures r.Some? ==> r.value == FileIcon.GetFileIcon(Some(MajorType(fileType)), Some("large"))
    ensures r.Some? ==> r.value.fontSize == "large" && r.value.color == "primary"
  {
    if uploadingMode then None
    else Some(FileIcon.GetFileIcon(Some(MajorType(fileType)), Some("large")))
  }

  /** A card in uploading mode is disabled and shows no file icon. */
  lemma UploadingCardIsInert(disabled: bool, fileType: string)
    ensures ClickDisabled(disabled, true) && CardIcon(true, fileType).None?
    ensures !ClickDisabled(false, false)
  {
  }
}
