/**
 * `getFileIcon`: the icon shown for a file, chosen from the MIME major type
 * (the text before '/' of the MIME type).
 */
module FileIcon {
  import opened Wrappers

  /** The Material icons the switch can return. */
  datatype Glyph =
    | DescriptionOutlined
    | ImageOutlined
    | VideoCameraBackOutlined
    | AudioFileOutlined
    | TextFieldsOutlined
    | MessageOutlined
    | FolderOpenOutlined

  /** A rendered icon: which glyph, its `color` and its `fontSize`. */
  datatype Icon = Icon(glyph: Glyph, color: string, fontSize: string)

  /** The major types the switch names explicitly besides 'application'. */
  const ListedTypes: seq<string> := ["image", "video", "audio", "text", "message", "multipart"]

  /** The glyph chosen by the switch; `null`, `undefined` and unlisted types fall to `default`. */
  function GlyphOf(fileType: Option<string>): Glyph
  {
    match fileType
    case None => DescriptionOutlined
    case Some(t) =>
      if t == "application" then DescriptionOutlined
      else if t == "image" then ImageOutlined
      else if t == "video" then VideoCameraBackOutlined
      else if t == "audio" then AudioFileOutlined
      else if t == "text" then TextFieldsOutlined
      else if t == "message" then MessageOutlined
      else if t == "multipart" then FolderOpenOutlined
      else DescriptionOutlined
  }

  /**
   * `getFileIcon(fileType, size = "medium")`. `size` is `None` when the
   * caller omits the argument. Every case returns an icon: the function is total.
   */
  function GetFileIcon(fileType: Option<string>, size: Option<string>): (r: Icon)
    ensures r.color == "primary"
    ensures size.Some? ==> r.fontSize == size.value
    ensures size.None? ==> r.fontSize == "medium"
    ensures fileType.None? ==> r.glyph == DescriptionOutlined
    ensures fileType.Some? && fileType.value !in ListedTypes ==> r.glyph == DescriptionOutlined
    ensures fileType.Some? && fileType.value in ListedTypes ==> r.glyph != DescriptionOutlined
  {
    Icon(GlyphOf(fileType), "primary", if size.Some? then size.value else "medium")
  }

  /** 'application' and every unlisted value share the document icon. */
  lemma ApplicationSharesDefault(t: string)
    requires t !in ListedTypes
    ensures GetFileIcon(Some(t), None).glyph == GetFileIcon(Some("application"), None).glyph
    ensures GetFileIcon(Some(t), None).glyph == GetFileIcon(None, None).glyph
  {
  }

  /** The six listed major types map to six different icons. */
  lemma ListedTypesDistinct(i: nat, j: nat)
    requires i < |ListedTypes| && j < |ListedTypes| && i != j
    ensures GlyphOf(Some(ListedTypes[i])) != GlyphOf(Some(ListedTypes[j]))
  {
  }
}
