/** getFileIcon of components/GalleryScreen/FileGridItem.js: the icon shown
    for a file in the Files tab, chosen from the lower-cased text after the
    file name's last '.'. Every icon is drawn at size 36. */
module FileGridItem {
  import opened Text

  datatype Glyph = FileText | FileSpreadsheet | FilePresentation | FileArchive | FileImage | FileVideo | GenericFile

  datatype Icon = Icon(glyph: Glyph, color: string)

  const PDF_ICON: Icon := Icon(FileText, "#D93025")
  const WORD_ICON: Icon := Icon(FileText, "#4285F4")
  const SHEET_ICON: Icon := Icon(FileSpreadsheet, "#0F9D58")
  const SLIDES_ICON: Icon := Icon(FilePresentation, "#F4B400")
  const ARCHIVE_ICON: Icon := Icon(FileArchive, "#5f6368")
  const IMAGE_ICON: Icon := Icon(FileImage, "#8A2BE2")
  const VIDEO_ICON: Icon := Icon(FileVideo, "#FF69B4")
  const GENERIC_ICON: Icon := Icon(GenericFile, "#808080")

  /** The extensions the switch names, one set per icon. */
  const WORD_EXTENSIONS: set<string> := {"doc", "docx", "odt"}
  const SHEET_EXTENSIONS: set<string> := {"xls", "xlsx", "ods", "csv"}
  const SLIDES_EXTENSIONS: set<string> := {"ppt", "pptx", "odp"}
  const ARCHIVE_EXTENSIONS: set<string> := {"zip", "rar", "7z"}
  const IMAGE_EXTENSIONS: set<string> := {"jpg", "jpeg", "png", "gif"}
  const VIDEO_EXTENSIONS: set<string> := {"mp4", "mov", "avi"}

  function KnownExtensions(): set<string> {
    {"pdf"} + WORD_EXTENSIONS + SHEET_EXTENSIONS + SLIDES_EXTENSIONS
      + ARCHIVE_EXTENSIONS + IMAGE_EXTENSIONS + VIDEO_EXTENSIONS
  }

  /** The switch on the (already lower-cased) extension. */
  function IconForExtension(ext: string): (icon: Icon)
    ensures icon == GENERIC_ICON <==> ext !in KnownExtensions()
    ensures icon.glyph == FileText <==> ext == "pdf" || ext in WORD_EXTENSIONS
    ensures icon.glyph == FileImage <==> ext in IMAGE_EXTENSIONS
    ensures icon.glyph == FileVideo <==> ext in VIDEO_EXTENSIONS
  {
    if ext == "pdf" then PDF_ICON
    else if ext in WORD_EXTENSIONS then WORD_ICON
    else if ext in SHEET_EXTENSIONS then SHEET_ICON
    else if ext in SLIDES_EXTENSIONS then SLIDES_ICON
    else if ext in ARCHIVE_EXTENSIONS then ARCHIVE_ICON
    else if ext in IMAGE_EXTENSIONS then IMAGE_ICON
    else if ext in VIDEO_EXTENSIONS then VIDEO_ICON
    else GENERIC_ICON
  }

  function GetFileIcon(fileName: string): Icon {
    IconForExtension(Lower(LastSegment(fileName)))
  }

  /** The choice ignores letter case: a name and its lower-cased form get the
      same icon. */
  lemma GetFileIconCaseInsensitive(fileName: string)
    ensures GetFileIcon(Lower(fileName)) == GetFileIcon(fileName)
  {
    LastSegmentLower(fileName);
    LowerIdempotent(LastSegment(fileName));
  }

  /** A name ending in `.ext` is classified by `ext` alone, whatever
      precedes the last '.' and whatever the case of `ext`. */
  lemma GetFileIconOfExtension(stem: string, ext: string)
    requires '.' !in ext
    ensures GetFileIcon(stem + "." + ext) == IconForExtension(Lower(ext))
  {
    LastSegmentOfDotted(stem, ext);
  }

  /** pdf is the red text icon, distinct from the blue text icon that
      doc, docx and odt get. */
  lemma TextIcons()
    ensures IconForExtension("pdf") == PDF_ICON
    ensures PDF_ICON != WORD_ICON && PDF_ICON.glyph == WORD_ICON.glyph
    ensures forall e :: e in WORD_EXTENSIONS ==> IconForExtension(e) == WORD_ICON
  {
  }

  /** xls, xlsx, ods and csv get the spreadsheet icon; ppt, pptx and odp the
      presentation icon. */
  lemma OfficeIcons()
    ensures forall e :: e in SHEET_EXTENSIONS ==> IconForExtension(e) == SHEET_ICON
    ensures forall e :: e in SLIDES_EXTENSIONS ==> IconForExtension(e) == SLIDES_ICON
  {
  }

  /** zip, rar and 7z get the archive icon. */
  lemma ArchiveIcons()
    ensures forall e :: e in ARCHIVE_EXTENSIONS ==> IconForExtension(e) == ARCHIVE_ICON
  {
  }

  /** jpg, jpeg, png and gif get the image icon. */
  lemma ImageIcons()
    ensures forall e :: e in IMAGE_EXTENSIONS ==> IconForExtension(e) == IMAGE_ICON
  {
  }

  /** mp4, mov and avi get the video icon. */
  lemma VideoIcons()
    ensures forall e :: e in VIDEO_EXTENSIONS ==> IconForExtension(e) == VIDEO_ICON
  {
  }
}
