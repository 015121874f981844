/** The logic inside components/GalleryScreen/GalleryScreen.js: the MIME
    lookup and document filter of the Files tab, the de-duplications, the
    thumbnail cache file name, the paging of cloud media and the selection
    handlers.

    The component's state is the class `GalleryState`; its methods are the
    handlers and loaders, with every platform call (camera roll, file
    system, HTTP) turned into a parameter holding its answer. */
module GalleryScreen {
  import opened Wrappers
  import opened Text
  import opened GalleryUtils
  import opened FileGridItem

  // ---------------------------------------------------------------------
  // MIME types
  // ---------------------------------------------------------------------

  const OCTET_STREAM: string := "application/octet-stream"

  /** The lookup table of getMimeType, keyed by lower-case extension. */
  const MIME_TYPES: map<string, string> := map[
    "pdf" := "application/pdf",
    "doc" := "application/msword",
    "docx" := "application/vnd.openxmlformats-officedocument.wordprocessingml.document",
    "xls" := "application/vnd.ms-excel",
    "xlsx" := "application/vnd.openxmlformats-officedocument.spreadsheetml.sheet",
    "ppt" := "application/vnd.ms-powerpoint",
    "pptx" := "application/vnd.openxmlformats-officedocument.presentationml.presentation",
    "txt" := "text/plain",
    "csv" := "text/csv",
    "rtf" := "application/rtf",
    "odt" := "application/vnd.oasis.opendocument.text",
    "ods" := "application/vnd.oasis.opendocument.spreadsheet",
    "odp" := "application/vnd.oasis.opendocument.presentation",
    "zip" := "application/zip",
    "rar" := "application/x-rar-compressed",
    "7z" := "application/x-7z-compressed",
    "jpg" := "image/jpeg",
    "jpeg" := "image/jpeg",
    "png" := "image/png",
    "gif" := "image/gif",
    "mp4" := "video/mp4",
    "mov" := "video/quicktime",
    "avi" := "video/x-msvideo"]

  function MimeForExtension(ext: string): (mime: string)
    ensures ext in MIME_TYPES ==> mime == MIME_TYPES[ext]
    ensures ext !in MIME_TYPES ==> mime == OCTET_STREAM
  {
    if ext in MIME_TYPES then MIME_TYPES[ext] else OCTET_STREAM
  }

  /** getMimeType: the table entry for the lower-cased text after the last
      '.', or the generic binary type. */
  function GetMimeType(fileName: string): (mime: string)
    ensures mime == OCTET_STREAM || mime in MIME_TYPES.Values
  {
    MimeForExtension(Lower(LastSegment(fileName)))
  }

  /** The lookup ignores letter case. */
  lemma GetMimeTypeCaseInsensitive(fileName: string)
    ensures GetMimeType(Lower(fileName)) == GetMimeType(fileName)
  {
    LastSegmentLower(fileName);
    LowerIdempotent(LastSegment(fileName));
  }

  /** A name ending in `.ext` gets the type of `ext`, whatever precedes it. */
  lemma GetMimeTypeOfExtension(stem: string, ext: string)
    requires '.' !in ext
    ensures GetMimeType(stem + "." + ext) == MimeForExtension(Lower(ext))
  {
    LastSegmentOfDotted(stem, ext);
  }

  /** A name without any '.' is looked up whole, as `split('.').pop()`
      returns the whole name. */
  lemma GetMimeTypeUndotted(fileName: string)
    requires '.' !in fileName
    ensures GetMimeType(fileName) == MimeForExtension(Lower(fileName))
  {
    LastSegmentWhole(fileName);
  }


  /** The image extensions of the icon switch all have an `image/` type in
      the table, and its video extensions a `video/` type. */
  lemma IconExtensionsHaveMimeTypes()
    ensures forall e :: e in IMAGE_EXTENSIONS ==> e in MIME_TYPES && StartsWith(MIME_TYPES[e], "image/")
    ensures forall e :: e in VIDEO_EXTENSIONS ==> e in MIME_TYPES && StartsWith(MIME_TYPES[e], "video/")
  {
  }

  /** So a file shown with the image icon opens as an image, and one shown
      with the video icon opens as a video. */
  lemma IconAgreesWithMimeType(fileName: string)
    ensures GetFileIcon(fileName).glyph == FileImage ==> StartsWith(GetMimeType(fileName), "image/")
    ensures GetFileIcon(fileName).glyph == FileVideo ==> StartsWith(GetMimeType(fileName), "video/")
  {
    var ext := Lower(LastSegment(fileName));
    IconExtensionsHaveMimeTypes();
    assert GetMimeType(fileName) == MimeForExtension(ext);
  }

  // ---------------------------------------------------------------------
  // The document filter
  // ---------------------------------------------------------------------

  const DOCUMENT_EXTENSIONS: seq<string> :=
    [".pdf", ".doc", ".docx", ".xls", ".xlsx", ".ppt", ".pptx", ".txt", ".csv", ".rtf",
     ".odt", ".ods", ".odp", ".epub", ".zip", ".rar", ".7z"]

  /** Each entry is a '.' followed by a non-empty text without '.'. */
  predicate Dotted(exts: seq<string>) {
    forall i :: 0 <= i < |exts| ==> |exts[i]| >= 2 && exts[i][0] == '.' && '.' !in exts[i][1..]
  }

  /** `exts.some(ext => fileNameLower.endsWith(ext))`. */
  predicate EndsWithSome(name: string, exts: seq<string>) {
    exists i :: 0 <= i < |exts| && EndsWith(Lower(name), exts[i])
  }

  /** A scanned file is kept when its lower-cased name ends with one of the
      document extensions. */
  predicate IsDocument(name: string) {
    EndsWithSome(name, DOCUMENT_EXTENSIONS)
  }

  lemma DocumentExtensionsDotted()
    ensures Dotted(DOCUMENT_EXTENSIONS)
  {
  }

  /** Ending with a dotted extension means having it as the last segment. */
  lemma SuffixIsLastSegment(s: string, e: string)
    requires |e| >= 2 && e[0] == '.' && '.' !in e[1..] && EndsWith(s, e)
    ensures "." + LastSegment(s) == e && s[|s| - |e|] == '.'
  {
    SplitAtSuffix(s, e);
    LastSegmentOfDotted(s[..|s| - |e|], e[1..]);
    assert [e[0]] + e[1..] == e;
  }

  lemma LowerCharDot(c: char)
    ensures LowerChar(c) == '.' ==> c == '.'
  {
  }

  /** A name ending with one of the dotted extensions, ignoring case, has
      that extension as its lower-cased last segment. */
  lemma SuffixGivesExtension(name: string, exts: seq<string>)
    requires Dotted(exts) && EndsWithSome(name, exts)
    ensures '.' in name && "." + Lower(LastSegment(name)) in exts
  {
    var low := Lower(name);
    var i :| 0 <= i < |exts| && EndsWith(low, exts[i]);
    var e := exts[i];
    assert |e| >= 2 && e[0] == '.' && '.' !in e[1..];
    SuffixIsLastSegment(low, e);
    var k := |low| - |e|;
    assert low[k] == LowerChar(name[k]) == '.';
    LowerCharDot(name[k]);
    LastSegmentLower(name);
    assert "." + Lower(LastSegment(name)) == e;
  }

  /** A name with a '.' ends, ignoring case, with '.' and its last
      segment. */
  lemma EndsWithLastSegment(name: string)
    requires '.' in name
    ensures EndsWith(Lower(name), "." + Lower(LastSegment(name)))
  {
    SplitAtLastSegment(name);
    var seg := LastSegment(name);
    var pre := name[..|name| - |seg| - 1];
    LowerDotted(pre, seg);
    EndsWithConcat(Lower(pre), "." + Lower(seg));
  }

  /** Having a listed extension as the last segment means ending with it. */
  lemma ExtensionGivesSuffix(name: string, exts: seq<string>)
    requires '.' in name && "." + Lower(LastSegment(name)) in exts
    ensures EndsWithSome(name, exts)
  {
    EndsWithLastSegment(name);
    var i :| 0 <= i < |exts| && exts[i] == "." + Lower(LastSegment(name));
  }

  /** The suffix test is an extension test: a name is a document exactly
      when it has a '.' and its lower-cased last segment is one of the
      listed extensions. */
  lemma IsDocumentByExtension(name: string)
    ensures IsDocument(name) <==> '.' in name && "." + Lower(LastSegment(name)) in DOCUMENT_EXTENSIONS
  {
    if IsDocument(name) {
      DocumentExtensionsDotted();
      SuffixGivesExtension(name, DOCUMENT_EXTENSIONS);
    }
    if '.' in name && "." + Lower(LastSegment(name)) in DOCUMENT_EXTENSIONS {
      ExtensionGivesSuffix(name, DOCUMENT_EXTENSIONS);
    }
  }

  /** Every document type has a MIME type of its own except `.epub`, which
      opens as `application/octet-stream`. */
  lemma DocumentMimeTypes()
    ensures forall i :: 0 <= i < |DOCUMENT_EXTENSIONS| && DOCUMENT_EXTENSIONS[i] != ".epub" ==>
      DOCUMENT_EXTENSIONS[i][1..] in MIME_TYPES
    ensures "epub" !in MIME_TYPES
  {
  }

  // ---------------------------------------------------------------------
  // The recursive scan
  // ---------------------------------------------------------------------

  /** What `RNFS.readDir` reports. `readable` is false when the directory
      does not exist or cannot be listed, and then `children` is ignored;
      entries that are neither files nor directories are `Other`. */
  datatype FsEntry =
    | FileEntry(name: string, path: string)
    | DirEntry(path: string, readable: bool, children: seq<FsEntry>)
    | Other(path: string)

  /** The documents under a list of entries, in listing order, each
      directory's documents where the directory appears. */
  function DocumentsIn(entries: seq<FsEntry>): seq<FsEntry>
    decreases entries
  {
    if entries == [] then []
    else DocumentsIn(entries[..|entries| - 1]) + DocumentsOf(entries[|entries| - 1])
  }

  function DocumentsOf(entry: FsEntry): seq<FsEntry>
    decreases entry
  {
    match entry
    case FileEntry(name, _) => if IsDocument(name) then [entry] else []
    case DirEntry(_, readable, children) => if readable then DocumentsIn(children) else []
    case Other(_) => []
  }

  /** The scan finds only document files. */
  lemma {:induction false} DocumentsInAreDocuments(entries: seq<FsEntry>)
    ensures forall f :: f in DocumentsIn(entries) ==> f.FileEntry? && IsDocument(f.name)
    decreases entries
  {
    if entries != [] {
      DocumentsInAreDocuments(entries[..|entries| - 1]);
      DocumentsOfAreDocuments(entries[|entries| - 1]);
    }
  }

  lemma {:induction false} DocumentsOfAreDocuments(entry: FsEntry)
    ensures forall f :: f in DocumentsOf(entry) ==> f.FileEntry? && IsDocument(f.name)
    decreases entry
  {
    if entry.DirEntry? && entry.readable {
      DocumentsInAreDocuments(entry.children);
    }
  }

  /** Every document file directly in a readable listing is found. */
  lemma {:induction false} DocumentsInFindsFiles(entries: seq<FsEntry>, i: nat)
    requires i < |entries| && entries[i].FileEntry? && IsDocument(entries[i].name)
    ensures entries[i] in DocumentsIn(entries)
    decreases entries
  {
    if i < |entries| - 1 {
      DocumentsInFindsFiles(entries[..|entries| - 1], i);
    }
  }

  /** recursiveScan: walk the listing in order, descend into directories,
      keep the files whose name passes the document filter. */
  method RecursiveScan(dir: FsEntry) returns (results: seq<FsEntry>)
    requires dir.DirEntry?
    ensures results == DocumentsOf(dir)
    decreases dir
  {
    results := [];
    if !dir.readable {
      return;
    }
    var items := dir.children;
    for k := 0 to |items|
      invariant results == DocumentsIn(items[..k])
    {
      assert items[..k + 1][..k] == items[..k];
      var item := items[k];
      match item {
        case DirEntry(_, _, _) =>
          var found := RecursiveScan(item);
          results := results + found;
        case FileEntry(name, _) =>
          if IsDocument(name) {
            results := results + [item];
          }
        case Other(_) =>
      }
    }
    assert items[..|items|] == items;
  }

  // ---------------------------------------------------------------------
  // First-occurrence de-duplication
  // ---------------------------------------------------------------------

  /** `findIndex` by key: the first position whose key is `k`, or `|s|`
      when there is none. */
  function FirstWith<T>(s: seq<T>, key: T -> string, k: string): (i: nat)
    ensures i <= |s|
    ensures i < |s| ==> key(s[i]) == k
    ensures forall j :: 0 <= j < i ==> key(s[j]) != k
  {
    if s == [] then 0 else if key(s[0]) == k then 0 else 1 + FirstWith(s[1..], key, k)
  }

  /** The seen-set filter: the elements of `s` whose key has not occurred
      before them, in order. */
  function KeepFirst<T>(s: seq<T>, key: T -> string): seq<T> {
    if s == [] then []
    else
      var init, x := s[..|s| - 1], s[|s| - 1];
      KeepFirst(init, key) + (if FirstWith(init, key, key(x)) < |init| then [] else [x])
  }

  /** The `findIndex` filter over the first `n` positions: position `i` is
      kept when the first position with its key is `i` itself. */
  function FindIndexFilter<T>(s: seq<T>, key: T -> string, n: nat): seq<T>
    requires n <= |s|
  {
    if n == 0 then []
    else
      FindIndexFilter(s, key, n - 1)
        + (if FirstWith(s, key, key(s[n - 1])) == n - 1 then [s[n - 1]] else [])
  }

  lemma FirstWithAppend<T>(s: seq<T>, x: T, key: T -> string, k: string)
    ensures FirstWith(s + [x], key, k) ==
      if FirstWith(s, key, k) < |s| then FirstWith(s, key, k)
      else if key(x) == k then |s| else |s| + 1
  {
    if FirstWith(s, key, k) < |s| {
      assert (s + [x])[FirstWith(s, key, k)] == s[FirstWith(s, key, k)];
    } else if key(x) == k {
      assert (s + [x])[|s|] == x;
    } else {
      assert forall j :: 0 <= j < |s| + 1 ==> key((s + [x])[j]) != k;
    }
  }

  lemma FirstWithPrefix<T>(s: seq<T>, m: nat, key: T -> string, k: string)
    requires m <= |s|
    ensures FirstWith(s[..m], key, k) == if FirstWith(s, key, k) < m then FirstWith(s, key, k) else m
  {
    var i := FirstWith(s[..m], key, k);
    if i < m {
      assert s[..m][i] == s[i];
    } else {
      assert forall j :: 0 <= j < m ==> key(s[j]) != k by {
        forall j | 0 <= j < m ensures key(s[j]) != k {
          assert s[..m][j] == s[j];
        }
      }
    }
  }

  /** The two formulations in the source, the seen-set filter of loadMedia
      and the `findIndex` filter of loadOtherFiles, keep the same
      elements. */
  lemma {:induction false} FindIndexFilterIsKeepFirst<T>(s: seq<T>, key: T -> string, n: nat)
    requires n <= |s|
    ensures FindIndexFilter(s, key, n) == KeepFirst(s[..n], key)
  {
    if n > 0 {
      FindIndexFilterIsKeepFirst(s, key, n - 1);
      var t := s[..n];
      assert t[..|t| - 1] == s[..n - 1];
      assert t[|t| - 1] == s[n - 1];
      FirstWithPrefix(s, n - 1, key, key(s[n - 1]));
    }
  }

  /** Every element of `r` is the first element of `s` with its key. */
  predicate TakesFirsts<T(==)>(s: seq<T>, r: seq<T>, key: T -> string) {
    forall i :: 0 <= i < |r| ==> FirstWith(s, key, key(r[i])) < |s| && r[i] == s[FirstWith(s, key, key(r[i]))]
  }

  predicate DistinctKeys<T>(r: seq<T>, key: T -> string) {
    forall i, j :: 0 <= i < j < |r| ==> key(r[i]) != key(r[j])
  }

  /** Every key that occurs in `s` occurs in `r`. */
  predicate KeepsKeys<T>(s: seq<T>, r: seq<T>, key: T -> string) {
    forall i :: 0 <= i < |s| ==> FirstWith(r, key, key(s[i])) < |r|
  }

  /** The elements of `r` appear in `s` in the same order. */
  predicate InOrderOf<T>(s: seq<T>, r: seq<T>, key: T -> string) {
    forall i, j :: 0 <= i < j < |r| ==> FirstWith(s, key, key(r[i])) < FirstWith(s, key, key(r[j]))
  }

  /** Every kept element is the first element of `s` with its key. */
  lemma {:induction false} KeepFirstTakesFirsts<T>(s: seq<T>, key: T -> string)
    ensures TakesFirsts(s, KeepFirst(s, key), key)
  {
    if s != [] {
      var init, x := s[..|s| - 1], s[|s| - 1];
      assert s == init + [x];
      KeepFirstTakesFirsts(init, key);
      var r0, r := KeepFirst(init, key), KeepFirst(s, key);
      forall i | 0 <= i < |r|
        ensures FirstWith(s, key, key(r[i])) < |s| && r[i] == s[FirstWith(s, key, key(r[i]))]
      {
        var k := key(r[i]);
        FirstWithAppend(init, x, key, k);
        if i < |r0| {
          assert r[i] == r0[i];
          var j := FirstWith(init, key, k);
          assert s[j] == init[j];
        } else {
          assert r[i] == x;
        }
      }
    }
  }

  /** No key is kept twice. */
  lemma {:induction false} KeepFirstDistinct<T>(s: seq<T>, key: T -> string)
    ensures DistinctKeys(KeepFirst(s, key), key)
  {
    if s != [] {
      var init, x := s[..|s| - 1], s[|s| - 1];
      KeepFirstDistinct(init, key);
      KeepFirstTakesFirsts(init, key);
      var r0, r := KeepFirst(init, key), KeepFirst(s, key);
      if FirstWith(init, key, key(x)) == |init| {
        forall i, j | 0 <= i < j < |r|
          ensures key(r[i]) != key(r[j])
        {
          assert r[i] == r0[i];
          if j < |r0| {
            assert r[j] == r0[j];
          } else {
            assert FirstWith(init, key, key(r0[i])) < |init|;
          }
        }
      }
    }
  }

  /** Every key that occurs in `s` is kept. */
  lemma {:induction false} KeepFirstKeepsKeys<T>(s: seq<T>, key: T -> string)
    ensures KeepsKeys(s, KeepFirst(s, key), key)
  {
    if s != [] {
      var init, x := s[..|s| - 1], s[|s| - 1];
      assert s == init + [x];
      KeepFirstKeepsKeys(init, key);
      var r0, r := KeepFirst(init, key), KeepFirst(s, key);
      var isNew := FirstWith(init, key, key(x)) == |init|;
      forall i | 0 <= i < |s|
        ensures FirstWith(r, key, key(s[i])) < |r|
      {
        var k := key(s[i]);
        var i0 := if i < |init| then i else FirstWith(init, key, key(x));
        if i < |init| {
          assert s[i] == init[i];
        } else {
          assert s[i] == x;
        }
        if i0 < |init| {
          assert key(init[i0]) == k;
          assert FirstWith(r0, key, k) < |r0|;
        }
        if isNew {
          assert r == r0 + [x];
          FirstWithAppend(r0, x, key, k);
        } else {
          assert r == r0;
        }
      }
    }
  }

  /** The kept elements keep their order in `s`. */
  lemma {:induction false} KeepFirstInOrder<T>(s: seq<T>, key: T -> string)
    ensures InOrderOf(s, KeepFirst(s, key), key)
  {
    if s != [] {
      var init, x := s[..|s| - 1], s[|s| - 1];
      assert s == init + [x];
      KeepFirstInOrder(init, key);
      KeepFirstTakesFirsts(init, key);
      var r0, r := KeepFirst(init, key), KeepFirst(s, key);
      forall i, j | 0 <= i < j < |r|
        ensures FirstWith(s, key, key(r[i])) < FirstWith(s, key, key(r[j]))
      {
        FirstWithAppend(init, x, key, key(r[i]));
        FirstWithAppend(init, x, key, key(r[j]));
        assert r[i] == r0[i];
        if j < |r0| {
          assert r[j] == r0[j];
        } else {
          assert r[j] == x;
          assert FirstWith(init, key, key(r0[i])) < |init|;
        }
      }
    }
  }

  // ---------------------------------------------------------------------
  // Thumbnail cache
  // ---------------------------------------------------------------------

  predicate IsAlphaNumeric(c: char) {
    IsUpper(c) || IsLowerLetter(c) || IsDigit(c)
  }

  /** `replace(/[^a-zA-Z0-9]/g, '_')`. */
  function Sanitize(url: string): string {
    seq(|url|, i requires 0 <= i < |url| => if IsAlphaNumeric(url[i]) then url[i] else '_')
  }

  /** The cache file name has the URL's length, keeps its letters and
      digits in place, has '_' everywhere else, and so contains no '/':
      the file stays directly inside the cache directory. Sanitising twice
      changes nothing. */
  lemma SanitizeSpec(url: string)
    ensures var name := Sanitize(url);
      && |name| == |url|
      && (forall i :: 0 <= i < |url| ==> (IsAlphaNumeric(url[i]) ==> name[i] == url[i]))
      && (forall i :: 0 <= i < |url| ==> (!IsAlphaNumeric(url[i]) ==> name[i] == '_'))
      && (forall i :: 0 <= i < |name| ==> IsAlphaNumeric(name[i]) || name[i] == '_')
      && '/' !in name
      && Sanitize(name) == name
  {
  }

  /** Where the thumbnail of `url` is cached. */
  function CachePath(cacheDir: string, url: string): string {
    cacheDir + "/" + Sanitize(url)
  }

  /** The cache file of a thumbnail sits directly in the cache directory:
      what follows the directory and its '/' has no further '/'. */
  lemma CachePathInCacheDir(cacheDir: string, url: string)
    ensures StartsWith(CachePath(cacheDir, url), cacheDir + "/")
    ensures '/' !in CachePath(cacheDir, url)[|cacheDir| + 1..]
  {
    SanitizeSpec(url);
    assert CachePath(cacheDir, url)[|cacheDir| + 1..] == Sanitize(url);
  }

  /** A cloud item as the server lists it: `_id`, `mediaType`, the
      `urls.thumbnail`, `urls.medium` and `urls.original` strings (empty
      when absent), and the day of `createdAt`, when it has one. */
  datatype CloudItem = CloudItem(
    id: string, mediaType: string,
    thumbnail: string, medium: string, original: string,
    createdAt: Option<Date>)

  /** A listed item with `localThumbnailPath`. */
  datatype CloudMedia = CloudMedia(item: CloudItem, localThumbnailPath: Option<string>)

  /** For one item with a thumbnail: whether a fresh cached copy exists and,
      if not, whether the download succeeds. */
  datatype ThumbnailFetch = ThumbnailFetch(cacheValid: bool, downloadOk: bool)

  /** The per-item step of loadCloudMedia. An item without a thumbnail is
      kept only if it is a video, with no local path; an item with one is
      kept, pointing at its cache file, if the cache is fresh or the
      download succeeds, and dropped otherwise. */
  function ProcessCloudItem(item: CloudItem, cacheDir: string, fetch: ThumbnailFetch): (r: Option<CloudMedia>)
    ensures r.Some? ==> r.value.item == item
    ensures item.thumbnail == "" ==>
      (r.Some? <==> StartsWith(item.mediaType, "video")) && (r.Some? ==> r.value.localThumbnailPath == None)
    ensures item.thumbnail != "" ==>
      (r.Some? <==> fetch.cacheValid || fetch.downloadOk)
      && (r.Some? ==> r.value.localThumbnailPath == Some("file://" + CachePath(cacheDir, item.thumbnail)))
  {
    if item.thumbnail == "" then
      (if StartsWith(item.mediaType, "video") then Some(CloudMedia(item, None)) else None)
    else
      var localFilepath := CachePath(cacheDir, item.thumbnail);
      if fetch.cacheValid || fetch.downloadOk then Some(CloudMedia(item, Some("file://" + localFilepath))) else None
  }

  /** `Promise.all` over the items and the `filter` of the dropped ones.
      `fetch(i)` is what the cache and the download do for item `i`. Every
      item whose step succeeds is kept, and nothing else is. */
  function ProcessAll(items: seq<CloudItem>, cacheDir: string, fetch: nat -> ThumbnailFetch): (r: seq<CloudMedia>)
    ensures |r| <= |items|
    ensures forall i :: 0 <= i < |items| && ProcessCloudItem(items[i], cacheDir, fetch(i)).Some? ==>
      ProcessCloudItem(items[i], cacheDir, fetch(i)).value in r
    ensures forall m :: m in r ==> exists i :: 0 <= i < |items| && ProcessCloudItem(items[i], cacheDir, fetch(i)) == Some(m)
  {
    if items == [] then []
    else
      var n := |items| - 1;
      var init := items[..n];
      var rest := ProcessAll(init, cacheDir, fetch);
      assert forall i :: 0 <= i < n ==> init[i] == items[i];
      match ProcessCloudItem(items[n], cacheDir, fetch(n))
      case None => rest
      case Some(m) => rest + [m]
  }

  // ---------------------------------------------------------------------
  // Component state
  // ---------------------------------------------------------------------

  /** A camera-roll edge: the asset's URI, type and timestamp in seconds,
      and the calendar day that timestamp falls on. */
  datatype LocalAsset = LocalAsset(uri: string, mimeType: string, timestamp: int, day: Date)

  /** What the selection map holds: a local node (keyed by its URI) or a
      cloud item (keyed by its `_id`). */
  datatype Selectable = LocalPick(asset: LocalAsset) | CloudPick(media: CloudMedia)

  function IdOf(s: Selectable): string {
    match s
    case LocalPick(a) => a.uri
    case CloudPick(m) => m.item.id
  }

  function UriOf(a: LocalAsset): string {
    a.uri
  }

  function PathOf(e: FsEntry): string {
    e.path
  }

  /** The path de-duplication of loadOtherFiles. */
  function UniqueByPath(files: seq<FsEntry>): seq<FsEntry> {
    FindIndexFilter(files, PathOf, |files|)
  }

  /** The date the local grid groups by: `timestamp * 1000`, falsy when the
      timestamp is 0. */
  function LocalDay(a: LocalAsset): Option<Date> {
    if a.timestamp == 0 then None else Some(a.day)
  }

  function CloudDay(m: CloudMedia): Option<Date> {
    m.item.createdAt
  }

  /** `page_info` of the camera roll. */
  datatype PageInfo = PageInfo(hasNextPage: bool, endCursor: string)

  datatype Pagination = Pagination(currentPage: int, totalPages: int)

  /** The answer to the cloud listing request: a failure (no token, a
      rejected fetch, a non-2xx status, a body that is not JSON, or a failing
      cache directory), a bare array, or an object with optional `media` and
      `pagination`. */
  datatype CloudResponse =
    | CloudFailure
    | BareArray(items: seq<CloudItem>)
    | Paged(media: Option<seq<CloudItem>>, pagination: Option<Pagination>)

  /** The items a successful response lists. */
  function Listed(response: CloudResponse): seq<CloudItem> {
    match response
    case BareArray(items) => items
    case Paged(media, _) => if media.Some? then media.value else []
    case CloudFailure => []
  }

  /** Whether a further page exists: only a paged response with a
      `pagination` whose current page is below the total says so. */
  predicate MorePages(response: CloudResponse) {
    response.Paged? && response.pagination.Some?
    && response.pagination.value.currentPage < response.pagination.value.totalPages
  }

  /** The `pagination` a response carries; a bare array, or an object
      without one, counts as the last page, `page` of `page`. A further
      page exists exactly when the response announced one. */
  function PaginationOf(response: CloudResponse, page: nat): (p: Pagination)
    ensures p.currentPage < p.totalPages <==> MorePages(response)
    ensures !(response.Paged? && response.pagination.Some?) ==> p == Pagination(page, page)
  {
    match response
    case Paged(_, Some(pg)) => pg
    case _ => Pagination(page, page)
  }

  /** Where a tap outside selection mode leads: the photo viewer, the video
      player, or an external viewer for the item's original URL. */
  datatype Navigation = NoNavigation | PhotoView(uri: string) | VideoPlayer(uri: string) | OpenUrl(url: string)

  /** handleCloudItemPress: photos open their medium-size version in the
      viewer, videos their original in the player, anything else its
      original URL outside the app. */
  function CloudNavigation(item: CloudItem): (nav: Navigation)
    ensures item.mediaType == "photo" ==> nav == PhotoView(item.medium)
    ensures item.mediaType != "photo" && StartsWith(item.mediaType, "video") ==> nav == VideoPlayer(item.original)
    ensures !StartsWith(item.mediaType, "video") && item.mediaType != "photo" ==> nav == OpenUrl(item.original)
  {
    if item.mediaType == "photo" then PhotoView(item.medium)
    else if StartsWith(item.mediaType, "video") then VideoPlayer(item.original)
    else OpenUrl(item.original)
  }

  function IdsOf(items: seq<Selectable>): set<string> {
    set x | x in items :: IdOf(x)
  }

  lemma IdsOfSnoc(items: seq<Selectable>, x: Selectable)
    ensures IdsOf(items + [x]) == IdsOf(items) + {IdOf(x)}
  {
    assert forall y :: y in items + [x] <==> y in items || y == x;
  }

  /** The items of a section with `Map.set` applied in order: the keys are
      the old ones and the items' ids, an item's id maps to an item with
      that id, and every other entry stays as it was. */
  function SetAll(m: map<string, Selectable>, items: seq<Selectable>): (r: map<string, Selectable>)
    ensures r.Keys == m.Keys + IdsOf(items)
    ensures forall k :: k in IdsOf(items) ==> r[k] in items && IdOf(r[k]) == k
    ensures forall k :: k in m && k !in IdsOf(items) ==> r[k] == m[k]
  {
    if items == [] then m
    else
      var init, x := items[..|items| - 1], items[|items| - 1];
      assert items == init + [x];
      IdsOfSnoc(init, x);
      SetAll(m, init)[IdOf(x) := x]
  }

  /** Selecting a section and long-pressing it again leaves none of its
      items selected, including those that were selected before, and every
      other entry as it was. */
  lemma SectionSelectThenDeselect(m: map<string, Selectable>, items: seq<Selectable>)
    ensures var back := SetAll(m, items) - IdsOf(items);
      && (forall x :: x in items ==> IdOf(x) !in back)
      && back == m - IdsOf(items)
  {
  }

  /** The state `GalleryScreen` keeps in `useState`, as far as the modelled
      handlers touch it. */
  class GalleryState {
    var media: seq<LocalAsset>
    var pageInfo: Option<PageInfo>
    var groupedLocalMedia: seq<Section<LocalAsset>>
    var cloudMedia: seq<CloudMedia>
    var cloudPage: nat
    var hasMoreCloud: bool
    var groupedCloudMedia: seq<Section<CloudMedia>>
    var otherFiles: seq<FsEntry>
    var selectedItems: map<string, Selectable>
    var selectedSections: set<Date>
    var isSelectionMode: bool

    /** Selection mode is on exactly while something is selected, every
        selected entry is stored under its own key, and the cloud list has
        been paged from page 1 on. */
    ghost predicate Valid()
      reads this
    {
      && (isSelectionMode <==> selectedItems != map[])
      && (forall k :: k in selectedItems ==> IdOf(selectedItems[k]) == k)
      && cloudPage >= 1
    }

    /** The Photos tab: its list, its paging cursor and its sections. */
    ghost function LocalTab(): (seq<LocalAsset>, Option<PageInfo>, seq<Section<LocalAsset>>)
      reads this
    {
      (media, pageInfo, groupedLocalMedia)
    }

    /** The Cloud tab: its list, its page, whether more pages exist, and its
        sections. */
    ghost function CloudTab(): (seq<CloudMedia>, nat, bool, seq<Section<CloudMedia>>)
      reads this
    {
      (cloudMedia, cloudPage, hasMoreCloud, groupedCloudMedia)
    }

    /** The selection: the selected items and sections and the mode flag. */
    ghost function Selection(): (map<string, Selectable>, set<Date>, bool)
      reads this
    {
      (selectedItems, selectedSections, isSelectionMode)
    }

    constructor ()
      ensures Valid() && media == [] && cloudMedia == [] && otherFiles == []
      ensures selectedItems == map[] && selectedSections == {} && !isSelectionMode
      ensures cloudPage == 1 && hasMoreCloud && pageInfo == None
    {
      media, pageInfo, groupedLocalMedia := [], None, [];
      cloudMedia, cloudPage, hasMoreCloud, groupedCloudMedia := [], 1, true, [];
      otherFiles := [];
      selectedItems, selectedSections, isSelectionMode := map[], {}, false;
    }

    // ---- loaders ----

    /** The seen-set filter of loadMedia. */
    static method DedupByUri(combined: seq<LocalAsset>) returns (unique: seq<LocalAsset>)
      ensures unique == KeepFirst(combined, UriOf)
    {
      var seenUris: set<string> := {};
      unique := [];
      for k := 0 to |combined|
        invariant unique == KeepFirst(combined[..k], UriOf)
        invariant forall u :: u in seenUris <==> FirstWith(combined[..k], UriOf, u) < k
      {
        var item := combined[k];
        ghost var init := combined[..k];
        assert combined[..k + 1] == init + [item];
        forall u
          ensures FirstWith(init + [item], UriOf, u) < k + 1 <==> u in seenUris || u == item.uri
        {
          FirstWithAppend(init, item, UriOf, u);
        }
        if item.uri !in seenUris {
          unique := unique + [item];
        }
        seenUris := seenUris + {item.uri};
      }
      assert combined[..|combined|] == combined;
    }

    /** loadMedia once the camera roll has answered: with a cursor the new
        page is appended to the current list, without one it replaces it;
        the result keeps the first entry per URI and is regrouped. A failed
        camera-roll call changes nothing. */
    method LoadMedia(after: string, photos: Option<(seq<LocalAsset>, PageInfo)>)
      requires Valid()
      modifies this
      ensures Valid()
      ensures photos.None? ==> LocalTab() == old(LocalTab())
      ensures photos.Some? ==>
        && media == KeepFirst((if after != "" then old(media) else []) + photos.value.0, UriOf)
        && pageInfo == Some(photos.value.1)
        && IsGrouping(groupedLocalMedia, media, LocalDay)
      ensures CloudTab() == old(CloudTab()) && otherFiles == old(otherFiles)
      ensures Selection() == old(Selection())
    {
      if photos.None? {
        return;
      }
      var (incomingMedia, info) := photos.value;
      var currentMedia := if after != "" then media else [];
      var uniqueMedia := DedupByUri(currentMedia + incomingMedia);
      media := uniqueMedia;
      pageInfo := Some(info);
      groupedLocalMedia := GroupMediaByDateAndRow(uniqueMedia, LocalDay);
    }

    /** loadMoreMedia: only when the last page said there is a next one and
        no page is being loaded; the next page continues from the cursor. */
    method LoadMoreMedia(loadingMore: bool, photos: Option<(seq<LocalAsset>, PageInfo)>)
      requires Valid()
      modifies this
      ensures Valid()
      ensures (loadingMore || old(pageInfo).None? || !old(pageInfo).value.hasNextPage || photos.None?) ==>
        LocalTab() == old(LocalTab())
      ensures !loadingMore && old(pageInfo).Some? && old(pageInfo).value.hasNextPage && photos.Some? ==>
        && media == KeepFirst((if old(pageInfo).value.endCursor != "" then old(media) else []) + photos.value.0, UriOf)
        && pageInfo == Some(photos.value.1)
        && IsGrouping(groupedLocalMedia, media, LocalDay)
      ensures CloudTab() == old(CloudTab()) && otherFiles == old(otherFiles)
      ensures Selection() == old(Selection())
    {
      if pageInfo.Some? && pageInfo.value.hasNextPage && !loadingMore {
        LoadMedia(pageInfo.value.endCursor, photos);
      }
    }

    /** loadCloudMedia for one page, once the server has answered. A
        failure leaves the lists as they were. Otherwise page 1 replaces the
        cloud list and any other page appends to it, and `hasMoreCloud`
        says whether the response announced a further page. */
    method LoadCloudMedia(page: nat, response: CloudResponse, cacheDir: string, fetch: nat -> ThumbnailFetch)
      requires Valid() && page >= 1
      modifies this
      ensures Valid()
      ensures response.CloudFailure? ==> CloudTab() == old(CloudTab())
      ensures !response.CloudFailure? ==>
        var processed := ProcessAll(Listed(response), cacheDir, fetch);
        && cloudMedia == (if page == 1 then processed else old(cloudMedia) + processed)
        && cloudPage == page
        && hasMoreCloud == MorePages(response)
        && IsGrouping(groupedCloudMedia, cloudMedia, CloudDay)
      ensures LocalTab() == old(LocalTab()) && otherFiles == old(otherFiles)
      ensures Selection() == old(Selection())
    {
      if response.CloudFailure? {
        return;
      }
      var serverMediaList := Listed(response);
      var pagination := PaginationOf(response, page);
      var processedMedia := ProcessAll(serverMediaList, cacheDir, fetch);
      ShowCloudPage(page, processedMedia, pagination.currentPage < pagination.totalPages);
    }

    /** The state updates of loadCloudMedia once a page is processed: page 1
        replaces the cloud list, a later page is appended to it, and the
        page, the further-page flag and the day sections follow. */
    method ShowCloudPage(page: nat, processedMedia: seq<CloudMedia>, more: bool)
      requires Valid() && page >= 1
      modifies this
      ensures Valid()
      ensures cloudMedia == (if page == 1 then processedMedia else old(cloudMedia) + processedMedia)
      ensures cloudPage == page && hasMoreCloud == more
      ensures IsGrouping(groupedCloudMedia, cloudMedia, CloudDay)
      ensures LocalTab() == old(LocalTab()) && otherFiles == old(otherFiles)
      ensures Selection() == old(Selection())
    {
      var newCloudMedia := if page == 1 then processedMedia else cloudMedia + processedMedia;
      cloudMedia := newCloudMedia;
      cloudPage := page;
      hasMoreCloud := more;
      groupedCloudMedia := GroupMediaByDateAndRow(newCloudMedia, CloudDay);
    }

    /** loadMoreCloudMedia: fetch the next page only while there is one and
        nothing is loading; the items already shown stay in front. */
    method LoadMoreCloudMedia(loading: bool, response: CloudResponse, cacheDir: string, fetch: nat -> ThumbnailFetch)
      requires Valid()
      modifies this
      ensures Valid()
      ensures (loading || !old(hasMoreCloud) || response.CloudFailure?) ==> CloudTab() == old(CloudTab())
      ensures !loading && old(hasMoreCloud) && !response.CloudFailure? ==>
        && cloudPage == old(cloudPage) + 1
        && cloudMedia == old(cloudMedia) + ProcessAll(Listed(response), cacheDir, fetch)
        && hasMoreCloud == MorePages(response)
        && IsGrouping(groupedCloudMedia, cloudMedia, CloudDay)
      ensures LocalTab() == old(LocalTab()) && otherFiles == old(otherFiles)
      ensures Selection() == old(Selection())
    {
      if hasMoreCloud && !loading {
        LoadCloudMedia(cloudPage + 1, response, cacheDir, fetch);
      }
    }

    /** loadOtherFiles: scan the download directory and then the documents
        directory, and keep the first file per path. */
    method LoadOtherFiles(downloads: FsEntry, documents: FsEntry)
      requires Valid() && downloads.DirEntry? && documents.DirEntry?
      modifies this
      ensures Valid()
      ensures otherFiles == UniqueByPath(DocumentsOf(downloads) + DocumentsOf(documents))
      ensures LocalTab() == old(LocalTab()) && CloudTab() == old(CloudTab())
      ensures Selection() == old(Selection())
    {
      var downloadFiles := RecursiveScan(downloads);
      var documentFiles := RecursiveScan(documents);
      var allFoundFiles := downloadFiles + documentFiles;
      otherFiles := UniqueByPath(allFoundFiles);
    }

    // ---- selection ----

    /** The toggle of handlePress and handleCloudItemInteraction in
        selection mode: the tapped key flips, every other key is kept, and
        selection mode ends if nothing is left. */
    method Toggle(picked: Selectable)
      requires Valid() && isSelectionMode
      modifies this
      ensures Valid()
      ensures var k := IdOf(picked);
        && (k in old(selectedItems) ==> selectedItems == old(selectedItems) - {k})
        && (k !in old(selectedItems) ==> selectedItems == old(selectedItems)[k := picked])
      ensures selectedSections == old(selectedSections)
      ensures LocalTab() == old(LocalTab()) && CloudTab() == old(CloudTab()) && otherFiles == old(otherFiles)
    {
      var newSelectedItems := selectedItems;
      var k := IdOf(picked);
      if k in newSelectedItems {
        newSelectedItems := newSelectedItems - {k};
      } else {
        newSelectedItems := newSelectedItems[k := picked];
      }
      if newSelectedItems == map[] {
        isSelectionMode := false;
      }
      selectedItems := newSelectedItems;
    }

    /** handlePress on a local asset: toggle it in selection mode, otherwise
        open it in the photo viewer or, for a video, the player. */
    method HandlePress(asset: LocalAsset) returns (nav: Navigation)
      requires Valid()
      modifies this
      ensures Valid()
      ensures old(isSelectionMode) ==>
        && nav == NoNavigation
        && (asset.uri in old(selectedItems) ==> selectedItems == old(selectedItems) - {asset.uri})
        && (asset.uri !in old(selectedItems) ==> selectedItems == old(selectedItems)[asset.uri := LocalPick(asset)])
      ensures !old(isSelectionMode) ==>
        && Selection() == old(Selection())
        && nav == (if StartsWith(asset.mimeType, "video") then VideoPlayer(asset.uri) else PhotoView(asset.uri))
      ensures selectedSections == old(selectedSections)
      ensures LocalTab() == old(LocalTab()) && CloudTab() == old(CloudTab()) && otherFiles == old(otherFiles)
    {
      if isSelectionMode {
        Toggle(LocalPick(asset));
        nav := NoNavigation;
      } else if StartsWith(asset.mimeType, "video") {
        nav := VideoPlayer(asset.uri);
      } else {
        nav := PhotoView(asset.uri);
      }
    }

    /** handleCloudItemInteraction: toggle by `_id` in selection mode,
        otherwise open the item. */
    method HandleCloudItemInteraction(picked: CloudMedia) returns (nav: Navigation)
      requires Valid()
      modifies this
      ensures Valid()
      ensures old(isSelectionMode) ==>
        && nav == NoNavigation
        && (picked.item.id in old(selectedItems) ==> selectedItems == old(selectedItems) - {picked.item.id})
        && (picked.item.id !in old(selectedItems) ==> selectedItems == old(selectedItems)[picked.item.id := CloudPick(picked)])
      ensures !old(isSelectionMode) ==> Selection() == old(Selection()) && nav == CloudNavigation(picked.item)
      ensures selectedSections == old(selectedSections)
      ensures LocalTab() == old(LocalTab()) && CloudTab() == old(CloudTab()) && otherFiles == old(otherFiles)
    {
      if isSelectionMode {
        Toggle(CloudPick(picked));
        nav := NoNavigation;
      } else {
        nav := CloudNavigation(picked.item);
      }
    }

    /** handleLongPress: outside selection mode, start it with just this
        item selected; inside it, do nothing. */
    method HandleLongPress(picked: Selectable)
      requires Valid()
      modifies this
      ensures Valid() && isSelectionMode
      ensures old(isSelectionMode) ==> Selection() == old(Selection())
      ensures !old(isSelectionMode) ==> selectedItems == map[IdOf(picked) := picked]
      ensures selectedSections == old(selectedSections)
      ensures LocalTab() == old(LocalTab()) && CloudTab() == old(CloudTab()) && otherFiles == old(otherFiles)
    {
      if isSelectionMode {
        return;
      }
      isSelectionMode := true;
      selectedItems := map[IdOf(picked) := picked];
      assert IdOf(picked) in selectedItems;
    }

    /** The `forEach` that deletes every item of a section. */
    static method DeleteAll(m: map<string, Selectable>, items: seq<Selectable>) returns (r: map<string, Selectable>)
      ensures r == m - IdsOf(items)
    {
      r := m;
      for k := 0 to |items|
        invariant r == m - IdsOf(items[..k])
      {
        assert items[..k + 1] == items[..k] + [items[k]];
        IdsOfSnoc(items[..k], items[k]);
        r := r - {IdOf(items[k])};
      }
      assert items[..|items|] == items;
    }

    /** The `forEach` that sets every item of a section under its id. */
    static method SetEach(m: map<string, Selectable>, items: seq<Selectable>) returns (r: map<string, Selectable>)
      ensures r == SetAll(m, items)
    {
      r := m;
      for k := 0 to |items|
        invariant r == SetAll(m, items[..k])
      {
        assert items[..k + 1][..k] == items[..k];
        r := r[IdOf(items[k]) := items[k]];
      }
      assert items[..|items|] == items;
    }

    /** handleSectionLongPress: all or nothing. If the section is selected,
        it and all its items leave the selection; otherwise it and all its
        items join it. Selection mode is on afterwards exactly when
        something is selected. */
    method HandleSectionLongPress(section: Section<Selectable>)
      requires Valid()
      modifies this
      ensures Valid()
      ensures section.date in old(selectedSections) ==>
        && selectedSections == old(selectedSections) - {section.date}
        && selectedItems == old(selectedItems) - IdsOf(Concat(section.data))
      ensures section.date !in old(selectedSections) ==>
        && selectedSections == old(selectedSections) + {section.date}
        && selectedItems == SetAll(old(selectedItems), Concat(section.data))
      ensures LocalTab() == old(LocalTab()) && CloudTab() == old(CloudTab()) && otherFiles == old(otherFiles)
    {
      if !isSelectionMode {
        isSelectionMode := true;
      }
      var newSelectedItems: map<string, Selectable>;
      var newSelectedSections := selectedSections;
      var allItemsInSection := Concat(section.data);
      if section.date in newSelectedSections {
        newSelectedSections := newSelectedSections - {section.date};
        newSelectedItems := DeleteAll(selectedItems, allItemsInSection);
      } else {
        newSelectedSections := newSelectedSections + {section.date};
        newSelectedItems := SetEach(selectedItems, allItemsInSection);
      }
      selectedItems := newSelectedItems;
      selectedSections := newSelectedSections;
      if newSelectedItems == map[] {
        isSelectionMode := false;
      }
    }

    /** cancelSelection: clear everything. */
    method CancelSelection()
      requires Valid()
      modifies this
      ensures Valid()
      ensures !isSelectionMode && selectedItems == map[] && selectedSections == {}
      ensures LocalTab() == old(LocalTab()) && CloudTab() == old(CloudTab()) && otherFiles == old(otherFiles)
    {
      isSelectionMode := false;
      selectedItems := map[];
      selectedSections := {};
    }
  }

  /** The files tab lists only documents, each path once, and every
      document found by the two scans is listed under its path. */
  lemma OtherFilesAreUniqueDocuments(downloads: FsEntry, documents: FsEntry)
    ensures var found := DocumentsOf(downloads) + DocumentsOf(documents);
      var listed := UniqueByPath(found);
      && (forall f :: f in listed ==> f.FileEntry? && IsDocument(f.name))
      && (forall i, j :: 0 <= i < j < |listed| ==> listed[i].path != listed[j].path)
      && (forall i :: 0 <= i < |found| ==> FirstWith(listed, PathOf, found[i].path) < |listed|)
  {
    var found := DocumentsOf(downloads) + DocumentsOf(documents);
    var listed := UniqueByPath(found);
    UniqueByPathIsKeepFirst(found);
    KeepFirstDistinct(found, PathOf);
    KeepFirstKeepsKeys(found, PathOf);
    KeepFirstFromInput(found, PathOf);
    DocumentsOfAreDocuments(downloads);
    DocumentsOfAreDocuments(documents);
    assert forall f :: f in listed ==> f in found;
  }

  lemma UniqueByPathIsKeepFirst(found: seq<FsEntry>)
    ensures UniqueByPath(found) == KeepFirst(found, PathOf)
  {
    FindIndexFilterIsKeepFirst(found, PathOf, |found|);
    assert found[..|found|] == found;
  }

  /** Every element the de-duplication keeps comes from its input. */
  lemma KeepFirstFromInput<T>(s: seq<T>, key: T -> string)
    ensures forall x :: x in KeepFirst(s, key) ==> x in s
  {
    var r := KeepFirst(s, key);
    KeepFirstTakesFirsts(s, key);
    forall x | x in r
      ensures x in s
    {
      var i :| 0 <= i < |r| && r[i] == x;
      assert x == s[FirstWith(s, key, key(r[i]))];
    }
  }
}
