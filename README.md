# myroom_frontend upload engine and gallery logic, in Dafny

This project models the logic core of the myroom React Native app and proves
properties of it. It covers five parts:

- **The background upload engine** (`services/UploadManager.js`). This is a
  process-wide FIFO of gallery items plus session counters and three result
  lists.
  - Each item's size is resolved first.
  - A small file that is not a video goes up in one multipart request.
    Anything else goes in 5 MiB chunks, sent one at a time in index order,
    each retried up to three times, then one finalize request.
  - The server's JSON `status` decides which list the file lands in.
  - When the queue runs dry, the finished files are split into gallery
    deletions and temporary-file unlinks, and the session is reset.

  The module globals are the class `UploadQueue`. Every call into the outside
  world is an input: stat results, replies per chunk attempt, the finalize
  reply, the upload id and the clock readings (`FileEnv`, `ChunkTransport`).
  The requests the engine makes are returned as a list of `Event`s, and so
  are the progress percentages. Percentages are exact rationals.
- **The remote log buffer** (`services/RemoteLog.js`). The class
  `RemoteLogger` covers:
  - the append-and-flush of `logToQueue`;
  - the snapshot-and-clear of `sendLogBatch`, and its restore when the post
    fails;
  - the console wrapping and the one-time timer guard of
    `initializeRemoteLogging`.
- **Day grouping** (`utils/galleryUtils.js`). `groupMediaByDateAndRow` groups
  items by day, cuts each day into rows of three and lists the days newest
  first. It is proved against the specification `IsGrouping`. Its
  `YYYY-MM-DD` key is proved to read back as the day it was made from.
- **The file icon** (`components/GalleryScreen/FileGridItem.js`).
  `getFileIcon` is a total classifier on the lower-cased extension.
- **The gallery screen logic** (`components/GalleryScreen/GalleryScreen.js`):
  - the MIME table and the document filter;
  - the recursive document scan;
  - the two first-occurrence de-duplications, by URI and by path. They are
    proved to keep the same elements.
  - the thumbnail cache file name;
  - cloud paging;
  - the selection handlers.

  The component's state is the class `GalleryState`, and its handlers are
  methods on it.

Shared pieces live in `wrappers.dfy` (`Option`) and `text.dfy` (ASCII
lower-casing, last `.`-segment, prefix and suffix tests, first-occurrence
replace).

## Model

| member | source | states |
|---|---|---|
| `UploadManager.ResolveFile` | services/UploadManager.js:76-103 | A `content://` URI resolves only through a stat result with a non-empty path and a non-zero size. Any other URI keeps itself as the path and takes the stat's size. A failing stat resolves nothing. |
| `UploadManager.ChooseStrategy` | services/UploadManager.js:105-137 | The chunked path is taken exactly when the size is at least 95 MiB, or the MIME type starts with `video/`, or the file's own name has a lower-cased extension of mp4, mov, avi or mkv. Otherwise the single request is used. |
| `UploadManager.TotalChunks` | services/UploadManager.js:217-218 | The chunk count is the least `n` with `n * 5 MiB >= size`, which is the ceiling. |
| `UploadManager.ChunkPlanCovers` | services/UploadManager.js:218-228 | Every byte of the file lies in exactly one planned chunk: chunk `p / 5 MiB`, read at offset `index * 5 MiB`. That index is below the chunk count. |
| `UploadManager.FirstSuccess` | services/UploadManager.js:236-268 | Gives the first successful attempt at a chunk, or 3 when none of the three succeeds. Every attempt before it failed. |
| `UploadManager.AttemptsUsed` | services/UploadManager.js:236-268 | A chunk is posted at least once and at most three times. |
| `UploadManager.ChunkPhaseShape` | services/UploadManager.js:221-251 | Every request of the chunk loop is a 5 MiB read at a multiple of 5 MiB, or a post of the file's one upload id with attempt 0, 1 or 2. Both concern a chunk below the loop bound. |
| `UploadManager.ChunkPhaseOrdered` | services/UploadManager.js:221-268 | Chunks go out one at a time in index order, and each chunk's attempts in order. Of two posts, the later one is for a later chunk or a later attempt at the same chunk. |
| `UploadManager.ChunkPhaseReadsOrdered` | services/UploadManager.js:220-227 | Chunks are read front to back. Of two reads, the later one is at a higher offset. |
| `UploadManager.ChunkPhaseFrozen` | services/UploadManager.js:236-268 | Once a chunk fails, the loop's requests and its completed count stay as they were after that chunk. |
| `UploadManager.ChunkPhaseComplete` | services/UploadManager.js:221-268 | When every chunk gets through, each chunk is read at its offset and posted up to its first successful attempt. |
| `UploadManager.ChunkPhaseStopsAtFailure` | services/UploadManager.js:236-268 | Suppose chunk `f` is the first to fail. Then nothing about a later chunk is read or posted. If its read succeeded, it was posted exactly three times. Exactly `f` chunks completed. |
| `UploadManager.FinalizeOnlyAfterAllChunks` | services/UploadManager.js:279-300 | The finalize request is made if and only if every chunk got through. When made, it is the file's last request. |
| `UploadManager.ChunkProgressRises` | services/UploadManager.js:270-276 | The progress after chunk `i` is `(i+1)/n*100`. It rises strictly from chunk to chunk and is 100 after the last chunk. |
| `UploadManager.ReplyResult` | services/UploadManager.js:297-304 | A reply yields a server status exactly when it is 2xx with a parsable body, and the status is the body's `status`. A rejected fetch, a non-2xx code or an unparsable body throws. |
| `UploadManager.ChunkedResult` | services/UploadManager.js:279-310 | A chunked upload reaches a server status only when every chunk got through. |
| `UploadManager.PostChunk` | services/UploadManager.js:236-268 | The retry loop posts until an attempt gets a 2xx answer, at most three times. It succeeds exactly when one of the three attempts does. Its posts are numbered 0 up to the attempts used. |
| `UploadManager.UploadFileInChunks` | services/UploadManager.js:202-317 | The result, the request list and the progress list are the chunk-loop specification's. The path read from is the resolved path with `file://` removed. |
| `UploadManager.Classify` | services/UploadManager.js:184-190 | Only `processing` records a success, with the file's record. Any other status records a failure under the file's name. The duplicate branch is never chosen. |
| `UploadManager.FileOutcomeSpec` | services/UploadManager.js:71-147 | A file is a success exactly when all of these hold: its size resolved; its transfer got a 2xx answer with a body (for a chunked upload, every chunk and the finalize); and that body's status is `processing`. An unresolved size fails under the fallback name. A success records the original URI, with `isTemp` meaning "starts with `file://`". No file is ever a duplicate. |
| `UploadManager.ProcessFile` | services/UploadManager.js:71-147 | Resolves the size, picks the strategy and uploads. A stat failure makes no request. A small non-video file makes exactly one multipart post, carrying the original URI. The outcome is the one `FileOutcomeSpec` characterises. |
| `UploadManager.GalleryUris` | services/UploadManager.js:335-338 | The gallery deletions are exactly the URIs of the finished files that are not temporary. |
| `UploadManager.TempPaths` | services/UploadManager.js:339-341 | The unlinks are exactly the temporary files' URIs with the first `file://` removed. |
| `UploadManager.RetentionPartition` | services/UploadManager.js:335-341 | Each finished file is cleaned up exactly once: as a gallery deletion or as a temp-file unlink. |
| `UploadManager.TempPathIsUriWithoutScheme` | services/UploadManager.js:367-371 | For a temporary file, the unlinked path is its URI without the `file://` scheme. |
| `UploadManager.UploadQueue.constructor` | services/UploadManager.js:9-15 | The engine starts idle, with an empty queue, zero counters and empty lists. |
| `UploadManager.UploadQueue.Enqueue` | services/UploadManager.js:408-430 | An empty list changes nothing. On an idle, empty queue the session restarts with the new count. Otherwise the count grows by the number of files. The files join the tail in order, indexed from `completed + queue length`. The session accounting (`total == completed + queued + in flight`) is kept. |
| `UploadManager.UploadQueue.StartNext` | services/UploadManager.js:385-386 | Takes the oldest item, FIFO, and marks the engine busy. |
| `UploadManager.UploadQueue.FinishFile` | services/UploadManager.js:397-400 | The item's outcome is pushed onto exactly one list. Completed rises by exactly one and the engine goes idle. |
| `UploadManager.UploadQueue.ProcessOne` | services/UploadManager.js:385-400 | One turn processes the oldest item. Its outcome is the one `FileOutcomeSpec` characterises, and the lists and counters change as `FinishFile` says. |
| `UploadManager.UploadQueue.FinishSession` | services/UploadManager.js:325-381 | If any file completed, the successful and duplicate files become the deletion and unlink plan and the whole session is reset. Failed files are never deleted. Otherwise nothing happens. |
| `UploadManager.UploadQueue.ProcessQueue` | services/UploadManager.js:319-406 | Does nothing while a file is in flight. Otherwise it processes the oldest item and runs again on the rest, so every queued item gets one outcome, oldest first. The retention plan covers exactly the earlier successes and the new ones. Then the session ends and the engine is idle. |
| `UploadManager.OutcomesOfAt` | services/UploadManager.js:385-405 | Draining a queue gives exactly one outcome per item, in queue order. The `k`-th outcome is that of item `k` under the conditions it met. |
| `UploadManager.UploadQueue.AddFilesToUploadQueue` | services/UploadManager.js:408-435 | An empty list changes nothing. While a file is in flight, the files are only queued: the session total grows by their number, and the completed count and the result lists stay as they were. Otherwise the whole queue, with the new files numbered after it, is drained, one outcome per item in queue order. The session is then reset, with its counters at zero and its lists empty. The retention plan covers the session's earlier successes (none if it was idle) followed by the new ones, in processing order. |
| `RemoteLog.RemoteLogger.constructor` | services/RemoteLog.js:7-8 | Starts with an empty queue, no timer and no console wrapper. |
| `RemoteLog.RemoteLogger.SendLogBatch` | services/RemoteLog.js:13-19 | An empty queue sends nothing. Otherwise the whole queue is the batch and the queue is cleared before the post. |
| `RemoteLog.RemoteLogger.LogToQueue` | services/RemoteLog.js:55-74 | Appends exactly one entry at the tail. It flushes, with the whole queue as the batch, if and only if the queue then holds at least 50 entries. Afterwards the queue is below 50. |
| `RemoteLog.RemoteLogger.Console` | services/RemoteLog.js:76-79 | A console call queues its entry once per installed wrapper. The flushed batches followed by the queue are the old queue followed by the new entries, so nothing is lost or reordered. |
| `RemoteLog.RemoteLogger.CompleteSend` | services/RemoteLog.js:21-41 | A delivered batch changes nothing. A failed batch goes back in front of the entries logged meanwhile, then the failure is logged. Every entry survives in order. |
| `RemoteLog.RemoteLogger.InitializeRemoteLogging` | services/RemoteLog.js:47-86 | Adds one more console wrapper. The periodic timer is installed at most once however often this runs. The start-up message is queued through the wrappers. |
| `GalleryUtils.DecimalString` | utils/galleryUtils.js:9-12 | `String(n)` is a non-empty string of decimal digits. |
| `GalleryUtils.DecimalRoundTrip` | utils/galleryUtils.js:9-12 | The decimal string of a number reads back as that number. |
| `GalleryUtils.Pad2` | utils/galleryUtils.js:9-12 | `padStart(2, '0')` of a number below 100 is exactly two digits. |
| `GalleryUtils.Pad2RoundTrip` | utils/galleryUtils.js:9-12 | The padded month or day reads back as the number. |
| `GalleryUtils.DateKey` | utils/galleryUtils.js:8-12 | The key has a '-' six and three places from its end, around two-digit month and day fields. |
| `GalleryUtils.DateKeyRoundTrip` | utils/galleryUtils.js:8-12 | Parsing a day's `YYYY-MM-DD` key gives that day back. |
| `GalleryUtils.DateKeyInjective` | utils/galleryUtils.js:8-15 | Two days share a group key only if they are the same day, so grouping by key is grouping by day. |
| `GalleryUtils.InsertNewest` | utils/galleryUtils.js:29-30 | Inserting a day into a newest-first list keeps it newest-first and adds exactly that day. |
| `GalleryUtils.SortNewestFirst` | utils/galleryUtils.js:29-30 | The sort of the group keys is a permutation of the days, newest first. |
| `GalleryUtils.ChunkRows` | utils/galleryUtils.js:20-27 | The rows concatenate back to the day's items. No row is empty or longer than three, and only the last may be shorter. |
| `GalleryUtils.GroupByDay` | utils/galleryUtils.js:4-17 | The `reduce` finds each dated day once. Each day's group is exactly its items, in input order. Undated items are dropped. |
| `GalleryUtils.RowsByDay` | utils/galleryUtils.js:20-27 | Every day's group is replaced by well-shaped rows that concatenate back to it. |
| `GalleryUtils.SectionsOfIsGrouping` | utils/galleryUtils.js:29-39 | Sorted days with their rows meet the grouping specification. |
| `GalleryUtils.GroupMediaByDateAndRow` | utils/galleryUtils.js:1-40 | An empty list gives no sections. Otherwise there is one section per day some item is dated, newest first, and each holds that day's items in input order in rows of three. |
| `GalleryUtils.CountOnAll` | utils/galleryUtils.js:4-17 | Over a distinct list of days covering every dated item, each dated item is counted exactly once. |
| `GalleryUtils.SectionsPreserveCount` | utils/galleryUtils.js:4-27 | The sections hold exactly as many items as there are dated items: none is lost and none is duplicated. |
| `FileGridItem.IconForExtension` | components/GalleryScreen/FileGridItem.js:16-47 | The generic icon is chosen exactly for the extensions the switch does not name. The text glyph is chosen exactly for pdf, doc, docx and odt. The image glyph is chosen exactly for jpg, jpeg, png and gif, and the video glyph exactly for mp4, mov and avi. |
| `FileGridItem.GetFileIconCaseInsensitive` | components/GalleryScreen/FileGridItem.js:13-14 | A name and its lower-cased form get the same icon. |
| `FileGridItem.GetFileIconOfExtension` | components/GalleryScreen/FileGridItem.js:13-14 | A name ending in `.ext` is classified by the lower-cased `ext` alone, whatever precedes the last '.'. |
| `FileGridItem.TextIcons` | components/GalleryScreen/FileGridItem.js:17-22 | pdf gets the red text icon. doc, docx and odt get the blue text icon: the same glyph in another colour. |
| `FileGridItem.OfficeIcons` | components/GalleryScreen/FileGridItem.js:23-31 | xls, xlsx, ods and csv get the spreadsheet icon. ppt, pptx and odp get the presentation icon. |
| `FileGridItem.ArchiveIcons` | components/GalleryScreen/FileGridItem.js:32-35 | zip, rar and 7z get the archive icon. |
| `FileGridItem.ImageIcons` | components/GalleryScreen/FileGridItem.js:36-40 | jpg, jpeg, png and gif get the image icon. |
| `FileGridItem.VideoIcons` | components/GalleryScreen/FileGridItem.js:41-44 | mp4, mov and avi get the video icon. |
| `GalleryScreen.GetMimeType` | components/GalleryScreen/GalleryScreen.js:587-615 | The answer is always a type from the table or the generic binary type. |
| `GalleryScreen.GetMimeTypeCaseInsensitive` | components/GalleryScreen/GalleryScreen.js:588 | A name and its lower-cased form get the same type. |
| `GalleryScreen.GetMimeTypeOfExtension` | components/GalleryScreen/GalleryScreen.js:588-614 | A name ending in `.ext` gets the type of the lower-cased `ext`, whatever precedes it. |
| `GalleryScreen.GetMimeTypeUndotted` | components/GalleryScreen/GalleryScreen.js:588-614 | A name without any '.' is looked up whole, lower-cased. |
| `GalleryScreen.IconExtensionsHaveMimeTypes` | components/GalleryScreen/GalleryScreen.js:605-611 | Every image extension of the icon switch has an `image/` type, and every video extension a `video/` type. |
| `GalleryScreen.IconAgreesWithMimeType` | components/GalleryScreen/GalleryScreen.js:587-615 | A file drawn with the image icon opens with an `image/` type. One drawn with the video icon opens with a `video/` type. |
| `GalleryScreen.DocumentExtensionsDotted` | components/GalleryScreen/GalleryScreen.js:498-516 | Each document extension is a '.' followed by a non-empty text without '.'. |
| `GalleryScreen.IsDocumentByExtension` | components/GalleryScreen/GalleryScreen.js:539-543 | The lower-case suffix test is an extension test. A file is kept exactly when its name has a '.' and its lower-cased last segment is a listed document extension. |
| `GalleryScreen.DocumentMimeTypes` | components/GalleryScreen/GalleryScreen.js:498-516 | Every document extension except `.epub` has a MIME entry of its own. `.epub` opens as the generic binary type. |
| `GalleryScreen.DocumentsInAreDocuments` | components/GalleryScreen/GalleryScreen.js:519-558 | A scan of a listing finds only files, all of which pass the document filter. |
| `GalleryScreen.DocumentsOfAreDocuments` | components/GalleryScreen/GalleryScreen.js:519-558 | A scan of a directory finds only document files. An unreadable directory finds nothing. |
| `GalleryScreen.DocumentsInFindsFiles` | components/GalleryScreen/GalleryScreen.js:531-547 | Every document file directly in a listing is found. |
| `GalleryScreen.RecursiveScan` | components/GalleryScreen/GalleryScreen.js:519-558 | The loop over a directory listing returns exactly its documents, in listing order, each subdirectory's documents where the subdirectory appears. |
| `GalleryScreen.FirstWith` | components/GalleryScreen/GalleryScreen.js:569 | `findIndex` by key returns the first position with that key, or the length when there is none. |
| `GalleryScreen.FindIndexFilterIsKeepFirst` | components/GalleryScreen/GalleryScreen.js:566-570 | The `findIndex` filter of loadOtherFiles keeps the same elements as the seen-set filter of loadMedia. |
| `GalleryScreen.KeepFirstTakesFirsts` | components/GalleryScreen/GalleryScreen.js:873-878 | Every kept element is the first element of the input with its key. |
| `GalleryScreen.KeepFirstDistinct` | components/GalleryScreen/GalleryScreen.js:873-878 | No key is kept twice. |
| `GalleryScreen.KeepFirstKeepsKeys` | components/GalleryScreen/GalleryScreen.js:873-878 | Every key of the input is kept. |
| `GalleryScreen.KeepFirstInOrder` | components/GalleryScreen/GalleryScreen.js:873-878 | The kept elements keep their relative order from the input. |
| `GalleryScreen.SanitizeSpec` | components/GalleryScreen/GalleryScreen.js:244-247 | The cache file name has the URL's length. It keeps letters and digits in place and has '_' everywhere else, so it holds only `[A-Za-z0-9_]` and no '/'. Sanitising again changes nothing. |
| `GalleryScreen.CachePathInCacheDir` | components/GalleryScreen/GalleryScreen.js:244-249 | A thumbnail's cache file sits directly inside the cache directory. |
| `GalleryScreen.ProcessCloudItem` | components/GalleryScreen/GalleryScreen.js:230-285 | An item without a thumbnail is kept exactly when it is a video, with no local path. An item with one is kept exactly when the cached copy is fresh or the download succeeds, pointing at `file://` plus its cache file. |
| `GalleryScreen.ProcessAll` | components/GalleryScreen/GalleryScreen.js:230-288 | Every item whose step succeeds is listed, and nothing else is. The list is no longer than the input. |
| `GalleryScreen.CloudNavigation` | components/GalleryScreen/GalleryScreen.js:329-350 | A photo opens its medium version in the viewer. A video opens its original in the player. Anything else opens its original URL outside the app. |
| `GalleryScreen.SetAll` | components/GalleryScreen/GalleryScreen.js:776-779 | Setting a section's items adds exactly their ids. Each id maps to an item with that id, and every other entry is unchanged. |
| `GalleryScreen.SectionSelectThenDeselect` | components/GalleryScreen/GalleryScreen.js:755-788 | Selecting a section and long-pressing it again leaves none of its items selected, and every other entry as it was. |
| `GalleryScreen.GalleryState.constructor` | components/GalleryScreen/GalleryScreen.js:38-62 | Starts with empty lists and an empty selection, cloud page 1 and "more cloud pages" set. |
| `GalleryScreen.GalleryState.DedupByUri` | components/GalleryScreen/GalleryScreen.js:873-878 | The seen-set loop keeps exactly the first element per URI (`KeepFirst`). |
| `GalleryScreen.GalleryState.LoadMedia` | components/GalleryScreen/GalleryScreen.js:858-893 | A failed camera-roll call leaves the Photos tab as it was. With a cursor, the current list is followed by the new page; without one, only the new page is used. Either way it is de-duplicated by URI, keeping first occurrences, the new cursor is stored and the list is regrouped by day. The Cloud tab, the Files tab and the selection stay as they were. |
| `GalleryScreen.GalleryState.LoadMoreMedia` | components/GalleryScreen/GalleryScreen.js:912-916 | Without a next page, while loading, or when the camera roll fails, the Photos tab stays as it was. Otherwise the next page is loaded from the cursor: the list is de-duplicated, the new cursor stored and the list regrouped by day. The Cloud tab, the Files tab and the selection stay as they were. |
| `GalleryScreen.GalleryState.LoadCloudMedia` | components/GalleryScreen/GalleryScreen.js:165-326 | A failure leaves the Cloud tab as it was. Page 1 replaces the cloud list and any later page appends to it. The page is recorded. "More pages" holds exactly when a paged response says current page < total pages; a bare array is the last page. The list is regrouped by day. The Photos tab, the Files tab and the selection stay as they were. |
| `GalleryScreen.PaginationOf` | components/GalleryScreen/GalleryScreen.js:205-216 | A bare array, or an object without `pagination`, is read as page `page` of `page`. The pagination that results announces a further page exactly when the response did. |
| `GalleryScreen.GalleryState.ShowCloudPage` | components/GalleryScreen/GalleryScreen.js:299-315 | Page 1 replaces the cloud list and a later page is appended. The page, the "more pages" flag and the day sections follow. Nothing outside the Cloud tab changes. |
| `GalleryScreen.GalleryState.LoadMoreCloudMedia` | components/GalleryScreen/GalleryScreen.js:918-922 | Without more pages, while loading, or when the fetch fails, the Cloud tab stays as it was. Otherwise the next page is appended after the items already shown, the page advances by one, "more pages" follows the response and the list is regrouped by day. The Photos tab, the Files tab and the selection stay as they were. |
| `GalleryScreen.GalleryState.LoadOtherFiles` | components/GalleryScreen/GalleryScreen.js:560-572 | The files tab lists the documents of the download scan, then those of the documents scan, keeping the first file per path. The Photos and Cloud tabs and the selection stay as they were. |
| `GalleryScreen.GalleryState.Toggle` | components/GalleryScreen/GalleryScreen.js:938-948 | Flips the membership of exactly the tapped key and keeps every other entry. Selection mode ends exactly when nothing is left. The Photos, Cloud and Files tabs stay as they were. |
| `GalleryScreen.GalleryState.HandlePress` | components/GalleryScreen/GalleryScreen.js:935-965 | In selection mode a tap toggles the asset's URI and navigates nowhere. Otherwise the selection is unchanged and a video opens in the player, anything else in the photo viewer. The Photos, Cloud and Files tabs stay as they were. |
| `GalleryScreen.GalleryState.HandleCloudItemInteraction` | components/GalleryScreen/GalleryScreen.js:352-369 | In selection mode a tap toggles the item's `_id`. Otherwise the selection is unchanged and the item is opened as `CloudNavigation` says. The Photos, Cloud and Files tabs stay as they were. |
| `GalleryScreen.GalleryState.HandleLongPress` | components/GalleryScreen/GalleryScreen.js:924-933 | Outside selection mode, starts it with only this item selected. Inside it, changes nothing. The Photos, Cloud and Files tabs stay as they were. |
| `GalleryScreen.GalleryState.DeleteAll` | components/GalleryScreen/GalleryScreen.js:771-774 | Deleting a section's items removes exactly their ids. |
| `GalleryScreen.GalleryState.SetEach` | components/GalleryScreen/GalleryScreen.js:776-779 | The `forEach` of `set` calls computes `SetAll`. |
| `GalleryScreen.GalleryState.HandleSectionLongPress` | components/GalleryScreen/GalleryScreen.js:755-788 | All or nothing. A selected section leaves the selection together with all its items. Otherwise it joins together with all its items. Selection mode is on exactly when something is selected. The Photos, Cloud and Files tabs stay as they were. |
| `GalleryScreen.GalleryState.CancelSelection` | components/GalleryScreen/GalleryScreen.js:967-971 | Clears the items, the sections and selection mode. The Photos, Cloud and Files tabs stay as they were. |
| `GalleryScreen.OtherFilesAreUniqueDocuments` | components/GalleryScreen/GalleryScreen.js:494-572 | The files tab lists only documents, each path once, and every document either scan found is listed under its path. |

## Left out

- Notifications. `showUploadNotification`, `updateUploadProgress` and the foreground-service stop are platform side effects. The progress values they would show are returned as a sequence instead.
- Event-loop timing. The `setTimeout` that chains `processQueue` to itself is modelled as a direct recursive call, and the 2.5 s delay before the session ends is not modelled. An enqueue that lands inside that delay is not modelled.
- Interleaving. An enqueue while a file is in flight is represented: `Enqueue` is allowed while `isProcessing` holds. The interleaving of awaits inside one upload is not modelled.
- `UploadManager.UploadQueue.Enqueue`: the index of a new entry does not count the file in flight. It can therefore equal that file's index. This is modelled as written. The index only appears in the fallback name of a failed file without a name.
- `uuid.v4()`, `Date.now()`, auth tokens, timeouts and request headers. The upload id and the two clock readings are inputs of `FileEnv`. Timeouts appear only as a rejected request.
- Single-shot progress. The per-byte progress callbacks of the single-shot upload are left out; only its final 100% is modelled.
- Lower-casing. `toLowerCase` is modelled on ASCII letters only; Unicode case mapping is not modelled.
- `GalleryScreen.Sanitize`: strings are sequences of Unicode characters, not UTF-16 code units. The source's `/[^a-zA-Z0-9]/g` has no `u` flag and replaces each code unit, so a character outside the Basic Multilingual Plane becomes `__` there but `_` in the model. Cache file names differ for URLs that contain such characters.
- `GalleryScreen.GetMimeType`: the model's table holds only the listed extensions. In the source the lookup on a plain object also reaches inherited members for names such as `x.constructor`. Those names are not modelled, and the contract does not cover them.
- Dates. JavaScript `Date` construction from a timestamp or a `createdAt` string is an input: `LocalAsset.day` and `CloudItem.createdAt`. The `toLocaleDateString` section title is not modelled. The sort compares the days rather than re-parsed keys; these agree for four-digit years.
- Section selection. The source keys a selected section by its title; the model keys it by its day. A section's day determines its title.
- Invalid dates. `new Date` of an unparsable value is not modelled.
- Null inputs. A null media list, and item nodes without `image`, are not modelled. A missing filename is modelled as the empty string, and a missing cloud URL likewise.
- `GalleryScreen.ProcessAll`: the contract states which items are kept, but not that the kept items stay in server order. The function keeps that order, but no lemma proves it.
- `GalleryScreen.DocumentsInFindsFiles`: covers documents directly in a listing. Completeness for deeper levels follows from `RecursiveScan` being equal to `DocumentsOf`, but is not proved as a separate lemma.
- Thumbnail cache. The cache age computation (floating point) and the unlink of a stale copy are collapsed into the input `ThumbnailFetch.cacheValid`. Whether the download succeeds is `ThumbnailFetch.downloadOk`.
- Loading flags. `loadingMore`, `loadingCloud` and `loadingMoreCloud` are parameters of the load-more handlers; the spinners they drive are not modelled.
- Cloud item press. The request headers and token passed by `handleCloudItemPress` are not modelled, and neither are the debug and "all thumbnails failed" console messages.
- Log delivery. `RemoteLog.RemoteLogger.CompleteSend` treats a post that settles with any HTTP status as delivered. `fetch` rejects only on network errors, so a non-2xx log post is not retried, as in the source.
- Log entry contents. The JSON and `Error` serialisation of log arguments and the timestamp of each entry are not modelled: entries are given already built.
- The original console output each wrapper forwards to is not modelled.
- Android permission checks, albums, deletion, download, file open, info and upload-trigger handlers of the gallery screen are outside this model, and so is all rendering.
