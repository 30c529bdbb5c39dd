# A verified model of the storage server

A Dafny model of the parts of the server that are hardest to get right: listing a bucket, keeping ETags true under
concurrency, multipart uploads, deleting and pruning, writing files atomically, pulling a bucket from elsewhere, and
slowing down login guesses. `dafny verify dfyconfig.toml` checks all of it.

| files | what they model |
|---|---|
| `Bytes`, `Utf8`, `KeySets`, `Tree` | bytewise key order, UTF-8, the `n` smallest keys of a set, a directory tree and its keys |
| `ListingPage`, `Walk`, `Delimiters`, `Listing`, `Paging` | the bounded accumulator, the two pruned walks, which delimiters tell objects and common prefixes apart, the merge into one page, following continuation tokens |
| `EtagBackfill`, `KeyLocks` | readers that hash and write back a sidecar while objects are replaced; the lock per path they take |
| `Base64Url`, `SessionNames` | the file names of the data root, and the scanner that reads them back (section 5 of RFC 4648) |
| `Hashing`, `Sessions`, `SessionRuns`, `Multipart` | multipart sessions as values, over whole runs with plain puts and deletes in between, and as the loops that carry them out |
| `Namespace`, `BucketDir` | puts and deletes on the directory tree of a bucket, and pruning |
| `FileWriters` | files written through a temporary file and a rename |
| `SyncPlan`, `SyncRun`, `SyncConservation`, `SyncTermination`, `SyncResume`, `SyncManager` | the copy rule, a sync run as steps, what every step keeps, why a run ends, what runs do one after another, the run slot and its history |
| `Throttle` | the login throttle |

Concurrent parts are step systems: a state, the events enabled in it, and the state each event leads to. A theorem about
them speaks of every run, that is, of every interleaving. A hash is a parameter: an arbitrary function of the bytes, or
an incremental hasher known only by its law. The clock, upload ids and what a source holds are parameters too.

A definition behind `Opened` is one whose body a proof sees only where it asserts `Opened(0)`; the predicate itself is
always true.

## Results where code and comment part ways

- *Pruning and folder placeholders.* The comment at `src/backend/s3.rs:1317-1318` says that explicitly created folders
  are never affected by pruning, as they are never the parent of a deleted object. They are, once an object has been put
  into them: `Namespace.PlaceholderIsPruned`. `Namespace.PruneRemovesExactly` says which directories go.
- *The map of path locks.* The comment at `src/backend/fs.rs:76-77` calls the reference count stable under the map's
  lock. The entry's own reference goes after that lock is released, so two entries leaving together can both keep the
  path: `KeyLocks.OverlappingDropsLeaveThePath`, and exactly then: `KeyLocks.PathLeftBehindIff`. It then stays until the
  path is next locked: `KeyLocks.LeftBehindStays`, `KeyLocks.NextEntryTidies`.
- *Stored ETags.* The comment at `src/backend/fs.rs:154` says that write paths store the ETag together with the bytes.
  They are two steps: a put dropped in between leaves the old ETag on the new bytes, and writes that overlap can save in
  the other order. `EtagBackfill.ReadsAreRightIff` says for every interleaving when reads stay right, and
  `EtagBackfill.DroppedPutLeavesRightIff` when a dropped put does no harm.
- *Delimiters.* The file branch of the walk keeps one byte of the delimiter (`src/backend/s3.rs:1550`), the directory
  branch all of it. `Delimiters.NeverCollidesIff` says which delimiters can make a key both an object and a common
  prefix; with any of those, following tokens can lose an object: `Paging.PagesLoseAnObject`.
- *Pages of size zero.* A truncated page of size zero carries no token, so a client stops with nothing:
  `Paging.PagingCompleteIff`.
- *Cancelled copies.* The comments at `src/admin/sync/engine.rs:105` and `347-348` say that a cancelled copy leaves the
  destination untouched. The rename may already have happened when the copy is dropped (`src/backend/s3.rs:810-890`):
  `SyncResume.CancelledCopyCanLand` is such a run. `SyncResume.DoneIffLanded` says for every run that the destination is
  untouched before, and whole after, a landing; resuming is proved either way.
- *A failed completion* leaves the object's bytes and ETag alone but ends the session, has consumed the parts before the
  bad one and has given the object the session's attributes: `Sessions.AdmittedCompletionEndsSession`,
  `Sessions.CompletionConsumes`, `Sessions.CompletionMovesAttributes`.

## Model

| member | source | states |
|---|---|---|
| Bytes.LessIff | src/backend/s3.rs:79-85 | keys are ordered bytewise: a beginning comes before its extensions, otherwise the first byte that differs decides |
| Utf8.IsUtf8Iff | src/backend/s3.rs:44 | the names that can be part of a key are exactly the encodings of sequences of Unicode scalar values (section 3 of RFC 3629) |
| ListingPages.ListingPage.constructor | src/backend/s3.rs:88-95 | a new page keeps one entry more than the limit, with the limit saturating at the machine word, and has been offered nothing |
| ListingPages.ListingPage.Refuse | src/backend/s3.rs:97-107 | a key the gate turns down may be counted as offered: the accumulator still holds exactly the smallest entries after the marker, so skipping its `stat` never changes the outcome |
| ListingPages.GateIsExact | src/backend/s3.rs:97-107 | the gate is exact: a key not met before is let through exactly when it belongs among the `limit + 1` smallest after the marker of all that was offered |
| ListingPages.ListingPage.PushObject | src/backend/s3.rs:109-117 | after any pushes in any order, what is held is exactly the `limit + 1` smallest objects after the marker of all that was offered |
| ListingPages.ListingPage.PushPrefix | src/backend/s3.rs:119-127 | the same for common prefixes |
| ListingPages.ListingPage.IntoSorted | src/backend/s3.rs:130-138 | the retained candidates come out in key order, each object under its own key |
| ListingPages.HeldIsDetermined | src/backend/s3.rs:69-78 | what is held is a function of what was offered: neither the order of pushes nor the gate shows in it |
| Walk.DivergentBelow | src/backend/s3.rs:1434-1442 | a directory on a different branch than the prefix contributes nothing to the naive listing, so it may be skipped with all below it |
| Walk.CollapsedBelow | src/backend/s3.rs:1517-1535 | everything in a directory past the `/` boundary, at any depth, folds into the directory's one common prefix |
| Walk.WalkIsNaiveGrouping | src/backend/s3.rs:1477-1579 | when no directory is left to read, the objects and prefixes offered are those of filtering and grouping every file key and, for `/`, every directory key |
| Walk.ListObjectsWithDelimiter | src/backend/s3.rs:1477-1579 | the pruned walk, reading directories in any order, offers exactly the naive grouping of all keys; by `/` it reads only directories whose key is a proper beginning of the prefix, so no more of them than the prefix has bytes, and otherwise only those whose key begins the prefix or begins with it |
| Walk.ListObjectsRecursive | src/backend/s3.rs:1412-1475 | the walk without a delimiter offers exactly the file keys under the prefix, and reads only directories below which a key can begin with it |
| Walk.FewDirectoriesAreRead | src/backend/s3.rs:1509-1535 | a listing by `/` reads the bucket root and at most one directory for each byte of the prefix, however large the bucket |
| Listing.Merge | src/backend/s3.rs:652-689 | the loop makes the merge of the two lists in which the smaller key goes first and of equal keys the prefix, and stops at `max_keys` or when both are used up; where no key is in both, everything emitted precedes everything left in either list, and the last key is the largest |
| Listing.MergedIsInOrder | src/backend/s3.rs:659-689 | where no key is in both lists, after any number of rounds what was emitted comes before what was not |
| Listing.MergedAreSmallest | src/backend/s3.rs:69-85 | one lookahead entry in each list is enough: what was merged is the smallest of the whole union, and something is left over exactly when the union is larger than the page |
| Delimiters.ObjectsAndPrefixesDisjoint | src/backend/s3.rs:1543-1557 | without a delimiter, or with one of a single byte, with a slash for its first or second byte, or with a part between slashes that is no name, no key of any bucket is both an object and a common prefix |
| Delimiters.LongDelimiterCollides | src/backend/s3.rs:1544-1552 | with every other delimiter that begins with an ASCII byte there is a bucket that lists one key both as an object and as a common prefix, because the file branch keeps one byte of the delimiter only |
| Delimiters.NeverCollidesIff | src/backend/s3.rs:1509-1557 | so the delimiters that tell objects and common prefixes apart in every bucket and under every prefix are exactly those |
| Listing.CutPage | src/backend/s3.rs:649-716 | the second half of a listing gives the merged page, which for disjoint objects and prefixes is the sorted cut of their union after the marker, each in its own list, with the truncation flag and the token |
| Listing.ListObjectsV2 | src/backend/s3.rs:612-716 | a page is "sort every entry of the naive listing and cut", for every tree, prefix, marker and page size and every delimiter that keeps objects and common prefixes apart, in this bucket or in general; `is_truncated` exactly when more remain; the next token is the last key; with any other delimiter it is the merge of the two; an absent bucket is an error; all that is shown is behind the request's token or, with none, behind `start_after`; no more than a thousand entries |
| Paging.TokenSplits | src/backend/s3.rs:693-694 | the token parts what has been listed from what is still to come, with nothing lost or repeated |
| Paging.PagesListEverything | src/backend/s3.rs:612-716 | pages that follow one another's tokens to an untruncated one list every object and prefix after the marker once, in ascending order |
| Paging.PagesAreBounded | src/backend/s3.rs:612-716 | every page but the last is full, so following tokens terminates |
| Paging.PagingCompleteIff | src/backend/s3.rs:630-694 | a client that runs out of tokens has everything if and only if the page size is positive or there is nothing to list |
| Paging.BucketPagingIsComplete | src/backend/s3.rs:612-716 | for every tree, prefix and delimiter and any positive page size: from no marker, all pages together are the naive listing in order, each object as it is on disk |
| Paging.RequestPagingIsComplete | src/backend/s3.rs:612-716 | a request sent again with the token of each answer: all answers together are the naive listing, each object with its size, time and ETag as on disk; leading slashes of the prefix do not count, an empty delimiter is none, and the number of pages is bounded with the size asked for, at most a thousand |
| Paging.AnswerHasNoGap | src/backend/s3.rs:634-694 | an answer shows everything there is behind the token (or, with none, `start_after`; or, with neither, from the beginning) up to the last key it shows |
| Paging.PageSizes | src/backend/s3.rs:629-632 | no size means a thousand, negative sizes nothing, and more than a thousand is a thousand |
| Paging.LeadingSlashesDoNotCount | src/backend/s3.rs:628 | whatever slashes stand in front of a prefix are dropped, and nothing else |
| Paging.PagesLoseAnObject | src/backend/s3.rs:659-694 | with every delimiter that does not keep them apart, some bucket paged one entry at a time never shows an object: the token of the common prefix skips it |
| EtagBackfill.StampedSidecarIsTrue | src/backend/s3.rs:1397-1408 | in every interleaving of puts, completions, deletes, reads and late write-backs, a stamped sidecar holds the MD5 of exactly the version its stamp names |
| EtagBackfill.ReadsAreRightIff | src/backend/s3.rs:809-890 | for any interleaving of writes that overlap or are given up half way: all reads that run wholly between writes, in the run or after any point of it, answer rightly if and only if each write that ends last over a file saves an ETag that is right for it or, if given up, leaves no unstamped wrong one |
| EtagBackfill.WritesEndCalm | src/backend/s3.rs:809-890 | the reads meant by the results above are no more than those: each step of a write ends the calm of every read under way, and a read that starts amid a write has none |
| EtagBackfill.ReadsBetweenWritesAreRight | src/backend/s3.rs:1367-1410 | with writes one after another, a read that runs wholly between two of them answers with the ETag the writer stored or the MD5 of the bytes served, even if a stale write-back replaced the writer's sidecar |
| EtagBackfill.DroppedPutLeavesRightIff | src/backend/s3.rs:810-890 | a put dropped between its rename and its sidecar does no harm exactly when the old sidecar has no ETag, a stamped one, or one that is right for the new bytes |
| EtagBackfill.RacingWritesMisreport | src/backend/s3.rs:809-890 | a run of the bad kind: two puts that save their sidecars in the other order than they landed make a later quiet read report the wrong ETag |
| EtagBackfill.OneHashPerHerd | src/backend/s3.rs:1382-1396 | while nothing is written, any number of readers of an object without a usable ETag, however many of them are cancelled, hash it at most once more than hashes were lost with a cancelled reader or a failed write-back; all that answer do so with the same MD5 |
| EtagBackfill.LockMatchesAlways | src/backend/s3.rs:1382-1388 | in every interleaving the lock is held exactly by the reader between its grant and its finish, and by nobody if there is none |
| EtagBackfill.UnfinishedReadsGoOn | src/backend/s3.rs:1382-1409 | no read is ever stuck: while one is unfinished some reader can take a step, and when all are at rest the lock is free |
| EtagBackfill.ReadsComeToAnEnd | src/backend/s3.rs:1367-1410 | a read takes at most eight steps after its first, whatever happens around it, and no step of it changes another reader |
| EtagBackfill.CancelLeavesNoTrace | src/backend/s3.rs:1386-1388 | a read can be dropped at any moment before its answer: the guard goes with it, and nothing else changes |
| EtagBackfill.DeleteLeavesNothing | src/backend/s3.rs:1281-1303 | a delete can begin whoever is reading, and with its two steps done neither the object nor a stored ETag is left |
| KeyLocks.LockTable.Enter | src/backend/fs.rs:48-53 | entering is the table's step of that name: the path's lock object is found or made under the map's mutex |
| KeyLocks.LockTable.Wait | src/backend/fs.rs:54 | waiting is to queue on the mutex, whoever holds it |
| KeyLocks.LockTable.Acquire | src/backend/fs.rs:54-56 | the wait ends with the lock once nobody holds it |
| KeyLocks.LockTable.Abandon | src/backend/fs.rs:46-47 | a request cancelled while it waits drops its entry as a holder does |
| KeyLocks.LockTable.DropGuard | src/backend/fs.rs:59-64 | dropping a guard is to release the mutex first and drop the entry after it |
| KeyLocks.LockTable.DropEntry | src/backend/fs.rs:73-82 | dropping an entry takes the path out of the map when only the map and this entry refer to the lock |
| KeyLocks.OneHolderPerPath | src/backend/fs.rs:45-64 | in every interleaving, with drops in two steps, all live entries of a path share the lock in the map, so a path never has two holders |
| KeyLocks.WaitersGoOn | src/backend/fs.rs:45-64 | in every interleaving, an entry that waits can be granted the lock, or another of its path holds it and can let go |
| KeyLocks.MapHoldsContendedPathsOnly | src/backend/fs.rs:39-43 | with each drop as one step, a path is in the map exactly while somebody holds or waits for it |
| KeyLocks.CloseKeepsPathIff | src/backend/fs.rs:73-82 | a leaving entry takes its path along exactly when no other entry refers to the same lock |
| KeyLocks.PathLeftBehindIff | src/backend/fs.rs:73-82 | a path stays behind for nobody exactly when other entries for its lock are left and all of them are in the middle of their own drops |
| KeyLocks.OverlappingDropsLeaveThePath | src/backend/fs.rs:73-82 | a run in which a holder and a waiter that gives up drop their entries at the same time, and the path stays in the map with nobody to remove it |
| KeyLocks.LeftBehindStays | src/backend/fs.rs:73-82 | a path left behind stays until somebody locks it, whatever happens to other paths |
| KeyLocks.NextEntryTidies | src/backend/fs.rs:73-82 | the next one to lock it takes it away, if alone |
| Base64Url.DecodeEncode | src/backend/fs.rs:280 | unpadded base64url decodes to the text it was made from |
| Base64Url.EncodeDecode | src/backend/fs.rs:453-458 | whatever decodes is the encoding of what it decodes to, so nothing else is ever read as a text |
| Base64Url.EncodeHasNoDot | src/backend/fs.rs:489 | an encoded text never holds the dot that names are split at |
| Base64Url.SymbolsAreTheAlphabet | src/backend/fs.rs:280 | the 64 symbols are those of section 5 of RFC 4648 |
| Base64Url.OneByte | src/backend/fs.rs:280 | one last byte becomes two symbols whose twelve bits are its eight and four zeros |
| Base64Url.TwoBytes | src/backend/fs.rs:280 | two last bytes become three symbols whose eighteen bits are their sixteen and two zeros |
| Base64Url.ThreeBytes | src/backend/fs.rs:280 | three bytes become four symbols of the same 24 bits, and the rest follows |
| SessionNames.MetadataNameIsInjective | src/backend/fs.rs:279-284 | the name of a metadata sidecar determines bucket, key and upload id |
| SessionNames.PartNameIsInjective | src/backend/fs.rs:241-243 | the name of a part file determines upload and part number |
| SessionNames.DecimalIsNumeral | src/backend/fs.rs:241-243 | a number is written in decimal digits that evaluate to it, without a leading zero |
| SessionNames.NameOfIsInjective | src/backend/fs.rs:241-289 | no two files of a data root share a name, of whatever kinds they are |
| SessionNames.ScannerReadsMarker | src/backend/fs.rs:470-472 | the scanner recovers the upload id from a session marker |
| SessionNames.ScannerReadsSidecar | src/backend/fs.rs:481-496 | the scanner recovers exactly the bucket, key and upload id an upload's sidecar was named for |
| SessionNames.ScannerReadsIff | src/backend/fs.rs:481-496 | any file name is read as an upload's sidecar exactly when it is the name of that sidecar |
| SessionNames.MarkerIff | src/backend/fs.rs:468-471 | any file name is read as a session marker exactly when it is the name of that marker |
| SessionNames.ScannerIgnoresPlainSidecar | src/backend/fs.rs:486-488 | an object's own sidecar is never taken for an upload's |
| SessionNames.PartsPrefixFindsParts | src/backend/s3.rs:1245-1258 | of all files of a data root, those that begin with an upload's part prefix are the parts of that upload |
| Hashing.HexIsInjective | src/backend/utils.rs:55-57 | a hexadecimal text gives its digest back |
| Hashing.HexSpells | src/backend/utils.rs:55-57 | two lower-case digits for each byte, the higher one first |
| Hashing.ConcatInOrder | src/backend/s3.rs:1167-1181 | pieces end to end keep their order and their bytes |
| Sessions.CompletionSucceedsIffReady | src/backend/s3.rs:1130-1191 | a completion succeeds exactly for the owner of an open session and a list of numbered, strictly ascending, present parts of which all but the last have 5 MiB |
| Sessions.IsUuidIff | src/backend/fs.rs:411-413 | the upload ids are exactly the printed forms of sixteen bytes, hyphenated in groups of 8, 4, 4, 4 and 12 lower-case digits |
| Sessions.CompletedObject | src/backend/s3.rs:1144-1219 | on success the object is the listed parts end to end, and the ETag answered and stored has one dash: before it the lower-case hex of the hash of the part hashes end to end, behind it the number of listed parts in decimal |
| Sessions.CompletionStopsAt | src/backend/s3.rs:1154-1189 | an admitted completion fails at the first part that is not numbered, ascending, present and large enough, with the error for what is wrong with that one |
| Sessions.CompletionConsumes | src/backend/s3.rs:1190 | exactly the parts before that one are gone then, and every other part file stays |
| Sessions.CompletionMovesAttributes | src/backend/s3.rs:1139-1142 | once admitted, the attributes given when the session was opened become those of the object, even where the completion then fails |
| Sessions.UploadAcceptedIff | src/backend/s3.rs:948-971 | a part is accepted exactly with a number of 1 to 10000, a body, and an open session of the caller's; it is answered with the lower-case hex of the hash of its bytes; no object changes |
| Sessions.FailedCompletionKeepsObjects | src/backend/s3.rs:1130-1195 | after a failure of any kind every object and every stored ETag is as it was |
| Sessions.AdmittedCompletionEndsSession | src/backend/s3.rs:1133-1138 | once a completion has been admitted, whether it then succeeds or fails, every later request for the session is denied |
| Sessions.RequestsKeepToTheirSession | src/backend/s3.rs:905-1264 | no multipart request changes a file of another session, or a sidecar of an object it was not sent for |
| Sessions.DashTellsComposite | src/backend/s3.rs:1341-1349 | a composite ETag holds a dash and a whole-object digest never does |
| SessionRuns.WellMadeAlways | src/backend/s3.rs:905-1264 | over every run of multipart requests, plain puts and deletes, each file of the data root is one of the known kinds, belongs to a session that was opened, and a session has one place |
| SessionRuns.SessionStaysOpen | src/backend/fs.rs:411-436 | from its creation until its owner completes or aborts it, a session is open to its owner and to nobody else, whatever multipart requests, puts and deletes come in between |
| SessionRuns.StoredEtagsFit | src/backend/s3.rs:883-890 | over every such run an ETag is stored exactly for what is an object, and is the hash of its bytes or the composite ETag of parts they are made of |
| SessionRuns.CompletedObjectIsWhatWasUploaded | src/backend/s3.rs:940-1206 | over every run: a completed object is the latest accepted body of each listed part, in ascending order of the numbers, under the ETag those bodies make: hex of the hash of their hashes, one dash, their number |
| SessionRuns.CompletedObjectHasAttributes | src/backend/s3.rs:914-927 | over every run: a completion sent for the session's place, whatever came between, leaves the object with the attributes given at creation |
| SessionRuns.ObjectsAreTheLatest | src/backend/s3.rs:809-1303 | over every run every place holds the body of the latest put or completion that succeeded there since its latest delete, and nothing if there is none |
| SessionRuns.AbortIsExact | src/backend/s3.rs:1236-1261 | an abort removes the session's marker, parts and the sidecar of the place it names, and changes no other file; of its own session only a sidecar for another place survives |
| SessionRuns.AbortInPlaceLeavesNothing | src/backend/s3.rs:1243-1261 | sent for the session's own bucket and key, an abort leaves none of the session's files |
| SessionRuns.ScannerReads | src/backend/fs.rs:463-497 | what the scanner makes of every kind of file |
| SessionRuns.ListingIsExact | src/backend/fs.rs:446-507 | on a data root the sessions have made, a listing is exactly the open sessions, each with its own bucket and key |
| Multipart.CopyPart | src/backend/s3.rs:1167-1181 | the chunk loop appends the whole part and hashes exactly its bytes, however reads cut it up |
| Multipart.CopyStream | src/backend/s3.rs:957-963 | hashing a body as it streams in gives the hash of the whole body |
| Multipart.DataRoot.AssembleParts | src/backend/s3.rs:1147-1191 | the parts loop consumes the parts before the first that is wrong and reports that one's error; with none wrong, it has written and hashed all parts, as the files stood before the loop |
| Multipart.DataRoot.CompleteMultipartUpload | src/backend/s3.rs:1118-1227 | the whole request does to objects and files what `Sessions.Complete` says, and answers with the composite ETag of the parts as they were uploaded |
| Multipart.DataRoot.CreateMultipartUpload | src/backend/s3.rs:905-937 | opening a session writes its marker and the sidecar that places it, and nothing else |
| Multipart.DataRoot.UploadPart | src/backend/s3.rs:940-975 | an accepted part replaces its own file by the streamed body and answers with its hash; a refused one changes nothing |
| Multipart.DataRoot.AbortMultipartUpload | src/backend/s3.rs:1230-1264 | the directory scan, in any order, removes what `Sessions.Abort` says |
| Multipart.DataRoot.ListMultipartUploads | src/backend/fs.rs:452-507 | whatever the order of the scan: one entry for each marker, ascending by id, with a place that a sidecar gives it if any does |
| Namespace.PutRefusedIff | src/backend/fs.rs:604-613 | without phantom directories, a put is refused exactly when a key is stored above or below the one it names |
| Namespace.DeleteFiles | src/backend/s3.rs:1281-1303 | a delete removes the file its key names and no other file, and the tree stays a tree |
| Namespace.PruneRemovesExactly | src/backend/s3.rs:1319-1329 | pruning removes exactly the directories on its way up that have nothing beneath them but each other |
| Namespace.ServeKeeps | src/backend/s3.rs:337-374 | no request changes the bytes of a key it does not name, and none leaves a phantom directory |
| Namespace.NoPhantomsAlways | src/backend/s3.rs:1306-1313 | after any puts and single or batch deletes, every directory below the bucket root has a file beneath it |
| Namespace.TreeIsFlatStore | src/backend/s3.rs:1306-1329 | over every run the tree holds just what a plain map from keys to bytes would, but that keys above or below a stored one are refused |
| Namespace.EmptyBucketIffNoKeys | src/backend/s3.rs:319-334 | the bucket directory is empty exactly when no key is left |
| Namespace.DeletingAllKeysEmptiesBucket | src/backend/s3.rs:351-374 | a batch delete of every key, in any order, leaves a bucket that can be deleted |
| Namespace.PlaceholderIsPruned | src/backend/s3.rs:1315-1318 | a folder put on purpose is removed when the last object in it is deleted |
| Namespace.FolderComesAndGoes | src/backend/s3.rs:1281-1298 | in any bucket without phantoms, a folder put where nothing was and deleted while empty goes with every directory made for it: the tree is as it was |
| Namespace.FolderWithEntriesStays | src/backend/s3.rs:1288-1297 | deleting a folder with anything in it changes nothing |
| BucketDir.Bucket.PutObject | src/backend/s3.rs:744-809 | a put to a bucket without phantoms keeps it so and does to the stored keys what a put to a plain map does; it fails its precondition exactly when the key or one below it is stored, and is refused exactly when a key above or below it is; folder keys make directories |
| BucketDir.Bucket.PruneEmptyDirs | src/backend/s3.rs:1319-1329 | the loop leaves the tree that pruning defines |
| BucketDir.Bucket.DeleteObject | src/backend/s3.rs:337-348 | a delete does to the stored keys what a delete from a plain map does and leaves no phantom; it reports a missing key exactly when neither the key nor one below it is stored |
| BucketDir.Bucket.DeleteObjects | src/backend/s3.rs:351-379 | a batch is its deletes one after another, takes just the named keys out of the store, leaves no phantom, and reports every key unless quiet |
| BucketDir.Bucket.DeleteBucket | src/backend/s3.rs:319-334 | a bucket without phantoms is deleted exactly when no key is left in it |
| FileWriters.LeftoversAreTmp | src/backend/fs.rs:200-214 | a restart finds exactly the temporary files by their names, and no other file of the data root |
| FileWriters.WholeFilesOnly | src/backend/fs.rs:568-621 | however writers interleave, are dropped or the server restarts, a destination is absent or holds one whole body, that of the latest finished writer |
| FileWriters.TmpFilesAreApart | src/backend/fs.rs:570-582 | live writers never share a temporary file |
| FileWriters.DroppedWriterLeavesNoTrace | src/backend/fs.rs:615-621 | dropping a writer removes its own temporary file and touches nothing else |
| FileWriters.WriterCanFinish | src/backend/fs.rs:604-612 | from any state of any run a writer fed the rest, flushed and renamed leaves its whole body at its destination, its temporary file is gone, and no other file differs |
| FileWriters.RenameIsWholeIffFlushed | src/backend/s3.rs:1192-1195 | the renamed file is the whole body exactly when nothing is left in the buffer |
| SyncPlan.QuotingDoesNotMatter | src/admin/sync/plan.rs:169-172 | whatever blanks and quotes surround a digest, it is read as the same digest |
| SyncPlan.PlainIff | src/admin/sync/plan.rs:169-179 | whatever blanks and quotes surround it, an ETag is a whole-object digest exactly when it has 32 hexadecimal digits of either case |
| SyncPlan.HexIgnoringCase | src/admin/sync/plan.rs:150 | digests compare equal exactly when they are of the same bytes |
| SyncPlan.CompositeIsNotPlain | src/admin/sync/plan.rs:174-179 | an ETag with a dash never counts as a whole-object digest |
| SyncPlan.CompositeEtagFallsThrough | src/admin/sync/plan.rs:142-155 | a composite ETag never decides: the verdict is the one without ETags |
| SyncPlan.NewAndChangedSkipsIff | src/admin/sync/plan.rs:121-167 | exactly when the default mode leaves an object alone; the saturating addition only matters for the least representable time |
| SyncPlan.OtherModesSkipIff | src/admin/sync/plan.rs:127-135 | one of the other modes skips exactly what exists, the other never skips |
| SyncPlan.ReasonsTell | src/admin/sync/plan.rs:127-166 | what each reason for a copy says of the two sides |
| SyncPlan.LaterNeverCopiesMore | src/admin/sync/plan.rs:157-166 | more clock skew allowed, or a later local copy, never makes the rule copy more |
| SyncPlan.NormalizedPrefix | src/admin/sync/mod.rs:174-179 | prefixes become empty or slash-ended and never absolute, and those in shape are left alone |
| SyncPlan.RemapIsInjective | src/admin/sync/engine.rs:459-468 | keys listed under the source prefix go to different destinations |
| SyncPlan.RemapRebases | src/admin/sync/engine.rs:459-468 | a key under the source prefix goes to the destination prefix followed by just what is behind the source prefix, and is refused exactly when that is empty, absolute or has a `.` or `..` part |
| SyncPlan.RemapCollidesIff | src/admin/sync/engine.rs:459-468 | two accepted keys meet exactly when one is the other with the source prefix in front and the other lacks it |
| SyncPlan.RemappedKeyStaysBelow | src/admin/sync/engine.rs:454-468 | a destination key lies strictly below its prefix, is not absolute, and has no `.` or `..` part |
| SyncRun.SoundAlways | src/admin/sync/engine.rs:49-123 | whatever is queued or in a worker's hands came out of the listing |
| SyncConservation.ConservedAlways | src/admin/sync/engine.rs:73-123 | at every step of every run, listed = copied + skipped + failed + queued + in hand + dropped |
| SyncConservation.NoLossWithoutCauseAlways | src/admin/sync/engine.rs:79-112 | nothing is dropped and no worker leaves early without a cancel request or a spent budget |
| SyncConservation.FinalCounts | src/admin/sync/engine.rs:113-123 | a finished run that was neither cancelled nor out of budget has copied, skipped or failed everything it listed |
| SyncConservation.RunGoesOnWithinBudget | src/admin/sync/engine.rs:79-104 | a run ends with listed objects unread only on a cancel request or when as many bytes are counted as the budget has |
| SyncConservation.ListingIsReadOrCapped | src/admin/sync/engine.rs:226-262 | and, unless listing fails, then only with the whole listing read or as many objects handed on as the cap has |
| SyncConservation.LandedBytesAreCounted | src/admin/sync/engine.rs:99-108 | at every step the bytes that have landed are those counted, those about to be, and those of copies reported failed or cancelled |
| SyncConservation.LandingsChangeTheDestination | src/admin/sync/engine.rs:277-350 | a destination key changes only by a landing, which leaves as many bytes there as are counted as landed |
| SyncConservation.BudgetBound | src/admin/sync/engine.rs:91-104 | the bytes that have landed never exceed the budget less one, plus what was in flight at the last check that passed, at most one copy for each worker, plus what landed for copies reported failed or cancelled |
| SyncConservation.PlainBudgetBound | src/admin/sync/engine.rs:91-104 | so where no such copy landed, they never exceed the budget less one plus one copy for each worker |
| SyncConservation.ZeroBudgetCopiesNothing | src/admin/sync/engine.rs:91-97 | a budget of zero copies nothing |
| SyncConservation.ObjectCapHolds | src/admin/sync/engine.rs:231-262 | no more objects are copied or skipped than the cap allows |
| SyncConservation.CancelStopsSoon | src/admin/sync/engine.rs:79-82 | after a cancel request nothing more is listed, and each worker finishes at most the copy it has begun |
| SyncTermination.NeverStuck | src/admin/sync/engine.rs:56-123 | in every state that is not final, some step other than a cancel request can be taken |
| SyncTermination.StepsLowerTheMeasure | src/admin/sync/engine.rs:73-123 | every step but a cancel request leaves less to do |
| SyncTermination.RunsAreBounded | src/admin/sync/engine.rs:49-123 | a run over a finite listing takes a bounded number of steps, however they interleave |
| SyncTermination.HoldingOnWouldHang | src/admin/sync/engine.rs:113-116 | were the parent to keep its handle on the receiver, a run could stop for ever with the lister waiting |
| SyncResume.InOnePlaceAlways | src/admin/sync/engine.rs:73-111 | a listed object is queued, with one worker or settled, and never in two places |
| SyncResume.NoneForgottenAlways | src/admin/sync/engine.rs:73-111 | no object handed to the workers is forgotten |
| SyncResume.TellsAlways | src/admin/sync/engine.rs:73-111 | at every step each destination is as it was at the start or holds the whole source object, and which of the two follows from where the object is |
| SyncResume.DoneIffLanded | src/admin/sync/engine.rs:329-349 | a destination is untouched until a step puts its object in place and holds the whole object from then on, whatever the copy is reported as |
| SyncResume.CancelledCopyCanLand | src/admin/sync/engine.rs:331-349 | a run in which a copy is cancelled, counted as dropped, and has changed the destination |
| SyncResume.CompletedIsFull | src/admin/sync/engine.rs:39-47 | without caps, a run is reported as completed exactly when it was a full one, and then everything listed was copied or skipped |
| SyncResume.FullRunResult | src/admin/sync/engine.rs:73-111 | a full run copies exactly the objects the rule picks, judged by what was there at the start |
| SyncResume.FullRunLeaves | src/admin/sync/plan.rs:121-167 | after a full run every listed key is there: with the source's bytes where it was missing or everything is overwritten, as it was where existing objects are skipped and it existed, and in the default mode one or the other as size, digest and time tell |
| SyncResume.RunsAreReported | src/admin/sync/engine.rs:39-47 | over every run: it is reported as failed when a page of the source could not be read, otherwise as cancelled when that was asked for, otherwise as failed or completed as some object failed or none did |
| SyncResume.ResumeEqualsOneRun | src/admin/sync/mod.rs:8-15 | a run stopped anywhere for whatever reason and then a full run leave the bytes of one full run at every key |
| SyncResume.DistinctListing | src/admin/sync/engine.rs:459-468 | distinct keys under the prefix go to distinct destinations, as the other results ask |
| SyncResume.CopiedIsUpToDate | src/admin/sync/plan.rs:133-166 | a copy that landed, with its own ETag, no earlier than its source's timestamp, give or take the skew, is recognised as up to date |
| SyncResume.FurtherRunCopiesNothing | src/admin/sync/mod.rs:8-15 | after a full run from a truthful source, a further run in either incremental mode copies nothing |
| SyncManager.SyncProgress.RecordError | src/admin/sync/mod.rs:224-233 | every failure counts, the first hundred are kept in order, and the flag says exactly when there were more |
| SyncManager.Manager.TryStart | src/admin/sync/mod.rs:356-370 | a run is refused exactly while some run is running, and then with that run |
| SyncManager.Manager.Finish | src/admin/sync/mod.rs:373-379 | finishing frees the slot, and the history is the latest ten final snapshots |
| Throttle.LoginThrottle.Attempt | src/admin/auth.rs:66-87 | an attempt answers and updates the streak as the throttle's step does; if checked it answers what the check said, a success leaves a fresh throttle, and a refusal leaves it as it was |
| Throttle.RefusedIff | src/admin/auth.rs:66-87 | over every history: an attempt is refused exactly when more than three checks have failed since the last success and the cooldown since the latest of them is not over, for just the rest of it |
| Throttle.ThreeFailuresAreFree | src/admin/auth.rs:89-93 | with at most three failures since the last success the next attempt is checked |
| Throttle.SuccessStartsAfresh | src/admin/auth.rs:77-80 | after an attempt that was checked and right, whatever follows is answered as by a fresh throttle |
| Throttle.CooldownShape | src/admin/auth.rs:89-98 | free for three failures, then 250 ms doubling for five, then five seconds |
| Throttle.CooldownNeverOverflows | src/admin/auth.rs:94-97 | no count of failures overflows the multiplication |
| Throttle.CooldownIsMonotone | src/admin/auth.rs:89-98 | more failures never mean a shorter wait, and five seconds is the most |
| Throttle.RefusalIsShortAndHarmless | src/admin/auth.rs:71-74 | after any history, a refusal asks for at most five seconds and changes nothing |
| Throttle.ChecksAreSpaced | src/admin/auth.rs:76-86 | between two checks of a streak lies the cooldown the first of them opened |
| Throttle.GuessingIsSlow | src/admin/auth.rs:66-98 | for n of nine and more, the n-th credential check between successes comes at least 7750 + 5000 (n - 9) ms after the first, however many attempts arrive, when, and with whatever credentials |
| Throttle.BoundIsExact | src/admin/auth.rs:66-98 | the bound is exact: a patient guesser is checked every time |

## Left out

- ListObjectsV2: requires that cutting a key behind the delimiter's first byte cuts no character in two; the program panics there, which is not modelled.
- ListObjectsV2: where an object and a common prefix share a key the page is given as the merge of the two lists; which pages then lose something is shown for one bucket of each such delimiter.
- ReadsBetweenWritesAreRight: assumes no write is given up between its two steps; `ReadsAreRightIff` does not.
- BudgetBound: bytes that land for copies reported failed or cancelled are a term of the bound, as the program does not count them against the budget.
- FullRunResult, ResumeEqualsOneRun: keys are taken to be normal, so that different keys are different files; a destination in the way of another (`a` and `a/b`) shows as a failed copy.
- FurtherRunCopiesNothing: folder placeholders, whose timestamp does not change when they are put again.
- Put requests that fail their digest or checksum check, which happens after the rename, and checksums altogether.
- `copy_object`, which writes its destination in place, and `upload_part_copy`.
- Resolving `.`, `..`, doubled slashes and keys that escape their bucket: keys are assumed normal where it matters.
- Parsing an upload id: it comes in as its canonical text, or as absent when it cannot be parsed.
- A completion whose object path is held by a directory or lies below a file: it fails at the rename, after the parts are consumed.
- Attributes: a text that is moved, never interpreted; the fallback to the older format; the time a session was opened.
- File names that are not UTF-8 in the data root, symbolic links, inode reuse, I/O errors and full disks.
- The wrap-around of the temporary-file counter and of the progress counters at 64 bits.
- White space outside ASCII around an ETag.
- Listing entries without a key, the client, the destination bucket's creation and the first probe of the source; the preview.
- A copy whose declared length differs from its body.
- `current_key` among several workers, timestamps of runs, and the fields of a request.
- `ListParts`, `ListBuckets`, `GetObject` beyond its ETag, preconditions, ranges and response headers.
- Settings, the admin panel, presigned URLs, cookies, the archive handler: nothing there is as hard.
