# SecureDoc Manager — a Dafny model of its client core

SecureDoc Manager is a progressive web app that stores personal documents for a
signed-in user. This project models the parts of it that make decisions, as pure
functions over explicit inputs, and proves what they promise:

- the document-encryption envelope around WebCrypto (`Encryption`): IV and salt
  draws, the stored metadata record, the blob round trip and the per-user key.
  AES-GCM, PBKDF2 and the UTF-8 encoder are fields of a `Provider`. The AEAD
  facts of NIST SP 800-38D and the output length of PBKDF2 (section 5.2 of
  RFC 8018) are the predicate `Sound`, which the round-trip lemmas assume. A toy
  provider shows that `Sound` can be met. Random bytes come from an explicit
  stream `Rng`;
- file validation, storage naming and small text helpers (`Helpers`), and the
  fixed tables (`Constants`, `Types`). Object-literal lookups that can reach
  `Object.prototype` members are modelled as such;
- the progress and toast lists (`Progress`, `Toast`);
- the document list's filter, sort and sort-header state, and its delete steps
  (`DocumentsList`);
- grouping, filter merging and fetch/mutation state in the documents hook
  (`UseDocuments`);
- what a document card shows (`DocumentCard`);
- the upload handler: its gate, storage path, progress sequence and rollback
  (`MainApp`);
- the service worker's bypass, caching and cache purge (`ServiceWorker`);
- the two install prompts (`NotificationPrompt`, `PWAInstallPrompt`, over the
  storage helpers of `LocalStorage`);
- the health endpoint's decision order (`Health`).

Backend answers, the clock, random draws and the user's clicks are parameters.
A handler that talks to the backend is modelled as the sequence of steps it takes
(`Progress.Step`), either progress calls or its own actions. Lemmas then replay
those steps on the progress list.

`Wrappers`, `Text`, `Lists` and `Sorting` hold the shared vocabulary:
- `Option`/`Result`, thrown values and JavaScript truthiness;
- prefix, suffix and substring tests; `split` segments; `trim`;
- decimal rendering and `parseInt`;
- filtering;
- a stable insertion sort.

`decryptBlob` never reads the stored `algorithm` field: it always decrypts with
AES-GCM, and `Encryption.DecryptBlob` does the same.

## Model

| member | source | states |
|---|---|---|
| Encryption.GenerateIV | src/utils/encryption.ts:92-94 | twelve bytes, taken from the next twelve positions of the random stream, which moves past them |
| Encryption.GenerateSalt | src/utils/encryption.ts:85-87 | sixteen bytes, taken from the next sixteen positions of the random stream |
| Encryption.GenerateKey | src/utils/encryption.ts:27-40 | an extractable 256-bit AES-GCM key for encrypt and decrypt; its raw export equals its material, drawn from the stream |
| Encryption.ImportKey | src/utils/encryption.ts:72-80 | raw bytes of an AES size become a non-extractable encrypt/decrypt key with exactly those bytes; other sizes fail |
| Encryption.UsedKey | src/utils/encryption.ts:102-106 | the key given, or else a freshly generated one that consumes the stream |
| Encryption.Rethrow | src/utils/encryption.ts:131-134 | the rethrown error is an Error whose message is the prefix plus the cause's message, or "Unknown error" for a non-Error |
| Encryption.EncryptFile | src/utils/encryption.ts:99-135 | on success the IV is 12 and the salt 16 fresh bytes, drawn after the key; success iff the read and the cipher succeed; any failure carries the "Failed to encrypt file: " prefix |
| Encryption.DecryptFile | src/utils/encryption.ts:140-157 | succeeds iff the cipher does with the stored IV; a failure is rethrown with "Failed to decrypt file: " |
| Encryption.EncryptThenDecrypt | src/utils/encryption.ts:116-150 | under the AEAD facts, decrypting with the key used gives back the plaintext |
| Encryption.CiphertextLength | src/utils/encryption.ts:116-124 | the ciphertext is the plaintext plus 16 bytes of tag |
| Encryption.FreshIVs | src/utils/encryption.ts:109-110 | two successive encryptions draw from disjoint stretches of the stream |
| Encryption.NumbersRoundTrip | src/utils/encryption.ts:203-204 | `new Uint8Array(Array.from(bytes))` gives back the same bytes, so the stored IV is the one used |
| Encryption.ToNumbers | src/utils/encryption.ts:167-168 | `Array.from` of the bytes keeps the length, and each entry is the byte value, in [0, 256) |
| Encryption.FromNumbers | src/utils/encryption.ts:203-204 | each stored number becomes a byte congruent to it mod 256, and a byte-range number is kept as it is |
| Encryption.BlobMetadata | src/utils/encryption.ts:166-175 | the record carries the IV and salt as numbers, algorithm "AES-GCM", the file's name, type and size, and encrypted = true |
| Encryption.CreateEncryptedBlob | src/utils/encryption.ts:162-190 | as written: an octet-stream blob of the ciphertext plus the metadata; the returned key is the export of a second generated key |
| Encryption.ReturnedKeyIsSecondDraw | src/utils/encryption.ts:183-187 | the returned key's bytes come from positions 60-91 of the stream, and the encrypting key's from 0-31 |
| Encryption.ReturnedKeyFails | src/utils/encryption.ts:183-189 | for a concrete sound provider and stream, the returned key fails to decrypt the returned blob |
| Encryption.CreateEncryptedBlobFixed | src/utils/encryption.ts:162-190 | corrected: the returned key is the one that encrypted |
| Encryption.FixedReturnedKeyDecrypts | src/utils/encryption.ts:182-211 | with the correction, the returned key decrypts the blob back to the file's bytes and type |
| Encryption.DecryptBlob | src/utils/encryption.ts:195-216 | decrypts with the IV rebuilt from the metadata; the type is `originalType`, or octet-stream when that is missing or empty; failures carry "Failed to decrypt document: " on top of the inner prefix |
| Encryption.BlobRoundTrip | src/utils/encryption.ts:162-211 | under the AEAD facts, the blob and metadata from `createEncryptedBlob` decrypt, with the key that encrypted, to the file's bytes and type |
| Encryption.ToyProviderSound | src/utils/encryption.ts:116-124 | the assumed AEAD facts are consistent: a concrete provider meets them |
| Encryption.DeriveKeyFromPassword | src/utils/encryption.ts:45-67 | PBKDF2 with SHA-256 and 100000 iterations gives a non-extractable 256-bit encrypt/decrypt key |
| Encryption.GenerateUserKey | src/utils/encryption.ts:245-270 | a non-extractable 256-bit AES-GCM key for encrypt/decrypt, derived from the user id alone |
| Encryption.UserKeyIsPasswordKey | src/utils/encryption.ts:247-266 | the user key is the password key for "<id>-encryption-key-material" under the salt "securedoc-<id>-encryption-salt-v1" |
| Encryption.UserKeySize | src/utils/encryption.ts:266 | the user key has 32 bytes |
| Encryption.UserInputsDistinct | src/utils/encryption.ts:247-252 | different user ids give different passwords and different salts |
| Encryption.UserKeyRoundTrip | src/utils/encryption.ts:245-270 | a document encrypted under a user's key decrypts under that key when it is derived again |
| Constants.PropertyLookup | src/utils/constants.ts:88-90 | `table[key]` is the own entry, an inherited `Object.prototype` member, or undefined |
| Constants.GetDocumentCategory | src/utils/constants.ts:88-90 | a union member's entry for a known key; undefined for any other non-inherited string |
| Constants.CategoryTableIsUnion | src/utils/constants.ts:1-82 | the table's 16 keys are exactly the members of the `DocumentCategory` union |
| Constants.SupportedFileTypesSize | src/utils/constants.ts:92-104 | the file-type table has eight entries |
| Constants.SupportedExtensionsDistinct | src/utils/constants.ts:92-104 | no two types share an extension |
| Constants.SupportedSizeLimits | src/utils/constants.ts:93-103 | PDF 25 MiB, GIF 5 MiB, text/plain 1 MiB, every other type 10 MiB |
| Constants.SupportedSizeBound | src/utils/constants.ts:93-103 | no limit exceeds 25 MiB |
| Constants.SupportedTypesAreOwnNames | src/utils/constants.ts:92-104 | no supported type is the name of an `Object.prototype` member, so the table's own entries are never shadowed |
| Types.CategoryKeyRoundTrip | src/types/index.ts:20-36 | each category's stored string parses back to that category |
| Types.ParseCategory | src/types/index.ts:20-36 | a string is accepted only as the stored key of the category it yields |
| Helpers.ValidateFile | src/utils/helpers.ts:13-29 | valid iff there are no errors, and never more than one; an unsupported type gives exactly "File type X is not supported"; a supported type is invalid iff its size exceeds its limit |
| Helpers.ValidateFileAsWritten | src/utils/helpers.ts:16-22 | as written: agrees with `ValidateFile` except on inherited member names, which it accepts |
| Helpers.InheritedTypeAccepted | src/utils/helpers.ts:16-22 | a file of type "constructor" passes at any size, and the corrected validator rejects it |
| Helpers.FileIcon | src/utils/helpers.ts:31-37 | picture iff an `image/` prefix; memo iff not an image, not PDF and containing "word"; clipboard iff exactly text/plain; otherwise a page |
| Helpers.Stem | src/utils/helpers.ts:42 | only a final ".xxx" is removed, with xxx non-empty and free of '.' and '/'; otherwise the name is kept whole |
| Helpers.Sanitize | src/utils/helpers.ts:43 | same length; every character is in [A-Za-z0-9_-]; safe characters are kept and every other one becomes '_' |
| Helpers.SanitizeIdempotent | src/utils/helpers.ts:43 | sanitising twice is sanitising once |
| Helpers.GenerateFileName | src/utils/helpers.ts:39-46 | the name is the time stamp, '_', the sanitised stem, '.' and the original's last '.'-segment: it starts with the first four, is exactly as long as the four plus that segment, ends in '.' and the segment, and its last '.'-segment is the original's; between stamp and extension it holds only safe characters |
| Helpers.TruncateText | src/utils/helpers.ts:79-82 | unchanged when no longer than the limit; otherwise the first `maxLength` characters and "..." |
| Helpers.CapitalizeFirst | src/utils/helpers.ts:75-77 | same length; the first character upper-cased; the rest unchanged |
| Helpers.CapitalizeFirstIdempotent | src/utils/helpers.ts:75-77 | capitalising twice is capitalising once |
| Progress.AddProgress | src/contexts/ProgressContext.tsx:37-49 | exactly one item appended after the unchanged list, with the returned id, progress 0 and status 'pending' |
| Progress.Updated | src/contexts/ProgressContext.tsx:54 | id, type and file name are kept; progress and error are overwritten; the status is kept when none is passed |
| Progress.UpdateProgress | src/contexts/ProgressContext.tsx:51-57 | same length; items of other ids are unchanged; matching items become `Updated` |
| Progress.UpdateAbsent | src/contexts/ProgressContext.tsx:51-57 | updating an absent id changes nothing |
| Progress.UpdateIdempotent | src/contexts/ProgressContext.tsx:51-57 | repeating an update changes nothing more |
| Progress.UpdateTwice | src/contexts/ProgressContext.tsx:51-57 | a later update with a status overrides the earlier one entirely |
| Progress.RemoveProgress | src/contexts/ProgressContext.tsx:59-61 | no remaining item has the id |
| Progress.RemoveOrder | src/contexts/ProgressContext.tsx:59-61 | removal works piece by piece on a split list, and a single item stays iff its id differs, so the kept items keep their order |
| Progress.RemoveMember | src/contexts/ProgressContext.tsx:59-61 | an item remains iff it was there and has another id |
| Progress.RemoveAbsent | src/contexts/ProgressContext.tsx:59-61 | removing an absent id changes nothing |
| Progress.RemoveIdempotent | src/contexts/ProgressContext.tsx:59-61 | removing twice is removing once |
| Progress.RemoveAfterAdd | src/contexts/ProgressContext.tsx:37-61 | removing an item just added under a fresh id restores the list |
| Progress.RemoveAfterUpdate | src/contexts/ProgressContext.tsx:51-61 | an update never changes ids, so removal afterwards removes the same items |
| Progress.ClearCompleted | src/contexts/ProgressContext.tsx:63-65 | only 'pending' and 'processing' items remain |
| Progress.ClearCount | src/contexts/ProgressContext.tsx:63-65 | every occurrence of an active item is kept, and no finished one |
| Progress.ClearIdempotent | src/contexts/ProgressContext.tsx:63-65 | clearing twice is clearing once |
| Progress.ClearOrder | src/contexts/ProgressContext.tsx:63-65 | clearing works piece by piece on a split list, and a single item stays iff it is active, so the kept items keep their order |
| Progress.ClearAllActive | src/contexts/ProgressContext.tsx:63-65 | a list with nothing finished is unchanged |
| Progress.Track | src/contexts/ProgressContext.tsx:51-57 | a run of updates keeps the item's id, type and file name |
| Progress.TrackLast | src/contexts/ProgressContext.tsx:54 | after a run of updates, progress and error are the last update's, and the status is the last one given |
| Progress.ReplayLast | src/contexts/ProgressContext.tsx:37-57 | replaying a run of updates on a fresh item at the end of the list changes only that item, into its tracked state |
| Progress.ReplayFresh | src/contexts/ProgressContext.tsx:37-57 | adding an item under a fresh id and then updating it leaves every other item as it was |
| Toast.AddToast | src/contexts/ToastContext.tsx:33-44 | one toast appended with the message and type, duration defaulting to 5000; removal is scheduled iff the duration is positive |
| Toast.RemoveToast | src/contexts/ToastContext.tsx:46-48 | no remaining toast has the id |
| Toast.RemoveOrder | src/contexts/ToastContext.tsx:46-48 | removal works piece by piece on a split list, and a single toast stays iff its id differs, so the remaining toasts keep their order |
| Toast.RemoveMember | src/contexts/ToastContext.tsx:46-48 | a toast remains iff it was there and has another id |
| Toast.RemoveAbsent | src/contexts/ToastContext.tsx:46-48 | removing an absent id changes nothing |
| Toast.RemoveIdempotent | src/contexts/ToastContext.tsx:46-48 | removing twice is removing once |
| Toast.ExpiryRemovesOnlyItself | src/contexts/ToastContext.tsx:33-48 | the expiry timer removes its own toast and leaves every other toast in place |
| DocumentsList.Matches | src/components/documents/DocumentsList.tsx:123-127 | decides the filter: the lower-cased name contains the lower-cased query, and the category filter is empty or equal to the document's |
| DocumentsList.EmptyFilterMatchesAll | src/components/documents/DocumentsList.tsx:124-125 | with an empty query and no category, every document matches |
| DocumentsList.LexCompare | src/components/documents/DocumentsList.tsx:135 | the name comparison is -1, 0 or 1 |
| DocumentsList.LexAntisymmetric | src/components/documents/DocumentsList.tsx:135 | swapping the names negates the name comparison |
| DocumentsList.LexZero | src/components/documents/DocumentsList.tsx:135 | two names compare equal iff they are the same |
| DocumentsList.LexTransitive | src/components/documents/DocumentsList.tsx:135 | "not after" on names is transitive |
| DocumentsList.Comparison | src/components/documents/DocumentsList.tsx:131-143 | by name the comparison is -1, 0 or 1 and zero exactly on equal names; by size and by date it is negative exactly when the first is smaller and zero exactly on a tie |
| DocumentsList.Compare | src/components/documents/DocumentsList.tsx:130-147 | ascending uses the key's comparison and descending negates it |
| DocumentsList.CompareAntisymmetric | src/components/documents/DocumentsList.tsx:130-147 | the comparator is antisymmetric for every key and direction |
| DocumentsList.PrecedesTotal | src/components/documents/DocumentsList.tsx:130-147 | any two documents can be ordered |
| DocumentsList.PrecedesTransitive | src/components/documents/DocumentsList.tsx:130-147 | the induced order is transitive |
| DocumentsList.FilteredAndSorted | src/components/documents/DocumentsList.tsx:122-150 | the result is a permutation of the matching documents, so never longer than the list |
| DocumentsList.ListedMember | src/components/documents/DocumentsList.tsx:123-127 | a document is listed iff it is in the list, its lower-cased name contains the lower-cased query, and the category filter is empty or equal |
| DocumentsList.ListedCount | src/components/documents/DocumentsList.tsx:122-150 | a matching document is listed as often as it occurs, and others not at all |
| DocumentsList.EmptyFilterListsAll | src/components/documents/DocumentsList.tsx:124-125 | with an empty filter, the list is a permutation of all documents |
| DocumentsList.ListedSorted | src/components/documents/DocumentsList.tsx:130-147 | no listed document comes after one the comparator puts after it |
| Sorting.SortStable | src/components/documents/DocumentsList.tsx:130-147 | for a transitive comparison, the elements that tie with any `k` keep their input order in the sorted result |
| DocumentsList.ListedStable | src/components/documents/DocumentsList.tsx:129-150 | documents the comparator ties are listed in the order they have among the matching documents |
| DocumentsList.HandleSortChange | src/components/documents/DocumentsList.tsx:152-159 | the same key flips the direction; a different key switches to it, descending |
| DocumentsList.SortChangeTwice | src/components/documents/DocumentsList.tsx:152-159 | two clicks on the current key restore the state |
| DocumentsList.SortChangeReaches | src/components/documents/DocumentsList.tsx:152-159 | at most two clicks reach either direction for any key |
| DocumentsList.HandleDelete | src/components/documents/DocumentsList.tsx:93-119 | the delete item is added first, then set to 20 'processing'; the stored object is removed third |
| DocumentsList.DeleteOrder | src/components/documents/DocumentsList.tsx:99-112 | the row is deleted only after the object removal, and only if that succeeded |
| DocumentsList.DeleteUpdates | src/components/documents/DocumentsList.tsx:96-118 | after the add, every progress call of a delete is an update |
| DocumentsList.DeleteProgress | src/components/documents/DocumentsList.tsx:94-118 | the item ends at 100 'success', or at 0 'error' with "Failed to delete document"; other items are untouched |
| DocumentsList.DeleteCalls | src/components/documents/DocumentsList.tsx:94-117 | the progress calls are one add, followed only by updates |
| UseDocuments.InCategory | src/hooks/useDocuments.ts:107-111 | every document in a group has that group's category |
| UseDocuments.Group | src/hooks/useDocuments.ts:107-111 | corrected: no group is empty |
| UseDocuments.GroupIsFilter | src/hooks/useDocuments.ts:107-111 | corrected: a group exists iff some document has that category, and it holds those documents in list order |
| UseDocuments.GroupsNonEmpty | src/hooks/useDocuments.ts:107-111 | no group is empty |
| UseDocuments.GroupCount | src/hooks/useDocuments.ts:107-111 | each document is in its category's group as often as it is in the list |
| UseDocuments.GroupAsWritten | src/hooks/useDocuments.ts:107-111 | as written: when the reduce does not throw, no document's category and no group key names an inherited member, and every document's category has a group |
| UseDocuments.GroupAsWrittenAgrees | src/hooks/useDocuments.ts:107-111 | as written: the reduce throws iff a category names an inherited member, and otherwise equals the corrected grouping |
| UseDocuments.GroupAsWrittenThrows | src/hooks/useDocuments.ts:108-109 | a document of category "constructor" makes the reduce throw |
| UseDocuments.UpdateFilter | src/hooks/useDocuments.ts:41-43 | each field present in the patch wins; every other field is kept |
| UseDocuments.UpdateEmpty | src/hooks/useDocuments.ts:41-43 | an empty patch changes nothing |
| UseDocuments.UpdateIdempotent | src/hooks/useDocuments.ts:41-43 | applying a patch twice is applying it once |
| UseDocuments.UpdateCompose | src/hooks/useDocuments.ts:41-43 | two patches in a row are one patch with the later fields winning |
| UseDocuments.FetchDocuments | src/hooks/useDocuments.ts:12-28 | success replaces the documents (with [] for no data) and clears the error; otherwise the documents are kept and the error is the response's error or the fallback text, or the thrown message |
| UseDocuments.Mutate | src/hooks/useDocuments.ts:47-105 | only a success refetches; a failed response sets its error or the fallback text; a throw sets the message and returns an error response; loading ends false |
| UseDocuments.UploadDocument | src/hooks/useDocuments.ts:47-65 | a failed upload shows its error, or "Upload failed" |
| UseDocuments.DeleteDocument | src/hooks/useDocuments.ts:67-85 | a failed delete shows its error, or "Delete failed" |
| UseDocuments.UpdateDocument | src/hooks/useDocuments.ts:87-105 | a failed update shows its error, or "Update failed" |
| UseDocuments.MutationKeepsDocumentsUnlessSuccess | src/hooks/useDocuments.ts:51-57 | the documents change only through the refetch after a success |
| UseDocuments.MutationFailureShowsError | src/hooks/useDocuments.ts:54-61 | after any failed mutation an error is set, and a failed response's error is non-empty |
| DocumentCard.CardIcon | src/components/documents/DocumentCard.tsx:32-38 | picture iff an `image/` prefix; memo iff not an image, not PDF and containing "word"; clipboard iff additionally it contains "text" |
| DocumentCard.IconTablesDiffer | src/components/documents/DocumentCard.tsx:36 | the card and helper icon tables differ exactly on non-image, non-"word" types that contain "text" but are not text/plain: clipboard against page |
| DocumentCard.CsvIconsDiffer | src/components/documents/DocumentCard.tsx:36 | text/csv gets the clipboard on the card and the page in the helpers |
| DocumentCard.TypeLabel | src/components/documents/DocumentCard.tsx:69 | the upper-cased segment after the first '/', or "FILE" when the type or that segment is missing or empty; never empty |
| DocumentCard.PreviewOf | src/components/documents/DocumentCard.tsx:46-71 | the encrypted preview iff an image that is encrypted; the file URL iff an image that is not; an icon and type label iff not an image, the icon being the card's icon for the type or for "" when it is missing, so a page |
| DocumentCard.CategoryBadge | src/components/documents/DocumentCard.tsx:85 | the table's label for a known category, else the category string itself |
| DocumentCard.UnitIndex | src/components/documents/DocumentCard.tsx:19 | `floor(log(bytes)/log(1024))` is the index i with 1024^i <= bytes < 1024^(i+1) |
| DocumentCard.FormatFileSize | src/components/documents/DocumentCard.tsx:15-21 | zero is "0 Bytes"; below 1024 it is the byte count and " Bytes"; otherwise it is exactly the rounded number, a space and the unit `sizes[i]` for the unit index (pinned by prefix, suffix and length) |
| DocumentCard.SizeHundredths | src/components/documents/DocumentCard.tsx:20 | the printed number is `bytes / 1024^i` rounded to the nearest hundredth, upward on a tie |
| DocumentCard.FormatFileSizeUnit | src/components/documents/DocumentCard.tsx:18-20 | sizes from 1024 print in KB, from 1024^2 in MB, from 1024^3 in GB, and from 1024^4 with the unit "undefined" |
| DocumentCard.FormatFileSizeExamples | src/components/documents/DocumentCard.tsx:15-21 | 1536 bytes read "1.5 KB" and 1048576 read "1 MB" |
| MainApp.IncludesIff | src/components/MainApp.tsx:27 | `includes` finds exactly the list's members |
| MainApp.AllowListIsTable | src/components/MainApp.tsx:26 | the handler's allow-list is exactly the key set of the supported-types table |
| MainApp.Admitted | src/components/MainApp.tsx:19-27 | decides the gate: a signed-in user, a size of at most 25 MiB and a type on the allow-list |
| MainApp.AdmittedIff | src/components/MainApp.tsx:19-27 | for a signed-in user, an upload starts iff the type is supported and the size is at most 25 MiB |
| MainApp.ValidImpliesAdmitted | src/components/MainApp.tsx:24-27 | every file the validator accepts passes the gate |
| MainApp.GateAdmitsInvalid | src/components/MainApp.tsx:24-27 | a 2 MiB text/plain file passes the gate but fails the validator |
| MainApp.StoragePath | src/components/MainApp.tsx:35-36 | the object path: the user's folder, the time stamp, '.', and the name's last '.'-segment |
| MainApp.StoragePathParts | src/components/MainApp.tsx:35-36 | the path starts with "<userId>/", the time stamp follows, and its last '.'-segment is the file name's |
| MainApp.CaughtMessage | src/components/MainApp.tsx:86 | the message is never empty: the error's message, or "Upload failed" |
| MainApp.UploadError | src/components/MainApp.tsx:46-76 | no error iff upload, auth lookup and insert all succeed; otherwise the first failure with its prefix |
| MainApp.Row | src/components/MainApp.tsx:56-66 | the owner is the auth user's id, else the signed-in id; an empty type becomes octet-stream; the other fields are the file's, path and URL |
| MainApp.HandleFileUpload | src/components/MainApp.tsx:18-90 | nothing at all happens iff the gate refuses; otherwise the steps of an admitted upload |
| MainApp.Upload | src/components/MainApp.tsx:29-89 | the item is added, loading is set, the object is stored at the storage path, and loading is cleared last |
| MainApp.AfterStoreRemoval | src/components/MainApp.tsx:74-77 | the stored object is removed iff upload and auth succeeded and the insert failed |
| MainApp.AfterStoreShown | src/components/MainApp.tsx:79-80 | the page switches to documents iff every call succeeded |
| MainApp.AfterStoreInsert | src/components/MainApp.tsx:50-66 | after the upload a row is inserted iff the upload and the auth lookup succeeded, and that row is `Row` |
| MainApp.AfterStoreRefresh | src/components/MainApp.tsx:46-83 | after the upload a refresh is scheduled iff every call succeeded |
| MainApp.UploadOrder | src/components/MainApp.tsx:69-77 | on an insert failure, the removal directly follows the insert |
| MainApp.AfterStoreOrder | src/components/MainApp.tsx:69-77 | after a successful upload and auth lookup the insert of the modelled row is the third action, and on its failure the removal of the stored object follows directly |
| MainApp.UploadOutcome | src/components/MainApp.tsx:39-83 | a row is inserted iff upload and auth succeeded, and it is `Row`; the object is removed iff the insert then failed; the page switches and a refresh is scheduled iff all succeeded |
| MainApp.UploadUpdates | src/components/MainApp.tsx:33-86 | the progress calls after the add are all updates |
| MainApp.SuccessProgressIncreasing | src/components/MainApp.tsx:33-79 | on success the progress runs 10, 30, 70, 90, 100, strictly increasing, ending 'success' |
| MainApp.UploadCalls | src/components/MainApp.tsx:29-86 | the progress calls of an upload are one add followed by its updates |
| MainApp.UploadProgress | src/components/MainApp.tsx:29-86 | the item ends at 100 'success', or at 0 'error' with the error message; other items are untouched |
| ServiceWorker.Bypassed | public/sw.js:76-90 | decides the bypass: a non-GET request, a chrome-extension URL, or a host containing supabase.co, supabase.in, firebase.com or googleapis.com |
| ServiceWorker.ShouldCache | public/sw.js:146-165 | decides `shouldCache`: an asset path, an `Accept` header containing text/html, or one of the two font hosts |
| ServiceWorker.AssetPathIsExtension | public/sw.js:150 | the asset pattern matches iff the path has a '.' and its last segment is one of the twelve extensions |
| ServiceWorker.HandleFetch | public/sw.js:72-130 | bypassed iff non-GET, a chrome-extension URL or a backend host; a hit is returned, with a background refresh for HTML; a miss answers from the network and caches it iff status 200 and `shouldCache`, with no other effect; a network failure falls back to '/' for navigations and is rethrown otherwise |
| ServiceWorker.UpdateCache | public/sw.js:133-143 | the runtime cache is written iff the network answers 200 |
| ServiceWorker.RefreshWritesCacheable | public/sw.js:133-165 | every background-refresh write is a 200 answer to a request that `shouldCache` accepts |
| ServiceWorker.GoogleapisFontsBypassed | public/sw.js:88-90 | requests to fonts.googleapis.com are always bypassed |
| ServiceWorker.GstaticFontsHandled | public/sw.js:76-90 | a GET over https to fonts.gstatic.com is handled and is cacheable |
| ServiceWorker.FontRuleReachesOnlyGstatic | public/sw.js:87-90 | among handled requests, the font rule applies only to fonts.gstatic.com |
| ServiceWorker.StaleCaches | public/sw.js:55-58 | no deleted cache is a current one |
| ServiceWorker.StaleMember | public/sw.js:55-63 | a cache is deleted iff it exists and is neither `CACHE_NAME` nor `RUNTIME_CACHE` |
| ServiceWorker.ActivationIdempotent | public/sw.js:55-63 | after one activation there is nothing left to delete |
| LocalStorage.Get | src/components/layout/NotificationPrompt.tsx:51-52 | `getItem` is the stored value iff the key is present |
| LocalStorage.DismissedWithin | src/components/layout/NotificationPrompt.tsx:56-61 | a recent dismissal needs a stored non-empty value that parses to a number less than the window before now; for such a value it holds exactly when that much time has not passed |
| LocalStorage.NaNNeverSuppresses | src/components/layout/NotificationPrompt.tsx:57-61 | a stored value that `parseInt` reads as NaN never counts as a recent dismissal |
| LocalStorage.StampRoundTrip | src/components/layout/NotificationPrompt.tsx:57-61 | a time stamp written with `toString` counts exactly while less than the window has passed |
| NotificationPrompt.Mount | src/components/layout/NotificationPrompt.tsx:21-121 | standalone shows nothing; an installed app in a browser gets 'open' unless dismissed within 24 h; otherwise 'install' unless dismissed within 7 days |
| NotificationPrompt.AppInstalled | src/components/layout/NotificationPrompt.tsx:97-103 | installed, hidden, prompt dropped, and "pwa-was-installed" stored as "true" with no other key changed |
| NotificationPrompt.InstalledThenOpenOffered | src/components/layout/NotificationPrompt.tsx:97-103 | after installing from a tab, the next browser mount offers 'open' unless that was dismissed within 24 h |
| NotificationPrompt.HandleDismiss | src/components/layout/NotificationPrompt.tsx:265-274 | hidden and dismissed; now is stored under the install key for 'install' and under the open key for 'open' |
| NotificationPrompt.HandleInstallClick | src/components/layout/NotificationPrompt.tsx:123-246 | every path hides the banner and none dismisses; with a held prompt, an acceptance marks the app installed and stores "pwa-was-installed", either answer drops the prompt, and an error changes storage not at all; without one, the attempt time is stored and the synthetic event leaves a held prompt for 'install' |
| NotificationPrompt.InstallClickKeepsSuppression | src/components/layout/NotificationPrompt.tsx:123-146 | an install click changes neither banner's suppression on a later mount, and after an acceptance a browser tab with a service worker sees an installed app |
| NotificationPrompt.HandleOpenInApp | src/components/layout/NotificationPrompt.tsx:248-263 | hides and dismisses; without `navigator.share` the banner switches to 'install'; the dismissal is stored exactly as `handleDismiss` stores it for the kind shown before the switch |
| NotificationPrompt.OpenInAppDismissesOpen | src/components/layout/NotificationPrompt.tsx:248-274 | on the 'open' banner without sharing, the banner becomes 'install' while 'open' is suppressed iff less than 24 hours have passed and the 'install' suppression is unchanged |
| NotificationPrompt.HandleLater | src/components/layout/NotificationPrompt.tsx:276-287 | hidden; the reminder waits 30 min for 'install' and 60 for 'open'; it reshows iff not standalone and the kind is 'open' or a prompt is held |
| NotificationPrompt.Visible | src/components/layout/NotificationPrompt.tsx:299-306 | decides the render gate: not standalone, not dismissed, and the banner is switched on |
| NotificationPrompt.StandaloneNeverVisible | src/components/layout/NotificationPrompt.tsx:21-48 | in standalone mode nothing is visible, even after a reminder |
| NotificationPrompt.DismissedStaysHidden | src/components/layout/NotificationPrompt.tsx:265-306 | after a dismissal nothing is visible, even after a reminder |
| NotificationPrompt.InstallDismissalRoundTrip | src/components/layout/NotificationPrompt.tsx:74-83 | dismissing 'install' at t suppresses it on a later mount iff less than 7 days have passed |
| NotificationPrompt.OpenDismissalRoundTrip | src/components/layout/NotificationPrompt.tsx:54-64 | dismissing 'open' at t suppresses it on a later mount iff less than 24 hours have passed |
| NotificationPrompt.DismissalsIndependent | src/components/layout/NotificationPrompt.tsx:269-273 | dismissing one kind leaves the other kind's suppression unchanged |
| PWAInstallPrompt.Mount | src/components/layout/PWAInstallPrompt.tsx:19-100 | installed iff standalone or remembered, and standalone stores the mark; dismissed iff not installed and dismissed within 7 days; shown iff neither, and a prompt event came or the development force flag is set |
| PWAInstallPrompt.AppInstalled | src/components/layout/PWAInstallPrompt.tsx:65-71 | installed, hidden, prompt dropped, and "pwa-was-installed" stored as "true" with no other key changed |
| PWAInstallPrompt.HandleDismiss | src/components/layout/PWAInstallPrompt.tsx:128-132 | hidden and dismissed; now is stored under "pwa-install-dismissed" with no other key changed |
| PWAInstallPrompt.HandleInstallClick | src/components/layout/PWAInstallPrompt.tsx:102-126 | with a prompt, either answer drops it and hides the banner, and an error changes nothing; without one, the click is a dismissal |
| PWAInstallPrompt.InstallClickRecordsDismissal | src/components/layout/PWAInstallPrompt.tsx:103-126 | a click records a dismissal iff there is no prompt or the user declines it |
| PWAInstallPrompt.DebugTimer | src/components/layout/PWAInstallPrompt.tsx:76-93 | in development the timer shows the prompt iff no prompt is held, it is neither installed nor dismissed, and the force flag is stored; nothing else changes, and outside development nothing at all |
| PWAInstallPrompt.InstallClickThenTimer | src/components/layout/PWAInstallPrompt.tsx:100-116 | after an accepted install the re-run effect's timer makes the prompt visible again iff the development force flag is stored; after a declined one it stays hidden |
| PWAInstallPrompt.HandleLater | src/components/layout/PWAInstallPrompt.tsx:134-142 | hidden; after 30 minutes it reshows iff not installed and a prompt is held |
| PWAInstallPrompt.StandaloneRemembered | src/components/layout/PWAInstallPrompt.tsx:21-38 | standalone marks the app installed and remembers it, so a later browser mount is installed too and neither shows the prompt |
| PWAInstallPrompt.DismissalRoundTrip | src/components/layout/PWAInstallPrompt.tsx:41-51 | dismissing at t makes a later mount dismissed iff less than 7 days have passed |
| PWAInstallPrompt.Visible | src/components/layout/PWAInstallPrompt.tsx:147-149 | decides the render gate: not installed, not dismissed unless forced, and the prompt is switched on |
| PWAInstallPrompt.InstalledNeverVisible | src/components/layout/PWAInstallPrompt.tsx:145-149 | once installed, no button or reminder makes the prompt visible |
| PWAInstallPrompt.DismissedHidden | src/components/layout/PWAInstallPrompt.tsx:145-149 | outside development a dismissed prompt stays hidden through reminders and clicks |
| PWAInstallPrompt.ForceOverridesDismissal | src/components/layout/PWAInstallPrompt.tsx:145-147 | a dismissed prompt shows only through the development force flag |
| Health.StripTrailingSlashes | api/health.js:15 | the result is a prefix with no trailing '/', and only slashes were removed |
| Health.StripIdempotent | api/health.js:15 | stripping twice is stripping once |
| Health.StripCharacterised | api/health.js:15 | the result is the only prefix with those two properties |
| Health.BackendUrl | api/health.js:15 | "" when unset or empty; otherwise trimmed and stripped of trailing slashes, so it never ends in '/' |
| Health.BackendKey | api/health.js:16 | "" when unset or empty; otherwise trimmed |
| Health.DbCheck | api/health.js:26-61 | healthy iff the query or, after a failure, the RPC answers; the message stays "" when healthy and is otherwise the RPC's message or the thrown one ("Unknown error" for a non-Error) |
| Health.DbCheckHealthy | api/health.js:40-57 | the probe's verdict is the stated fallback: first query succeeds, or it fails and the RPC succeeds |
| Health.Handle | api/health.js:3-71 | 405 for any non-GET first; then 401 when a secret is set and the header differs; then 500 with db false for a missing URL or key; else 200 iff healthy and 503 otherwise, with `error` present iff the message is non-empty |
| Health.NoSecretNoAuth | api/health.js:10-13 | with no secret configured, no request gets 401 |
| Health.StatusCodes | api/health.js:5-70 | the status is one of 200, 401, 405, 500, 503, and it is 200 iff every check passed and the database answered |
| Health.SlashOnlyUrlMissing | api/health.js:15-24 | a URL of only blanks and slashes counts as missing and gives 500 |

## Left out

- WebCrypto itself (AES-GCM, PBKDF2, `getRandomValues`, key export) is a set of provider functions with assumed properties. Tamper detection and key separation are not modelled.
- The salt drawn by `encryptFile` is stored but not used by any key derivation in the code. The model draws and stores it too, and proves nothing about its use.
- `FileReader` reads, `downloadBlob` and `copyToClipboard` are browser I/O. A read's outcome is a parameter.
- `debounce`, `throttle`, the service-worker update interval and the delays of every `setTimeout` are not modelled. A timer is taken as having fired, or becomes a `Reminder`/`Timer` value. For toasts, the expiry delay is not modelled, but the removal it performs when it fires is (`Toast.ExpiryRemovesOnlyItself`).
- `Math.random` ids, `Date.now` and `new Date().toISOString()` are parameters.
- `toLowerCase`/`toUpperCase` are ASCII-only, and `localeCompare` is character order. Locale and Unicode case mapping are out of reach.
- DocumentCard.FormatFileSize: computed in exact arithmetic. `bytes / 1024^i` is an exact binary fraction, so `toFixed(2)` rounds it exactly and half-up, as the model does. The float risk is the unit index: `Math.floor(Math.log(bytes) / Math.log(1024))` may land one below the exact exponent at or near a power of 1024, printing for example "1024 KB" where the model prints "1 MB". The model uses the exact exponent.
- `formatFileSize` in src/utils/helpers.ts is the same function as the card's and is not modelled separately.
- LocalStorage.DismissedWithin: the source divides the elapsed milliseconds by an hour or day length in floating point. The model compares the elapsed time with the whole window exactly. These agree except for float rounding at the boundary.
- MainApp.StoragePathParts: does not state that the time-stamp segment parses back to the time. That follows from `Text.ParseIntDecimal`, but it is not restated for the slice.
- The `if (!file) return` guard in the upload handler is not modelled: a file is always present.
- The `refreshTrigger` increment is the action `ScheduleRefresh`.
- Rejected promises of the storage, auth and insert calls are not modelled: each call answers with an error value or succeeds.
- NotificationPrompt's browser-specific install guidance is not modelled: the user-agent test, the Web Share call, the `pwa-install-ready` event and the injected toast element of the `handleInstallClick` fallback (NotificationPrompt.tsx:174-234). The model keeps that path's effect on the component: the stored attempt time, the synthetic `beforeinstallprompt` its own listener picks up, and the hidden banner. The page load that `handleOpenInApp` starts by assigning `window.location.href` is not modelled either.
- NotificationPrompt's fallback timer and `beforeinstallprompt` listener read the mount-time `deferredPrompt`/`dismissed`. The model takes both as having fired, which shows the install banner whenever it is not suppressed. That is what the code does, because the render gate checks `dismissed` again.
- PWAInstallPrompt's development timers are not cleared when the effect runs again, so an earlier timer can still fire with the state it captured; it can only set the show flag, and the render gate still hides an installed app. `Mount` folds in the first run's timer and `DebugTimer` models the timer of each later run.
- The service worker's install-time precache and its `push`, `sync`, `message` and `notificationclick` handlers are not modelled. Neither are the real cache storage and `fetch`: cache matches and network answers are parameters.
- The health endpoint's `timestamp` field and the Supabase client construction are not modelled. The probe results are parameters.
- UseDocuments.GroupCount: states per-document multiplicities. The sum of the group sizes follows from it but is not stated as a sum.
- Strings are sequences of Unicode scalar values, not of UTF-16 code units. A character outside the Basic Multilingual Plane (an emoji, say) counts once here and twice in JavaScript. That changes lengths, `Helpers.Sanitize` (one '_' where the source writes two), `Helpers.TruncateText` (the source can cut between two halves of a surrogate pair) and the name order of `DocumentsList.LexCompare`.
- `created_at` is taken as a valid date, so each document's time is an integer. `new Date(...).getTime()` of an invalid date is NaN, which would make the date comparator inconsistent; that case is not modelled.
- Authentication, the document and audit services, Firebase/Supabase set-up, and every purely presentational component are not part of this model.

## Findings

| source | as written | input that shows it | evidently intended | confidence | as-written member | corrected member |
|---|---|---|---|---|---|---|
| src/utils/helpers.ts:16-20 | `SUPPORTED_FILE_TYPES[file.type]` also finds `Object.prototype` members, whose `maxSize` is undefined, so `size > undefined` is false | a file of type "constructor", of any size | only the table's own eight types are supported | not executed | Helpers.ValidateFileAsWritten, Helpers.InheritedTypeAccepted | Helpers.ValidateFile |
| src/utils/encryption.ts:183-187 | when no key is passed, the returned `encryptionKey` is the export of a second, newly generated key rather than the one that encrypted | `createEncryptedBlob(file)` with no key; with the toy provider and a counting random stream, the returned key fails to decrypt the blob | return the raw export of the key `encryptFile` generated | not executed | Encryption.CreateEncryptedBlob, Encryption.ReturnedKeyIsSecondDraw, Encryption.ReturnedKeyFails | Encryption.CreateEncryptedBlobFixed, Encryption.FixedReturnedKeyDecrypts |
| src/hooks/useDocuments.ts:107-111 | the reduce's `{}` accumulator sees inherited members: `acc["constructor"]` is truthy, so no array is made and `.push` is called on a function | a document row whose category is "constructor" | group by own keys only, so every category gets its own array | not executed | UseDocuments.GroupAsWritten, UseDocuments.GroupAsWrittenThrows, UseDocuments.GroupAsWrittenAgrees | UseDocuments.Group, UseDocuments.GroupIsFilter |
