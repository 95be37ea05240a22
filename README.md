# Track catalog backend: a verified model

This project models the core of a music-catalog REST backend. Tracks and albums are stored as one kind of document, a Track. An administrator creates, updates and deletes them, together with their uploaded cover image and audio file. Anyone can list them, search them, fetch one, list an album's members and list the genres.

The model has five modules:

- `TrackSchema` (`track_schema.dfy`) holds the Track document as a datatype. It also holds the `trim` setter, the schema defaults and the validity predicate that `save()` enforces: required paths, enums, casts, and the two conditional requirements.
- `Upload` (`upload.dfy`) covers the multer configuration: the storage destination, the generated file name, the two MIME filters and the three upload instances with their size limits.
- `TrackRoutes` (`track_routes.dfy`) holds the ordered route table, first-match dispatch to middleware chains, and `handleUpload`'s error classification.
- `CatalogQueries` (`catalog_queries.dfy`) holds the pure pieces of the read handlers: the visibility and genre filters, newest-first order, MongoDB's skip and limit, page arithmetic, album member counts and track-number order.
- `TrackController` (`track_controller.dfy`) holds the class `Catalog`: the stored documents, the file names present in `uploads/`, the next id, and a logical clock standing for `Date.now()`.
  - The five read handlers are functions of the catalog.
  - `createTrack`, `updateTrack` and `deleteTrack` are methods that change it.
  - The upload loops of create and update are `while` loops, each proved equal to a fold over the request's parts (`CreateScan`, `UpdateScan`).
  - Every method preserves the catalog invariant `Valid()`. Under it:
    - every stored document validated and holds trimmed text
    - a document's id is its key and lies below the counter
    - creation time grows with the id, so newest first is highest id first

The model follows the code as written where its comments say otherwise:

- **Search ignores the text.** `searchTracks` builds its filter as an object literal with the key `$or` twice. The later key wins, so the filter is the visibility filter alone. The text `q` only has to be non-empty (`SearchIgnoresText`, `SearchIsUnfilteredListing`).
- **Delete removes the placeholder.** `deleteTrack` unlinks the cover file even when it is the shared `placeholder-image.svg`. `updateTrack` exempts it (`DeleteTrack`, `UpdateScan`).
- **The 413 message overstates the limit.** The message says files up to 200MB are allowed, but the upload instance the router uses rejects anything above 100 MiB (`StatedMaximumExceedsLimit`).
- **Updates leave an Album's audio fields in place.** An update accepts an audio part only when the document, after its type is assigned, is a Single. But it never clears the audio paths. So a document changed from Single to Album keeps them, and they no longer need to validate (`UpdateIgnoresAudioOfAlbums`, `AudioRequiredExactlyForSingles`).
- **`getTracksByAlbumId` answers 500 for a malformed id** (the cast error is not caught specially). `getTrackById`, `updateTrack` and `deleteTrack` answer 404 for one.

How foreign behaviour is represented:

- Parsing (`parseInt`, `new Date`, `JSON.parse`, the ObjectId cast) is an `Option`: `None` stands for NaN, an invalid date, malformed JSON or a malformed id.
- Each uploaded part carries its already measured dimensions or audio metadata. `None` means the measuring library threw.
- The file system is the set `files`. Unlinking a name that is not in it throws, which the handlers answer with 500.
- MongoDB's `skip` refuses a negative value (500). A `limit` of 0 means no limit, and a negative limit returns at most its absolute value.
- `Math.ceil(count / limit)` for a limit of 0 is not a finite number and is written out as null (`pages == None`).

## Model

| member | source | states |
|---|---|---|
| TrackSchema.Trim | models/Track.js:17-21 | the stored text starts and ends with a non-trimmable character, and is empty exactly when the input is all white space |
| TrackSchema.TrimIdempotent | models/Track.js:17-21 | trimming a trimmed value changes nothing, so the setter's result is what is stored |
| TrackSchema.TrimIsInfix | models/Track.js:28-32 | the trimmed value is a slice of the input with only trimmable characters cut from the two ends |
| TrackSchema.TrimNames | models/Track.js:4-8 | every contributor keeps its role and has its name trimmed, list length unchanged |
| TrackSchema.AudioRequiredExactlyForSingles | models/Track.js:65-99 | a Single without all five audio paths fails validation; an Album's validity does not depend on them beyond their casts |
| TrackSchema.CoverDimensionsRequiredExactlyForUploads | models/Track.js:49-63 | a real cover without dimensions fails; with an empty or placeholder cover, validity does not depend on the dimensions |
| TrackSchema.OptionalPaths | models/Track.js:42-44 | clearing album, trackNumber and releaseDate keeps a valid document valid |
| TrackSchema.ContributorRoles | models/Track.js:3-14 | every contributor of a valid document has a non-empty name and one of the nine roles |
| TrackSchema.ValidTrack | models/Track.js:16-109 | what `save()` accepts: title, type and genre present, type one of the two kinds, every contributor named with an enumerated role, every Number, Date and ObjectId path castable, dimensions for a real cover, and the five audio paths for a Single |
| TrackSchema.WithDefaults | models/Track.js:34-41 | an absent listenCount becomes 0 and an absent publishDate becomes now; every other path is untouched |
| TrackSchema.WithDefaultsStable | models/Track.js:34-41 | applying the defaults twice is applying them once, and they keep a valid document valid |
| Upload.Destination | utils/upload.js:6-9 | every file goes to `uploads/` |
| Upload.Decimal | utils/upload.js:12 | a number is written as a non-empty run of decimal digits |
| Upload.DecimalRoundTrip | utils/upload.js:12 | the digits read back as the number they were written from |
| Upload.Extname | utils/upload.js:13 | the extension is the suffix of the last path component from its last dot; it is empty exactly when that component has no dot, has its only dot first, or is `..` |
| Upload.GeneratedFilename | utils/upload.js:10-14 | the generated name starts with the field name and a dash |
| Upload.GeneratedNameRoundTrip | utils/upload.js:10-14 | the generated name determines its timestamp, random suffix and extension |
| Upload.GeneratedNamesDistinct | utils/upload.js:10-14 | two files under one field get different names unless timestamp and random suffix both coincide |
| Upload.AudioFileFilter | utils/upload.js:18-30 | accepts exactly the four audio MIME types, with a null error; a rejection carries the audio message |
| Upload.ImageFileFilter | utils/upload.js:33-44 | accepts exactly the three image MIME types, with a null error; a rejection carries the image message |
| Upload.FiltersDisjointAndLoud | utils/upload.js:18-44 | no MIME type passes both filters, and each filter accepts exactly when it reports no error |
| Upload.Screen | utils/upload.js:47-69 | a file passes exactly when its filter accepts it and its size is within the limit; an oversized file fails with LIMIT_FILE_SIZE |
| Upload.ScreenAll | utils/upload.js:64-69 | a request passes exactly when every file does; otherwise the error is the first failing file's |
| Upload.MixedChecksOnlySize | utils/upload.js:64-69 | the mixed instance accepts every MIME type and rejects exactly the files above 100 MiB |
| Upload.AudioAndImageScreens | utils/upload.js:18-62 | the audio instance keeps exactly the audio types up to 104857600 bytes and the image instance exactly the image types up to 10485760 bytes; a file of another type fails with the filter's message |
| TrackRoutes.FirstMatch | routes/trackRoutes.js:18-33 | the position found handles the request and no earlier registration does; none means no registration handles it |
| TrackRoutes.FirstMatchAt | routes/trackRoutes.js:18-33 | the first handling registration is the one dispatch picks |
| TrackRoutes.Dispatched | routes/trackRoutes.js:18-33 | a request runs the chain of the first registration that handles it, and is passed on when none does |
| TrackRoutes.Run | routes/trackRoutes.js:44-77 | a chain falls through exactly when every step passes the request on; otherwise the first step that does not decides: the privilege check, the upload gate with its verdict, or the controller |
| TrackRoutes.SpecificRoutesFirst | routes/trackRoutes.js:19-24 | `GET /genres` and `GET /search` reach getGenres and searchTracks, since they are registered before `/:id` |
| TrackRoutes.IdRoute | routes/trackRoutes.js:29-30 | any other single segment reaches getTrackById with that segment bound as `id` |
| TrackRoutes.ByIdExactlyForOtherSegments | routes/trackRoutes.js:19-30 | a single segment reaches getTrackById exactly when it is neither `genres` nor `search` |
| TrackRoutes.ListingRoutes | routes/trackRoutes.js:26-33 | `GET /album/:albumId` reaches getTracksByAlbumId with the id bound; `GET /` reaches getTracks |
| TrackRoutes.CreateRoute | routes/trackRoutes.js:72-73 | `POST /` runs auth, then handleUpload, then createTrack |
| TrackRoutes.UpdateRoute | routes/trackRoutes.js:75-76 | `PATCH /:id` runs auth, then handleUpload, then updateTrack, with the id bound |
| TrackRoutes.DeleteRoute | routes/trackRoutes.js:75-77 | `DELETE /:id` runs auth, then deleteTrack, with no upload parsing |
| TrackRoutes.UnroutedRequests | routes/trackRoutes.js:18-77 | deeper paths, two-segment paths other than `/album/:albumId`, and non-GET two-segment paths are not handled |
| TrackRoutes.HandleUploadVerdict | routes/trackRoutes.js:44-69 | next() exactly when there is no error; 413 FILE_TOO_LARGE exactly for a multer LIMIT_FILE_SIZE error; 400 UPLOAD_ERROR with the error's message otherwise |
| TrackRoutes.UploadErrorsStopWrites | routes/trackRoutes.js:44-76 | on create and update an upload error is answered by the gate and the controller is not reached; without one it is reached |
| TrackRoutes.DeleteIgnoresUploads | routes/trackRoutes.js:77 | the delete chain's outcome does not depend on the upload gate |
| TrackRoutes.StatedMaximumExceedsLimit | routes/trackRoutes.js:46-52 | a file above 100 MiB but within 200MB is refused with the message that 200MB is the maximum |
| CatalogQueries.GenreFilter | controllers/trackController.js:19-22 | no genre filter exactly when the parameter is empty or one of all, new, popular, featured; otherwise the parameter itself |
| CatalogQueries.Visible | controllers/trackController.js:26-30 | a document with an album reference is visible exactly when it is an Album; a type outside the two kinds is never visible |
| CatalogQueries.NewestFirst | controllers/trackController.js:33-36 | the ids are exactly the matches below the bound, strictly decreasing |
| CatalogQueries.NewestFirstByCreation | controllers/trackController.js:36 | in the catalog's order, `createdAt` strictly decreases along the listing |
| CatalogQueries.DecreasingDistinct | controllers/trackController.js:33-36 | a strictly decreasing id list has no repeats |
| CatalogQueries.NewestFirstIsMatchSet | controllers/trackController.js:51 | the sorted matches are the documents `countDocuments` counts, so the count and the list length agree |
| CatalogQueries.Window | controllers/trackController.js:33-36 | negative skip is an error; otherwise the window has the length skip and limit admit and holds the matches at ranks skip, skip+1, … |
| CatalogQueries.CeilDiv | controllers/trackController.js:56 | the result is the ceiling of count divided by page size, for either sign of the page size |
| CatalogQueries.PagesCoverMatches | controllers/trackController.js:35-56 | page p is non-empty exactly when p is at most the reported page count, and every match lies on one of those pages |
| CatalogQueries.WithCounts | controllers/trackController.js:39-48 | every entry keeps its document; Albums carry their member count and Singles carry none |
| CatalogQueries.TrackCount | controllers/trackController.js:41 | an album's member count is 0 exactly when no stored document refers to it, and at most the number of documents |
| CatalogQueries.ListWindow | controllers/trackController.js:26-48 | the page entries are the visible matches at their ranks, with counts, newest first, as many as skip and limit admit |
| CatalogQueries.InsertByNumber | controllers/trackController.js:147 | inserting into a track-number ordered list keeps it ordered and adds exactly the one document |
| CatalogQueries.SortByTrackNumber | controllers/trackController.js:147 | the result is in ascending track-number order and is a permutation of the input |
| TrackController.IntOr | controllers/trackController.js:12-13 | the parsed number unless it is NaN or 0, in which case the default |
| TrackController.IsCoverSize | controllers/trackController.js:217 | a cover is accepted exactly when it measures 3000 by 3000 pixels |
| TrackController.CreateScan | controllers/trackController.js:212-235 | the cover kept is an uploaded 3000×3000 cover or nothing; no cover part keeps none; audio is kept only for a Single and only from an audio part; a rejection names a wrong-size cover part |
| TrackController.CreateRecordsLastUploads | controllers/trackController.js:212-235 | a loop that runs to the end holds the name and size of the last cover part and, for a Single, the name and measurement of the last audio part |
| TrackController.CreateOutcome | controllers/trackController.js:212-235 | the loop runs to the end exactly when no part stops it (a cover unmeasurable or not 3000×3000, or for a Single an unreadable audio file); otherwise the first stopping part decides: a measured wrong-size cover rejects with its own name, anything else crashes |
| TrackController.CollectUploads | controllers/trackController.js:212-235 | the upload loop ends exactly as the fold over the parts does |
| TrackController.NewRecord | controllers/trackController.js:237-268 | the new document has trimmed text, the given id, and the clock as its timestamps |
| TrackController.UnlinkIfPresent | controllers/trackController.js:375-381 | only the named file can disappear, and a non-empty named file is gone afterwards |
| TrackController.UpdateScan | controllers/trackController.js:314-353 | files only disappear; the placeholder survives unless a part or the audio file has its name; nothing but cover and audio paths change; a stopped loop stays stopped |
| TrackController.UpdateOutcome | controllers/trackController.js:314-353 | the loop runs to the end exactly when no part stops it; otherwise, run up to the first stopping part, a wrong-size cover whose file is then on disk stops with 400 and that file unlinked, and anything else stops with 500 with the files as they then were, less the document's current audio file when the stopping part is audio |
| TrackController.UpdateUnlinksOnlyKnown | controllers/trackController.js:320-339 | the loop unlinks only the document's cover (never the placeholder) once a cover part comes, its audio file once an accepted audio part comes, a wrong-size cover's file, or the file of a cover or accepted audio part that a later part of the same field replaces |
| TrackController.UpdateKeepsInstalledFiles | controllers/trackController.js:314-341 | when the loop runs to the end and the parts' file names are distinct from one another and from the document's files, the last cover's file and the last accepted audio file are still on disk |
| TrackController.UpdateRejectsBadCover | controllers/trackController.js:316-323 | a first stopping part that is a wrong-size cover, whose file is on disk and was not the document's or an earlier part's, stops the update with 400 and its file gone |
| TrackController.Prepare | controllers/trackController.js:287-311 | only title, type, genre, contributors, listenCount and publishDate change, and trimmed text stays trimmed |
| TrackController.PrepareAssigns | controllers/trackController.js:287-311 | a truthy title, type or genre is assigned (title and genre trimmed), an omitted one kept; parsed contributors replace the list; a defined listenCount and a truthy publishDate are stored when they parse and become cast failures when they do not |
| TrackController.ConsistentKeys | controllers/trackController.js:124-165 | under the invariant keys are ids below the counter and every genre is non-empty and trimmed |
| TrackController.ConsistentInsert | controllers/trackController.js:266-267 | storing a valid new document under the counter at the clock keeps the invariant |
| TrackController.ConsistentReplace | controllers/trackController.js:356-357 | writing back a valid changed document with its creation time keeps the invariant |
| TrackController.ConsistentRemove | controllers/trackController.js:383 | removing a document keeps the invariant |
| TrackController.Catalog.StoreParts | utils/upload.js:5-15 | the disk storage adds exactly the parts' file names to `uploads/` |
| TrackController.Catalog.ListingWindow | controllers/trackController.js:33-48 | under the invariant: error exactly for a negative skip; otherwise a page of the sorted matches with counts |
| TrackController.Catalog.GetTracks | controllers/trackController.js:10-62 | 500 exactly when the skip is negative; otherwise the visible documents of the genre, newest first, at most pageSize of them from rank pageSize·(page−1), with the total count and ceil(count/pageSize) pages |
| TrackController.Catalog.SearchTracks | controllers/trackController.js:67-119 | 400 without a query; otherwise the visible documents whatever the query, page and limit defaulting to 1 and 10, with null pages for limit 0 |
| TrackController.Catalog.GetTrackById | controllers/trackController.js:124-139 | the stored document exactly when the id is well formed and stored, otherwise 404 |
| TrackController.Catalog.GetTracksByAlbumId | controllers/trackController.js:144-153 | 500 exactly for a malformed id; otherwise exactly the documents referring to the album, in track-number order, as many as the album's count |
| TrackController.Catalog.GetGenres | controllers/trackController.js:158-165 | exactly the genres of the stored documents, each non-empty and trimmed |
| TrackController.Catalog.CreateTrack | controllers/trackController.js:170-274 | 400 and no change without title, type or genre; 400 with only that cover unlinked for a wrong-size cover; 500 on a throw; otherwise the built document is stored under a fresh id when it validates and 500 when it does not |
| TrackController.Catalog.SaveNew | controllers/trackController.js:266-268 | a valid document is inserted under the counter, which advances with the clock; an invalid one gives 500 and no change |
| TrackController.Catalog.ApplyUploads | controllers/trackController.js:314-353 | the update's upload loop ends with the files and document the fold computes |
| TrackController.Catalog.UpdateTrack | controllers/trackController.js:279-361 | 404 and no change for a malformed or unknown id; otherwise the prepared document goes through the upload loop, files unlinked stay unlinked, and the result is saved when valid, else 400 or 500 |
| TrackController.Catalog.SaveChanged | controllers/trackController.js:356-358 | a valid document is written back with the clock as update time; an invalid one gives 500 and no change |
| TrackController.Catalog.DeleteTrack | controllers/trackController.js:366-391 | 404 and no change for a malformed or unknown id; otherwise the cover and audio files go, the placeholder included, the document goes, and a later fetch answers 404 |
| TrackController.MembersAreInAlbum | controllers/trackController.js:146-147 | the sorted members are exactly the album's documents, and as many as its count |
| TrackController.SearchIgnoresText | controllers/trackController.js:76-87 | two non-empty search texts give the same answer |
| TrackController.SearchIsUnfilteredListing | controllers/trackController.js:17-36 | with non-zero page and limit a search answers what the listing without a genre answers, and the `all` genre filters nothing |
| TrackController.ChildSinglesOnlyUnderTheirAlbum | controllers/trackController.js:24-30 | a Single that belongs to an album is listed under its album and on no listing or search page |
| TrackController.CreatedCover | controllers/trackController.js:212-241 | a created document's cover is 3000×3000; without a cover part it is the placeholder, otherwise it is the last cover part's name with its measured size |
| TrackController.CreatedAudio | controllers/trackController.js:258-264 | an Album gets no audio paths; a Single gets the collected file name, each number measured when non-zero, else the given number, a cast failure if it does not parse, else 0, and the measured file type, else the given one |
| TrackController.CreatedAudioUpload | controllers/trackController.js:227-264 | a Single created with audio parts carries the last one's file name and its non-zero measurements |
| TrackController.SingleWithoutAudioIsRejected | controllers/trackController.js:208-260 | a Single created without an audio part fails validation, so createTrack answers 500 |
| TrackController.CreatedFields | controllers/trackController.js:195-255 | title and genre trimmed; contributors the parsed list or none; a given listenCount, publishDate, album or trackNumber is stored when it parses and fails validation when it does not; absent ones take their defaults or stay unset |
| TrackController.UpdatePreservesOmitted | controllers/trackController.js:287-311 | an update never changes album, trackNumber, releaseDate, id or creation time, and leaves every field the body omits |
| TrackController.UpdateStoresSupplied | controllers/trackController.js:306-311 | the document the update saves holds every supplied title, type, genre and contributor list, and a listenCount or publishDate that parses; one that does not parse fails validation |
| TrackController.UpdateInstallsLastCover | controllers/trackController.js:316-332 | a loop that runs to the end leaves the last cover part's name and measured size on the document, and the old cover when there is no cover part |
| TrackController.UpdateUnlinksOldCover | controllers/trackController.js:325-328 | once a cover part is accepted, the former cover file is gone unless it was empty or the placeholder |
| TrackController.UpdateUnlinksRejectedCover | controllers/trackController.js:318-323 | when a wrong-size cover stops the update, that part's own file is gone and the part was a wrong-size cover |
| TrackController.UpdateInstallsLastAudio | controllers/trackController.js:333-347 | when the document or the request says Single, a loop that runs to the end leaves the last audio part's name, bitrate, duration, sample rate and file type; with no audio part the audio paths are unchanged |
| TrackController.UpdateUnlinksOldAudio | controllers/trackController.js:335-340 | once an audio part is accepted, the former audio file is gone |
| TrackController.UpdateIgnoresAudioOfAlbums | controllers/trackController.js:333-349 | when neither the document nor the request says Single, every audio path keeps its value, and without a cover part the loop changes nothing |
| TrackController.UpdatedCoverIsSquare | controllers/trackController.js:316-332 | every cover an update installs is 3000×3000 |

## Left out

- I/O is not modelled: HTTP, the MongoDB driver and the disk. The store is a map, the disk a set of names, and `Date.now()` a counter that advances with each successful save.
- MongoDB internals are left out. That covers regex matching, `$exists` against null beyond the visibility rule, and the order of ties and of absent values in the `trackNumber` sort. The model sorts an absent number first and keeps no order among equal numbers.
- Concurrency is left out: `Promise.all` in the member counts, races between requests, and the non-transactional ordering of file writes and saves. Counts are computed one by one on the current catalog.
- Query parameters of search are taken as already parsed numbers. A non-numeric `page` or `limit` string, which reaches MongoDB unparsed, is not modelled.
- `utils/metadata.js` is not part of this model beyond its 3000×3000 rule (`IsCoverSize`). That leaves out its floating-point rounding (`Math.round` of the bitrate) and its library calls. Measurements are inputs on each part.
- The privilege-check middleware and `authRoutes` are not part of this model. `Auth` is a step that passes or answers.
- CORS header writes, multer's streaming and its byte counting are left out. Only the per-file size limit and the error it raises are modelled.
- HEAD and OPTIONS requests, case-insensitive and trailing-slash routing, and paths outside the track router are left out.
- JSON contributor values that are not arrays of `{name, role}` objects are left out. A parse is a list of contributors or a failure.
- The schema's default type `Single` is left out, because create requires a truthy type and update never clears it.
- TrackController.CreateScan: its own contract does not say which parts end the loop; `CreateOutcome` proves that for every input.
- TrackController.UpdateScan: its own contract does not say which parts end the loop; `UpdateOutcome` and `UpdateRejectsBadCover` prove that for every input.
- TrackController.Catalog.CreateTrack: its postcondition gives the answer in terms of `CreateScan`; which parts lead to 400, 500 or the save is stated by `CreateOutcome`.
- TrackController.Catalog.UpdateTrack: its postcondition gives the answer in terms of `UpdateScan`; which parts lead to 400, 500 or the save is stated by `UpdateOutcome`.
- TrackController.Catalog.SaveChanged: it always sets `updatedAt`, whereas Mongoose leaves it alone when a save modifies nothing.
- TrackController.Catalog.UpdateTrack: its `scan` out-parameter is ghost and records the loop's result for the contract; the handler has no such value.
- Numbers are unbounded integers. In the source `pageSize * (page - 1)`, the counts and the page sizes are JavaScript doubles, and MongoDB accepts at most 64-bit skip and limit values; rounding of huge values and the errors for out-of-range ones are not modelled.
- The clock is a counter that grows with every save, so no two documents share a `createdAt` and the newest-first order is total (`NewestFirstByCreation`, `ListWindow`). Real `Date.now()` values can coincide, MongoDB may then order equal `createdAt` values freely, and consecutive pages may overlap or skip a document; the model does not capture that.
- Server bootstrap (`server.js`) and the admin seeding script are outside the core.
