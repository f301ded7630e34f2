# Torrent movie browser and chunk-cached player, modelled in Dafny

The application is a React front end over a torrent search API and a
WebTorrent streaming server. This project models its logic, leaving out the
presentation:

- **Chunk cache and playback.** `ChunkStore` and `Playback` cover the
  movie-detail player.
  - It keeps the chunks of a streamed file in an IndexedDB store, keyed by
    `${movie.id}-${filename}`.
  - It resumes from those chunks when enough are stored.
  - Otherwise it streams the file and publishes a blob once 5% of the
    announced `Content-Length` has arrived.
  - It keeps reading in the background and publishes the whole file at the
    end.
  - It can delete the cached file.
- **Magnet search (`MagnetLink`).** The all-torrent detail page searches a
  loosely shaped movie object for a magnet link, starts a stream from it and
  decides whether the poster is shown.
- **Site search lists (`SiteList`).** The four per-site lists (glodls,
  piratebay, torlock, yts) are one guarded, paginated fetch/filter/merge
  state machine, parameterised by the site.
- **Home-page feeds.** `Cards`, `Trending`, `Recent`, `Hero` and
  `InfiniteScroll` cover the trending strip, the recent strip, the hero
  carousel and the infinite "Latest Movies" grid.
- **All-site searches.** `AllTorrentList` is the all-site torrent search and
  `AllList` the paginated yts search.
- **Per-site detail pages.** `FileListing`, `YtsDetail`, `PiratebayDetail`
  and `TorlockDetail` cover the three pages: the file-type filtering of a
  torrent's file listing and which file gets selected.

Values read from JSON are the `JsValue.Value` datatype.

- A property read that would raise a `TypeError` (reading a field of `null`
  or `undefined`, calling `filter` on a non-array) returns `Thrown` of the
  `Completion` datatype. The two exceptions, where a `null` item that
  cannot arise is read without throwing, are listed under "## Left out".
- Each handler is a pure step function from one page state to the next.
- Responses, the current year and session storage are parameters.

`handlePlay` is a method. Its two read loops walk the chunks the stream
yields, with loop invariants tying the store, the byte count and the
progress entry to the chunks read so far.

Some properties of the code as written:

- **The resume test passes for any record whose first slot holds a
  non-empty chunk.** It compares the bytes stored with 5% of the *first
  chunk*, not of the file. It fails only when slot 0 is a hole or an empty
  chunk (`ResumeOnlyNeedsFirstChunk`, `Refuses`).
- **A resumed session still downloads the file from the start.** It
  overwrites slots 0, 1, … of the record.
- **The priming target is a flat 5% of `Content-Length`.** There is no upper
  cap on the amount primed. A `Content-Length` of 0 (or a missing header)
  publishes before any chunk is read. A header that does not parse (`NaN`)
  never publishes.
- **Deduplication differs between lists.**
  - The site lists compare each new item only with the previous list, so
    duplicates inside one batch are kept.
  - The trending strip and the infinite grid deduplicate through a `Map`:
    the last item with a key wins, and keys keep the position where they
    first appeared.

## Model

| member | source | states |
|---|---|---|
| ChunkStore.StoreVideoChunk | src/MovieDetail.jsx:54-76 | writing chunk `c` at index `i` makes slot `i` hold `c`, grows the array to `i+1` when shorter (new gap slots are holes), keeps every other slot, keeps the record's id and metadata, and leaves every other record as it was |
| ChunkStore.PutAt | src/MovieDetail.jsx:66 | the JavaScript sparse-array assignment `chunks[i] = c`: slot `i` holds `c`, length is `max(old, i+1)`, other slots unchanged, new gap slots are holes |
| ChunkStore.StoreCreatesRecord | src/MovieDetail.jsx:63 | storing under an absent key first creates `{id, chunks: [], metadata: {}}`, so the record has the key as id, no metadata, holes before the written slot |
| ChunkStore.StoreIdempotent | src/MovieDetail.jsx:66-69 | repeating the same write of a chunk to a slot changes nothing |
| ChunkStore.GetAfterStore | src/MovieDetail.jsx:78-92 | reading back a key after a write sees the chunk in its slot and the other previously stored slots unchanged |
| ChunkStore.DeleteVideo | src/MovieDetail.jsx:94-105 | deleting removes exactly the given key and keeps every other record |
| ChunkStore.GetAfterDelete | src/MovieDetail.jsx:87 | `result?.chunks \|\| []`: an absent key, in particular a deleted one, reads as the empty list |
| ChunkStore.OperationsKeepWellKeyed | src/MovieDetail.jsx:60-69 | writes and deletes keep every record stored under its own id |
| ChunkStore.PresentKeepsBytes | src/MovieDetail.jsx:219-224 | the chunks `filter(Boolean)` keeps hold exactly the byte count the resume test sums (holes count 0) |
| ChunkStore.StoredBytesCoversFirst | src/MovieDetail.jsx:219-220 | the summed byte count is at least the size of the first stored chunk |
| ChunkStore.Concat | src/MovieDetail.jsx:316-318 | the blob of a chunk list has as many bytes as the chunks together |
| ChunkStore.ConcatPrefix | src/MovieDetail.jsx:287-318 | the blob of the chunks read so far is a prefix of the blob of any longer run of the same stream |
| ChunkStore.GetVideoChunks | src/MovieDetail.jsx:78-92 | `result?.chunks \|\| []`: an absent key reads as `[]`, a stored record as its chunks |
| ChunkStore.StoredBytes | src/MovieDetail.jsx:219 | the `reduce` sum, holes counting 0, is at least the size of the last slot |
| ChunkStore.StoredBytesBounds | src/MovieDetail.jsx:219 | the `reduce` sum, holes counting 0, is at least every slot's size, and is 0 exactly when no slot holds a byte |
| ChunkStore.Present | src/MovieDetail.jsx:224 | `filter(Boolean)` never yields more chunks than there are slots |
| ChunkStore.PresentMembers | src/MovieDetail.jsx:224 | `filter(Boolean)` keeps a chunk exactly when some slot holds it |
| ChunkStore.PresentAppend | src/MovieDetail.jsx:224 | the filter distributes over concatenation, keeps a present slot and drops a hole: it is the order-preserving selection of the present slots |
| ChunkStore.PresentBlobOffsets | src/MovieDetail.jsx:224 | the blob of the filtered chunks holds each stored chunk at the offset of the bytes in the slots before it, and has exactly the stored byte count |
| ChunkStore.SumLengthsMonotone | src/MovieDetail.jsx:273 | `receivedLength` never decreases as more chunks are read |
| ChunkStore.SumLengthsStep | src/MovieDetail.jsx:272-273 | reading chunk `k` adds its length to the count and its bytes to the end of the blob |
| ChunkStore.StoreAllStep | src/MovieDetail.jsx:276-277 | a session that reads one chunk more does exactly one more write, of that chunk at its read index |
| ChunkStore.StoreAllWrites | src/MovieDetail.jsx:266-313 | the writes of one session (`StoreAll`): slot `k` holds the `k`-th chunk read, slots beyond what it read keep an earlier session's chunks, the session's key is added only when a chunk was read, and no other record changes |
| Playback.VideoKey | src/MovieDetail.jsx:208 | the store key is the movie id, a `-`, then the file name |
| Playback.VideoKeyInjective | src/MovieDetail.jsx:208 | within one movie, two different file names never share a store record |
| Playback.TorrentIdentifier | src/MovieDetail.jsx:142-144 | the identifier is truthy iff the quality exists and has a truthy `magnet` or `torrent`, and a truthy `magnet` is preferred |
| Playback.ResumeOnlyNeedsFirstChunk | src/MovieDetail.jsx:216-234 | for a non-empty record the resume test holds iff the first slot holds a non-empty chunk |
| Playback.ResumedBytes | src/MovieDetail.jsx:224-226 | the resumed blob has exactly the stored byte count and holds each stored chunk, in slot order, at the offset of the bytes stored before it |
| Playback.PrimingReads | src/MovieDetail.jsx:267-284 | the priming loop reads the least number of chunks at which `received*20 >= contentLength`, or the whole stream when it ends first |
| Playback.PrimingUnique | src/MovieDetail.jsx:267-270 | the loop can stop at only one count: the one `PrimingReads` gives |
| Playback.PublishesIffEnoughData | src/MovieDetail.jsx:287-297 | a URL is published after priming iff the length parsed and the whole stream is at least 5% of it; a `NaN` length never publishes |
| Playback.NoLengthPublishesAtOnce | src/MovieDetail.jsx:258 | with `Content-Length` 0 (or any non-positive length) nothing is read before publishing |
| Playback.UniformPriming | src/MovieDetail.jsx:267-277 | with equal-sized chunks priming stops after the fewest chunks that reach 5% of the length, and publishes |
| Playback.StoreNext | src/MovieDetail.jsx:304-312 | one turn of a read loop stores chunk `i` in slot `i`, adds its length to `received`, and records `{received, total}` as progress |
| Playback.Prime | src/MovieDetail.jsx:261-284 | the priming loop reads exactly `PrimingReads` chunks, `received` is their byte count, they sit in slots 0.. of the record, and progress records `{received, total}` |
| Playback.Drain | src/MovieDetail.jsx:300-313 | the background loop stores every remaining chunk at its read index and leaves progress at the whole stream's byte count |
| Playback.StreamFile | src/MovieDetail.jsx:246-319 | a rejected fetch or non-ok status reports the failure and changes nothing else; a stream reaching 5% ends with all chunks stored, progress complete, the whole file published, `canPlay`, tab 1 and "Now playing"; while it runs, the state at the 5% point is returned as the preview: the primed chunks stored, their blob published, tab 1 and `canPlay`; otherwise only the primed chunks are stored, "Failed to buffer" is shown and there is no preview |
| Playback.Resume | src/MovieDetail.jsx:207-235 | the active video becomes the key and the store is untouched; the play goes on iff the record is not too small; a record too small stops with `canPlay` off, loading ended and the "not enough data" warning; a record with enough stored bytes publishes them on tab 1 with `canPlay`, and an empty record goes on without publishing |
| Playback.StreamFrom | src/MovieDetail.jsx:237-327 | a missing identifier, network error or HTTP error leave the store and progress alone and report why; a stream primes `PrimingReads` chunks; iff it reached 5% the preview shows the primed chunks' blob on tab 1 and the end state holds every chunk, complete progress and the whole body, of which the preview's blob is a prefix; otherwise the primed chunks stay stored and "Failed to buffer" is shown |
| Playback.HandlePlay | src/MovieDetail.jsx:207-327 | the active video is the key and loading ends; a record too small to resume stops before any request; a resumable record publishes the stored bytes first; a missing identifier, network error or HTTP error leave the store alone; a stream writes slot `k` with chunk `k`, and iff it reached 5% it first shows the primed chunks' blob on tab 1 with `canPlay` (the preview) and then publishes the whole body, of which that blob is a prefix |
| Playback.DeleteTempFile | src/MovieDetail.jsx:329-345 | with no active video nothing happens; otherwise the record leaves the store, every other record stays, `videoUrl`, `activeVideoId` and `canPlay` are cleared, and progress, the active tab and the loading flag are kept |
| Playback.DeleteThenPlayStartsOver | src/MovieDetail.jsx:329-339 | after a delete, playing the same file neither resumes nor refuses; a second delete does nothing |
| MagnetLink.FindMagnetLink | src/MovieDetailAllTorrent.jsx:27-42 | a falsy input gives `null`; a truthy top-level `magnet` is returned first; any result is `null` or truthy |
| MagnetLink.ScanListFindsFirst | src/MovieDetailAllTorrent.jsx:30-34 | the torrents loop returns the magnet of the first element that has one |
| MagnetLink.TorrentsBeforeFields | src/MovieDetailAllTorrent.jsx:29-41 | without a top-level magnet, the first torrent with a magnet wins over anything nested |
| MagnetLink.ScanListSound | src/MovieDetailAllTorrent.jsx:31-33 | the torrents loop returns only a magnet of some element, and `null` only when no element has a truthy magnet |
| MagnetLink.FindMagnetSound | src/MovieDetailAllTorrent.jsx:27-41 | a non-null result is a magnet found at a place the search looks; a `null` result means the movie has none there |
| MagnetLink.FieldsSound | src/MovieDetailAllTorrent.jsx:35-40 | the key loop returns a magnet of some object-valued field, or `null` when no such field holds one |
| MagnetLink.ElemsSound | src/MovieDetailAllTorrent.jsx:35-39 | the same key loop over an array returns a magnet of some object-valued element, or `null` when none holds one |
| MagnetLink.SearchFieldsFindsFirst | src/MovieDetailAllTorrent.jsx:35-38 | nested fields are searched in key order: the first field whose search yields a magnet decides the result |
| MagnetLink.NestedInKeyOrder | src/MovieDetailAllTorrent.jsx:35-41 | when neither `magnet` nor `torrents` yields a link, the result is that of the first object-valued field with a hit |
| MagnetLink.StartStream | src/MovieDetailAllTorrent.jsx:70-84 | no selected file alerts and changes nothing; no magnet alerts, changes nothing, and the movie has none; otherwise the source is a magnet of the movie with the selected file and `loading` is set |
| MagnetLink.HasValidPoster | src/MovieDetailAllTorrent.jsx:95-96 | a string poster is valid iff non-empty and not the no-cover URL; a missing poster is invalid |
| SiteList.Initial | src/componentsGlodls/MovieList.jsx:13-20 | a list starts on page 1, open, idle, without error; glodls and yts restore the stored query or search for the current year, piratebay and torlock start blank |
| SiteList.Decimal | src/componentsGlodls/MovieList.jsx:16 | `String(currentYear)` is a non-empty string of decimal digits, with no leading zero, whose value is the year |
| SiteList.Stops | src/componentsPiratebay/MovieList.jsx:30 | the per-site "blocked"/"not found" test on `error`: substring for a string error, exact equality for yts, and a TypeError exactly when a non-string, non-array error reaches `includes` |
| SiteList.NonEmpty | src/componentsGlodls/MovieList.jsx:43 | `response.data.data.length > 0` throws exactly when `data` is missing |
| SiteList.Classify | src/componentsGlodls/MovieList.jsx:35-63 | a batch is the filtered `data` array; a readable non-stopping response with an array of non-null items always yields a batch or, for an empty array, no results |
| SiteList.KeysOf | src/componentsGlodls/MovieList.jsx:52 | the key set holds `m.id \|\| m.name` of each previous item, in order |
| SiteList.MergeAppendsUnseen | src/componentsGlodls/MovieList.jsx:51-55 | the merged list keeps the previous list as a prefix and appends, in order, exactly the batch items whose key is unseen |
| SiteList.MergeKeepsBatchDuplicates | src/componentsPiratebay/MovieList.jsx:46-50 | a batch whose keys are all new is appended whole, duplicates within the batch included |
| SiteList.MergeIdempotent | src/componentsTorlock/MovieList.jsx:46-52 | merging the same batch twice equals merging it once |
| SiteList.Fetch | src/componentsGlodls/MovieList.jsx:25-70 | a guarded call changes nothing; otherwise loading ends, the list only grows with its prefix kept, the page advances by one exactly when a non-empty batch is merged, and an exhausted list keeps its page and items |
| SiteList.PageAdvancesIffBatch | src/componentsyts/MovieList.jsx:42-55 | for a readable response the page advances iff the list stays open, the merge happens then, and otherwise the list is unchanged |
| SiteList.ErrorsKeepList | src/componentsGlodls/MovieList.jsx:64-69 | a failed request keeps list, page and `hasMore`; glodls alone records the API error, which blocks its further fetches |
| SiteList.BlockedStops | src/componentsTorlock/MovieList.jsx:30-34 | a "Website Blocked" error closes the list without touching it, and no further fetch is made |
| SiteList.YtsNotFoundStops | src/componentsyts/MovieList.jsx:30-33 | yts stops exactly on the error "Result not found." |
| SiteList.SeedersFilter | src/componentsPiratebay/MovieList.jsx:37-43 | URL-only items are always dropped; piratebay and torlock also drop zero-seeder items; glodls and yts keep every other item |
| SiteList.HandleSearch | src/componentsyts/MovieList.jsx:65-71 | a new search uses the query or the current year, stores it in the session, empties the list, reopens it on page 1, and glodls clears its API error |
| SiteList.SearchReopens | src/componentsPiratebay/MovieList.jsx:66-72 | after a new search the next fetch goes out unless one is in flight |
| Cards.CardsOf | src/MovieListRecent.jsx:19 | the card filter applies only to arrays and throws exactly when an element is `null`/`undefined` |
| Cards.CardsSpec | src/MovieListTrending.jsx:23 | the cards kept are an order-preserving selection holding exactly the elements with name, poster and rating |
| Cards.DataOrEmpty | src/MovieListTrending.jsx:22 | `response.data \|\| []`: a falsy list reads as empty |
| Trending.TrendingLoaded | src/MovieListTrending.jsx:17-31 | loading always ends; an error keeps the strip; a readable response shows the name-deduplicated card list (`TrendingMovies`, characterised by `TrendingDedupSpec`), so only movies with cards |
| Trending.TrendingCardsOnly | src/MovieListTrending.jsx:23-26 | every movie the strip shows has a name, a poster and a rating |
| Trending.TrendingDedupSpec | src/MovieListTrending.jsx:26 | names are distinct, every filtered name appears, in order of first appearance, each with the last movie of that name |
| Trending.TrendingMissingData | src/MovieListTrending.jsx:22 | a response without `data` empties the strip |
| Recent.RecentLoaded | src/MovieListRecent.jsx:14-25 | loading always ends; the strip changes only for a response carrying an array, and then shows its cards |
| Recent.RecentShowsCards | src/MovieListRecent.jsx:18-20 | the strip is an order-preserving selection holding exactly the listed movies with cards |
| Hero.HeroLoaded | src/HeroSection.jsx:15-30 | loading always ends; a readable response shows its cards and makes the first one active; otherwise movies and the active movie stay |
| Hero.HeroStartsAtFirstCard | src/HeroSection.jsx:11-26 | after the first load the active movie is the first card, or still `null` when there is none |
| Hero.BeforeChange | src/HeroSection.jsx:40-42 | sliding to index `i` activates `movies[i]`, or `undefined` outside the list |
| InfiniteScroll.MergeByUrlSpec | src/InfiniteScrollMovies.jsx:33-36 | the grid has one entry per url, in order of first appearance over old then new items, each the last item with that url |
| InfiniteScroll.FetchMovies | src/InfiniteScrollMovies.jsx:16-46 | a call while loading does nothing; otherwise loading ends and the page is kept; a reply with cards merges exactly the reply's cards by url (`MergeByUrlSpec`), marks the first page loaded and wants more iff there was a card; missing `data`, a truthy `error` or a rejection leave the grid as it was and stop the scrolling |
| InfiniteScroll.Batch | src/InfiniteScrollMovies.jsx:20-31 | a batch is the card-filtered `data` list |
| InfiniteScroll.HasMoreIffCards | src/InfiniteScrollMovies.jsx:23-44 | after a fetch more pages are wanted iff the page brought at least one card; otherwise scrolling requests nothing more |
| InfiniteScroll.LoadMore | src/InfiniteScrollMovies.jsx:57-65 | the observer advances the page and fetches only when the last card is visible, more pages exist, nothing is loading and the first page has arrived |
| InfiniteScroll.NoLoadBeforeFirstPage | src/InfiniteScrollMovies.jsx:10 | before the first page arrives scrolling does nothing |
| AllTorrentList.NotLibgen | src/MovieListAllTorrent.jsx:39 | a string url passes iff it does not contain `https://libgen.is`; a missing url or item throws |
| AllTorrentList.PosterOf | src/MovieListAllTorrent.jsx:43-45 | a falsy poster or one containing `no-cover` becomes `/fallback-poster.jpg`, any other string poster is kept, and the result is always truthy |
| AllTorrentList.Normalise | src/MovieListAllTorrent.jsx:41-46 | the spread copy changes only `poster` |
| AllTorrentList.PageMovies | src/MovieListAllTorrent.jsx:35-37 | a page is read only from a response whose `data` is an array |
| AllTorrentList.PageMoviesSpec | src/MovieListAllTorrent.jsx:39-46 | page item `i` is the `i`-th non-libgen item with only its poster replaced by a truthy one, and every non-libgen item is kept |
| AllTorrentList.FetchMovies | src/MovieListAllTorrent.jsx:24-53 | a call while loading does nothing; page 1 replaces the grid, later pages append; an error keeps the grid; loading ends |
| AllTorrentList.FirstPageReplaces | src/MovieListAllTorrent.jsx:47 | page 1 shows the same result whatever was shown before; a later page keeps the shown list as a prefix |
| AllTorrentList.HandleSearch | src/MovieListAllTorrent.jsx:76-80 | a search empties the grid, returns to page 1, and searches for the trimmed query |
| AllTorrentList.HandleScroll | src/MovieListAllTorrent.jsx:63-69 | the page advances iff the viewport bottom is within 100 pixels of the document's end |
| AllList.ProjectFields | src/MovieListAll.jsx:27-36 | the built object has exactly the listed fields, in order, each with the movie's value |
| AllList.Project | src/MovieListAll.jsx:26-37 | projection throws exactly for a `null`/`undefined` movie and yields a ten-field object |
| AllList.FetchMovies | src/MovieListAll.jsx:12-43 | a blank query does nothing; a response without an array empties the grid; otherwise the grid is replaced by one entry per result; loading ends |
| AllList.ResultsReplace | src/MovieListAll.jsx:20-39 | result `i` becomes an object with the ten fields of the `i`-th movie |
| AllList.HandleSearch | src/MovieListAll.jsx:46-49 | a search moves to page 1 even when the query is blank, and fetches it |
| AllList.HandlePageChange | src/MovieListAll.jsx:57-60 | a page change moves to the chosen page and fetches it |
| FileListing.FilesOfType | src/componentsTorlock/MovieDetail.jsx:36 | only an array listing can be filtered, and the filter throws exactly for a `null` entry |
| FileListing.FilesOfTypeSpec | src/componentsyts/MovieDetail.jsx:45 | the kept files are an order-preserving selection holding exactly the files of the type |
| FileListing.PartitionSpec | src/componentsPiratebay/MovieDetail.jsx:36-37 | videos hold exactly the `video` files and images exactly the `image` files, each in order, none in both, other types dropped |
| YtsDetail.ElementZero | src/componentsyts/MovieDetail.jsx:25 | `torrents[0]` throws exactly on a missing list and is the first element, or `undefined`, of an array |
| YtsDetail.DefaultQuality | src/componentsyts/MovieDetail.jsx:25 | the default quality is `''` without a movie, throws when the movie has no torrent list, and is otherwise truthy or `''` |
| YtsDetail.SelectedTorrent | src/componentsyts/MovieDetail.jsx:74 | a torrent is looked up only in an array of torrents |
| YtsDetail.SelectedTorrentIsFirstMatch | src/componentsyts/MovieDetail.jsx:33 | the torrent found is the first with the selected quality, and `undefined` iff none has it |
| YtsDetail.DefaultSelectsFirstTorrent | src/componentsyts/MovieDetail.jsx:25-33 | with the default quality the first torrent is selected |
| YtsDetail.FilesRequest | src/componentsyts/MovieDetail.jsx:31-38 | files are requested, for the torrent's magnet, iff the movie exists and a torrent with the quality is found |
| YtsDetail.FilesLoaded | src/componentsyts/MovieDetail.jsx:41-51 | the listing's videos become the file list and the first one's name the selection; an error changes nothing |
| YtsDetail.Initial | src/componentsyts/MovieDetail.jsx:25-29 | the first render has the default quality, no files and no selected file |
| YtsDetail.PlayerAfterListing | src/componentsyts/MovieDetail.jsx:183 | after a listing the player shows iff a video with a non-empty name came and a torrent is selected |
| PiratebayDetail.FilesLoaded | src/componentsPiratebay/MovieDetail.jsx:31-45 | the listing splits into videos and images and the first video is selected; an error changes nothing |
| PiratebayDetail.SelectByName | src/componentsPiratebay/MovieDetail.jsx:97-100 | choosing a name keeps the lists and never throws over a list without `null` entries |
| PiratebayDetail.SelectorValue | src/componentsPiratebay/MovieDetail.jsx:96 | the selector shows the selected video's name, or `''` when nothing is selected |
| PiratebayDetail.SelectRoundTrip | src/componentsPiratebay/MovieDetail.jsx:96-99 | choosing a listed name selects the first video with it and the selector shows that name; an unlisted name clears the selection |
| PiratebayDetail.ListingSelectsFirstVideo | src/componentsPiratebay/MovieDetail.jsx:27-41 | a listing with videos selects the first one by name; without videos the selector stays `''` |
| TorlockDetail.FilesLoaded | src/componentsTorlock/MovieDetail.jsx:30-42 | the listing's videos become the list and the first one's name the selection; an error changes nothing |
| TorlockDetail.PlayerIffNamedVideo | src/componentsTorlock/MovieDetail.jsx:149 | from the first render the player shows iff the listing brought a video with a non-empty name; otherwise the selection stays `''` |

## Left out

- IndexedDB plumbing is not modelled. Opening the database, transactions,
  request callbacks and their failures are left out: each store operation is
  one atomic step on a map, and a store operation never fails.
- Reader failures are not modelled. A failure part way through the stream
  (the reader rejecting) is left out: a stream is the finite list of chunks
  its reader yields.
- `Content-Length` is given already parsed. `parseInt` on the header text is
  not modelled: the length arrives as a number or `NaN`.
- Floating point is out. Percentages, megabyte sizes and `LinearProgress`
  values are left out. The two 5% tests are the exact integer comparisons
  `received*20 >= length` and `stored*20 > firstChunk`.
- `Blob`, `URL.createObjectURL` and `URL.revokeObjectURL` are browser
  objects. A published URL is modelled as the bytes of its blob.
- `encodeURIComponent`, URL building and the query strings sent to the APIs
  are library calls whose behaviour is not visible here. Requests are
  represented by their parameters, and responses are inputs.
- React effect scheduling, stale closures, and races between overlapping
  fetches or plays are concurrency. Handlers run one at a time, in full.
- Object identity is modelled structurally. `Set`/`Map` keys and `===` on
  objects are compared as structural equality of values; the keys compared
  in this code are strings.
- JavaScript numbers are integers here. Non-integer numbers are not
  represented.
- An object's fields are its keys in enumeration order, assumed distinct.
  The integer-like key reordering JavaScript applies is not modelled.
- SiteList.NonEmpty: an object carrying its own `length` field is treated as
  having no length, and numeric-string coercion is not modelled.
- SiteList.KeysOf: reads `m.id || m.name` of a `null` previous item as
  `undefined` instead of throwing. Previous items always come from filtered
  batches, which hold no `null`.
- InfiniteScroll.MergeByUrl: reads `m.url` of a `null` previous item as
  `undefined` and keeps it, where the source throws a `TypeError`. The grid
  only ever holds items that passed the card filter, which holds no `null`.
- Playback.HandlePlay: `movie.id` is taken as an already stringified id.
  The snackbar is a single field holding the last message shown. The
  loading flags other than `play` are left out.
- The remaining handlers of src/MovieDetail.jsx are out: `fetchFiles`,
  `handleDownload` and the tab and quality handlers. They are request
  plumbing and presentation, outside the player's cache logic.
- The all-torrent page's `fetchVideoFiles` (src/MovieDetailAllTorrent.jsx:44-64)
  is presentation glue around `findMagnetLink`. Only its magnet lookup is
  modelled, through `MagnetLink.FindMagnetLink`.
- The drag and wheel scroll handlers, `IntersectionObserver` wiring, slider
  settings other than `beforeChange`, and video-element events are DOM
  wiring.
- TorlockDetail has no row for its selector's `onChange`, which stores the
  chosen name as given. That is a plain field update.
- src/App.jsx and src/componentsPiratebay/HomePiratebay.jsx are route tables
  with no logic. src/TorrentStreamingAppBar.jsx is a health check plus
  presentation.
- The per-site detail pages request a listing only `if (movie)`. The
  request itself is not modelled; its reply is the input of `FilesLoaded`.
- `sessionStorage` and `new Date().getFullYear()` are inputs: the stored
  query and the year are parameters.
