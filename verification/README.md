# Verified model of the Preamp scanner, slicers, tag reader, playlists and authentication state

Preamp is a music server written in Go. This project models its stateful and byte-level core in Dafny and proves what
that core is for:

* **Library scan** (`Catalog`, `Batch`, `Cleanup`, `Store`, `Pipeline`, `ScanGuard`, `Concurrent`, `Rescan`, `Scan`,
  `Covers`, `View`, `Runs`). The tables with their keys and references, every SQL statement of the scanner, the writer with its two id
  caches, the sweep and the cleanup as methods of a class over those tables, and the goroutines of one scan as a
  transition system for any number of workers and any channel capacities. The main results: every interleaving ends, none
  gets stuck, no file is lost or duplicated, and a concurrent, batched, cached, incremental scan leaves the library a
  sequential scan of the same tree from scratch leaves. `Scan.Run` carries a scan out on the database class and is proved to
  leave exactly the library those results speak of, whether it returns nil, an error, or is cut off.
* **Audio slicing and durations** (`Bytes`, `Reals`, `Wav`, `Flac`, `Mp3`, `Mp3Headers`). The three container parsers, the
  time-to-byte arithmetic and the rewritten headers, and the scanner's integer twin of the slicer's parser.
* **ID3v2 and lyrics** (`Unicode`, `Text`, `Lyrics`, `Id3`). Two frame walkers over three header layouts, the capped reads, the text
  encodings and the lyrics frames, against encoders written as specifications.
* **Playlists** (`Playlist`). Rows keyed by (playlist, position) that must behave as a sequence.
* **Authentication state** (`KeyCache`, `FailureWindow`). The API-key cache over the credential table and the
  fixed-window failure counter.

Files are byte sequences, times in the slicers are reals, and `int64(x)` of a non-negative float is its floor. Code that
changes state is a class or a method proved against a specification; code made of expressions is a function with lemmas.
In the transition systems a state is a value and an action is one step of one goroutine. The reader of a file is a
parameter: a function from path and file to a track or a failure.

Where a wanted property does not hold of the code, the exact condition under which it does is proved:

* The writer's album cache is keyed by `artist + NUL + album`. Two tracks whose artist and album differ only in where a
  NUL splits them share an album, and then the orphan cleanup is refused by the foreign keys
  (`Runs.CollisionBlocksCleanup`). A batch keeps every song under its album's artist if and only if its keys do not collide
  (`Batch.BatchKeepsAgreementIff`), which NUL-free artist names guarantee (`Batch.NulFreeIsFaithful`).
* A changed file that cannot be read keeps its old row, and a batch whose COMMIT fails is lost while the scan returns nil,
  so an incremental scan leaves the tracks of a scan from scratch if and only if neither happened
  (`Rescan.IncrementalEqualsScratch`; inputs: `Rescan.StaleInput`, `Pipeline.LostBatch`).
* `insertBatch` and `rebuildFTS` have unnamed results, so a failing COMMIT in their deferred handlers is not reported
  (`Store.Database.InsertBatch`, `Store.Database.RebuildFts`): a scan that returns nil may have lost a batch, and may have
  kept the old search index. So users see what a scan from scratch shows if and only if, besides the two conditions above,
  the index was committed or the one kept still finds every song (`View.HistoryLooksFresh`); an index that was exact does
  if and only if no changed file has a new path, title, artist or album (`View.KeptIndexIff`, input `View.KeptIndexInput`).
* The INSERT of `rebuildFTS` does not reach its deferred handler, so its failure commits an empty index
  (`Store.Database.RebuildFts`).
* The playlist handlers answer a failing COMMIT without a ROLLBACK. Where the storage engine does not end the transaction
  itself, the request fails, nothing is stored, its changes stay pending on the write connection, and every later request
  is refused; no other failure changes anything (`Playlist.Table.Update`, `Playlist.Table.Create`, input
  `Playlist.PendingInput`).
* `songIndexToRemove` is compared with the position column. After a sweep left a gap it hits the listed entry if and only if
  that entry's position equals its index (`Playlist.RemovalHitsListedIff`, `Playlist.GapShiftsRemoval`).
* A WAV slice parses back if and only if the fmt body has even length, because the emitted chunk is not padded
  (`Wav.ReparsesIff`, input `Wav.OddFmtInput`), and its Content-Length is right if and only if the file holds the requested bytes
  (`Wav.CompleteIff`, input `Wav.TruncatedInput`). The RIFF size is right modulo 2^32.
* Xing positions rise with time for all lengths of audio if and only if the table does not decrease (`Mp3.TocRisesIff`, input
  `Mp3.FallingInput`), and the scanner's duration is the floor of the slicer's unless the Xing header claims zero frames (`Mp3.ReadingsAgree`,
  `Mp3.NoFramesMeansEstimate`, input `Mp3.NoFramesInput`). A slice from 0 to the end is all of the audio if and only if
  there is a table, no frame count, or a frame count that lasts as long as the audio does at the first frame's bitrate
  (`Mp3.WholeAudio`, input `Mp3.ShortCountInput`).
* Deleting a credential through the management pages does not flush the API-key cache, so the five-minute bound is met
  (`KeyCache.PageDeleteStillAccepted`).

## Model

| member | source | states |
|---|---|---|
| Catalog.UpsertArtist | internal/scanner/scanner.go:410-425 | the id returned names an artist row of that name |
| Catalog.UpsertArtistEffect | internal/scanner/scanner.go:410-425 | the artist upsert keeps keys and references, adds the name and nothing else, and renames no artist |
| Catalog.UpsertAlbumEffect | internal/scanner/scanner.go:427-442 | the album upsert keeps keys, references, songs and artist agreement, adds exactly the (artist, name) key, and changes nothing of existing albums but one year and genre |
| Catalog.UpsertSongEffect | internal/scanner/scanner.go:444-462 | the song upsert sets exactly the path's entry of the joined table, keeps ids and rowids unique, and keeps artist agreement when its album is its artist's |
| Catalog.NextRowid | internal/scanner/scanner.go:444-462 | a new song row gets the rowid behind the largest in use, so that of a deleted last row is used again |
| Catalog.UpsertTrackEffect | internal/scanner/scanner.go:378-404 | storing a track uncached keeps the invariant and changes the joined library at its path only |
| Batch.CachedArtistEffect | internal/scanner/scanner.go:379-387 | the artist id taken from the cache or the upsert names the track's artist, and albums, songs and cache stay valid |
| Batch.CachedAlbumEffect | internal/scanner/scanner.go:389-398 | the album id taken from the cache or the upsert names a row, and every album keeps its artist and name |
| Batch.BatchTrack | internal/scanner/scanner.go:378-405 | one turn of the batch loop keeps the database sound and the caches pointing at rows |
| Batch.BatchExplained | internal/scanner/scanner.go:389-398 | every cache key files under the artist, name, year and genre of the key's first track in the batch |
| Batch.BatchMatchesUncached | internal/scanner/scanner.go:374-405 | with keys that do not collide the cached batch equals uncached upserts, ids included, but for album years and genres |
| Batch.BatchStored | internal/scanner/scanner.go:378-404 | every song of a batch ends under the ids the caches hold for its artist and album |
| Batch.BatchKeepsAgreementIff | internal/scanner/scanner.go:374-405 | a batch leaves every song under its album's artist if and only if no two of its tracks collide in the album cache |
| Batch.NulFreeIsFaithful | internal/scanner/scanner.go:390-391 | NUL-free artist names never collide in the album cache, whatever the album names |
| Batch.BatchKeepsRows | internal/scanner/scanner.go:427-462 | a batch keeps the ids and rowids of the songs and the covers and statistics of the albums there were; new songs get rowids that were not in use, new albums no cover and no statistics |
| Cleanup.DeletePathsKeepsSound | internal/scanner/scanner.go:599-606 | deleting songs by path keeps keys and references and leaves the other tracks as they were |
| Cleanup.ForgetKeepsReferences | internal/scanner/scanner.go:563-597 | the dependent deletes remove every row that would dangle once the songs are gone |
| Cleanup.ForgetExact | internal/scanner/scanner.go:579-597 | exactly the plays, playlist rows and song stars of gone songs go; other stars, ratings and playlists stay |
| Cleanup.DeletionsCompose | internal/scanner/scanner.go:541-614 | deleting chunk after chunk is one deletion of the union, in songs, plays, stars and playlist rows |
| Cleanup.TotalWithout | internal/scanner/scanner.go:464-473 | the sum of durations does not depend on the order of summation |
| Cleanup.DeleteEmptyAlbumsEffect | internal/scanner/scanner.go:617-621 | exactly the albums without songs go, and keys, references, tracks and agreement stay |
| Cleanup.AgreementMakesArtistDeleteLegal | internal/scanner/scanner.go:616-624 | artist agreement makes the artist delete legal |
| Cleanup.DeleteIdleArtistsEffect | internal/scanner/scanner.go:622-623 | a legal artist delete keeps keys, references and tracks |
| Cleanup.ArtistDeleteKeepsReferencesIff | internal/scanner/scanner.go:622-623 | the artist delete keeps all references if and only if every song's artist still has an album |
| Cleanup.FtsOfIndexes | internal/scanner/scanner.go:648-654 | the refilled index has exactly one row per song, under its rowid, with its title, artist and album |
| Store.Database.constructor | internal/db/schema.go:3-102 | an empty database satisfies every key and reference |
| Store.Database.StoreTrack | internal/scanner/scanner.go:378-404 | one turn of the batch loop is one turn of the specification, and fails exactly when the failing statement is one of its own |
| Store.StatementsGrow | internal/scanner/scanner.go:378-404 | a batch of n tracks runs at least n + 1 statements, and its first tracks no more than all |
| Store.Database.InsertBatch | internal/scanner/scanner.go:367-408 | the transaction stores the whole batch or nothing; it reports an error exactly when one of its statements before the COMMIT fails, and none when the COMMIT does |
| Store.Database.DeletePlayRows | internal/scanner/scanner.go:588 | the plays of these songs go, and references hold after the statement |
| Store.Database.DeleteStarRows | internal/scanner/scanner.go:589 | the song stars of these ids go, and references hold after the statement |
| Store.Database.DeleteSlotRows | internal/scanner/scanner.go:590 | the playlist rows of these songs go, and references hold after the statement |
| Store.Database.DeleteSongRows | internal/scanner/scanner.go:599-606 | the songs go unless a play or a playlist still has one; references hold after the statement |
| Store.Database.DeleteChunk | internal/scanner/scanner.go:550-611 | one transaction removes its paths and all that hangs on them, or nothing, and fails exactly when storage does before its last statement: the foreign keys never refuse it |
| Store.Database.DeleteSongs | internal/scanner/scanner.go:541-614 | exactly a prefix of whole 500-path chunks is removed with all that hangs on it, all of it on success |
| Store.Aggregate | internal/scanner/scanner.go:467-470 | the group query yields the exact count and total duration of an album's songs |
| Store.Database.UpdateAlbumStats | internal/scanner/scanner.go:464-473 | every album with songs gets its exact count and duration, and nothing else changes; nothing at all when storage fails |
| Store.Database.DeleteOrphans | internal/scanner/scanner.go:617-624 | empty albums and idle artists go; the second statement fails when storage does or a song would lose its artist, with the first one kept |
| Store.Database.RebuildFts | internal/scanner/scanner.go:626-655 | the index and the error for every statement that can fail, the COMMIT included: refilled, untouched, or empty after a failing INSERT; a failing COMMIT leaves it untouched and is not reported |
| Store.OrphansGone | internal/scanner/scanner.go:248-256 | statistics followed by orphan removal leave no empty album, no idle artist and exact statistics |
| Store.Database.Finish | internal/scanner/scanner.go:229-266 | the library and the search index are those of the specification at the point where the cleanup stopped; every album left has the cover written for it, else its old one, exact statistics once they were taken, and its other columns as before; exactly the swept songs, the empty albums and the idle artists are gone as far as it came; the invariant holds; past the orphans the outcome is that of the index and of PRAGMA optimize |
| Store.FinishedKeeps | internal/scanner/scanner.go:229-261 | wherever the cleanup stops, exactly the swept paths are missing from the joined table, and keys, references and agreement are kept |
| Store.FinishedAlbums | internal/scanner/scanner.go:229-256 | wherever the cleanup stops, every album left has its old columns, but for the cover written and the statistics taken before that |
| Store.FinishedKeys | internal/scanner/scanner.go:229-256 | wherever it stops, exactly the songs, albums and artists the statements so far remove are gone |
| Store.AgreementIsLegal | internal/scanner/scanner.go:253-256 | artist agreement makes the cleanup's second orphan statement legal, whatever was swept |
| Store.FinishedClean | internal/scanner/scanner.go:243-261 | a completed cleanup leaves no empty album, no idle artist and exact statistics |
| Covers.SamplePath | internal/scanner/scanner.go:492-505 | the path the query takes for an album is the least of its songs' paths, and there is one exactly when it has songs |
| Covers.ResolveAlbumArt | internal/scanner/scanner.go:484-537 | every album with songs, and no other, gets the cover its own cover, the files on disk and the art of its sample song's directory give it |
| Covers.LessIff | internal/scanner/scanner.go:492-498 | one path is before another exactly when it is its prefix or has the smaller character where they part |
| Covers.LeastExists | internal/scanner/scanner.go:492-498 | an album with songs has a least path |
| Covers.CoverOfCases | internal/scanner/scanner.go:507-531 | a cover on disk is kept, any other is replaced by the art of the sample song's own directory, or cleared |
| Covers.CoversExist | internal/scanner/scanner.go:511-531 | a cover on disk is kept, any other is art the walk met, and an album stays without one only when its directory has none |
| Pipeline.RunInv | internal/scanner/scanner.go:115-220 | every state of every interleaving keeps the shapes of channels, workers and writer, the contents of every queue, and the counters |
| Pipeline.NoSendOnClosedChannel | internal/scanner/scanner.go:139-143 | no step any goroutine can take sends on a closed channel or closes one twice |
| Pipeline.OneConnectionUser | internal/scanner/scanner.go:88-264 | the main goroutine's statements, the loading query and those after the writer, and the writer's transactions never run at the same time, before or after any step, and once the main goroutine has returned nothing happens |
| Pipeline.JobsConserved | internal/scanner/scanner.go:115-173 | each changed file is in exactly one place, as often as the walk meets it |
| Pipeline.NeverStuck | internal/scanner/scanner.go:94-220 | every reachable state whose main goroutine has not returned has an enabled step, for any worker count and capacities of at least 1 |
| Pipeline.StepFalls | internal/scanner/scanner.go:115-220 | every step of any goroutine lowers the work left |
| Pipeline.AlwaysTerminates | internal/scanner/scanner.go:115-220 | no run is longer than 7 steps per walk event plus the workers, the main goroutine's statements and 8, whatever fails |
| Pipeline.SuccessAccountsForAll | internal/scanner/scanner.go:115-227 | a pipeline without a reported error has committed or lost every changed readable file and nothing else, seen every audio file and counted all but the unreadable |
| Pipeline.SuccessCommitsAllIff | internal/scanner/scanner.go:115-227 | it has committed every changed readable file if and only if no COMMIT failed unreported |
| Pipeline.LostBatch | internal/scanner/scanner.go:367-408 | a run with one file whose COMMIT fails: the scan succeeds and the file is lost |
| Pipeline.FailureKeepsWholeBatches | internal/scanner/scanner.go:153-173 | commits are whole batches, and after a failed insert nothing more is committed |
| Pipeline.BatchesAreFull | internal/scanner/scanner.go:145-173 | in every reachable state every batch inserted so far is full, but for the last one once the results have ended |
| ScanGuard.Exclusive | internal/scanner/scanner.go:79-92 | at most one scan body runs, at most one goroutine holds the write connection, and the flag is set exactly while a call is admitted |
| ScanGuard.RejectedKeepsFlag | internal/scanner/scanner.go:80-83 | only the admitted call clears the flag, and then no call is in a scan |
| Concurrent.UpsertAllStores | internal/scanner/scanner.go:378-404 | storing files one by one, in any order and however often, stores exactly their set |
| Concurrent.BatchesStore | internal/scanner/scanner.go:145-173 | any division of the files into batches, in any order, stores exactly their set |
| Concurrent.ConcurrentEqualsSequential | internal/scanner/scanner.go:115-220 | every interleaving and batching that loses no batch leaves the tracks, artists and albums of sequential upserts in walk order |
| Concurrent.NulFreeFiles | internal/scanner/scanner.go:390 | NUL-free artist names are enough for the files of a scan never to collide |
| Scan.Unseen | internal/scanner/scanner.go:229-235 | the list of known paths the walk did not see |
| Scan.Write | internal/scanner/scanner.go:150-173 | the writer's transactions, each answered by storage as the pipeline logged it, leave the committed batches in order, and an error exactly when one was refused |
| Scan.Run | internal/scanner/scanner.go:94-268 | carried out on the database, a run leaves exactly the library and the search index the histories ascribe to it, however it ends, a failed query for the known files and a failed PRAGMA optimize included, and returns nil exactly when they say so; once covers were written every album with songs has its cover from before if that is on disk, else the art of its least path's directory, else none; with an agreeing library and tree it keeps the invariant, and leaves a clean library on success |
| Rescan.AfterKeeps | internal/scanner/scanner.go:225-261 | however a scan ends, the invariant holds, and exactly the swept paths are missing from what the writer left |
| Rescan.AfterClean | internal/scanner/scanner.go:248-261 | a scan that returns nil leaves a clean library |
| Rescan.ScanOutcome | internal/scanner/scanner.go:94-241 | a scan that returns nil leaves under every path exactly what tree, previous library, reader and lost batches determine |
| Rescan.ScanKeepsExplained | internal/scanner/scanner.go:187-201 | any scan, failed or cut off at any point, keeps the invariant and leaves only tracks that were read from a tree scanned so far |
| Rescan.SyncedIff | internal/scanner/scanner.go:187-241 | a scan that returns nil after any history equals a fresh one if and only if no stored file has changed and become unreadable and no batch was lost |
| Rescan.HistoryInv | internal/scanner/scanner.go:79-264 | after every scan of any history, however each ended, the invariant holds and every track was read from a tree scanned so far |
| Rescan.IncrementalEqualsScratch | internal/scanner/scanner.go:94-107 | when the last of any sequence of scans returns nil it leaves the tracks of one scan into an empty library, if and only if no stored file is stale and it lost no batch |
| Rescan.NulFreeTrees | internal/scanner/scanner.go:390 | NUL-free artist names are enough for every tree of a history |
| Rescan.StaleInput | internal/scanner/scanner.go:129-133 | a stored file that changed and became unreadable: the scan keeps its row, a fresh scan has none |
| View.CleanStatistics | internal/scanner/scanner.go:464-473 | in a clean library each album's count and duration are those of the tracks under its (artist, album) key |
| View.CleanKeys | internal/scanner/scanner.go:616-624 | a clean library has exactly the albums and artists its tracks name |
| View.SameTracksSameView | internal/scanner/scanner.go:248-261 | clean libraries agree on tracks, keys, statistics and search results, whatever their ids and rowids, if and only if they have the same tracks and the index finds every song |
| View.CommittedIndex | internal/scanner/scanner.go:258-261 | a scan that returns nil and has committed its index leaves an exact one |
| View.KeptIndexIff | internal/scanner/scanner.go:626-655 | an index that was exact before a scan whose index COMMIT failed still finds every song if and only if no committed file has a new path, title, artist or album |
| View.HistoryLooksFresh | internal/scanner/scanner.go:229-266 | after any history whose last scan returns nil users see exactly what one fresh scan would show, if and only if no stored file is stale, no batch was lost, and the index was committed or the one kept finds every song |
| View.KeptIndexInput | internal/scanner/scanner.go:626-655 | one new file and a failing COMMIT of the index: the scan returns nil, nothing is stale or lost, and the search does not find the song |
| Runs.EventKeepsIntact | internal/db/schema.go:4-102 | whatever event comes next, any batch included, unique and foreign keys hold |
| Runs.EventKeepsConsistent | internal/scanner/scanner.go:378-404 | whatever event comes next, unless it is a batch whose tracks collide in the album cache, artist agreement holds too |
| Runs.BatchConsistentIff | internal/scanner/scanner.go:374-405 | a batch of distinct files keeps artist agreement if and only if its tracks do not collide |
| Runs.RunSound | internal/db/schema.go:4-102 | in every state of every run, whatever the batches, unique and foreign keys hold |
| Runs.RunConsistent | internal/scanner/scanner.go:378-404 | in every state of every run of scans, scrobbles, stars, ratings and playlist edits in which no batch so far held a collision, artist agreement holds and orphan removal is legal |
| Runs.CollisionBlocksCleanup | internal/scanner/scanner.go:390-398 | two concrete tracks with colliding cache keys break the invariant and the cleanup that follows is refused |
| Playlist.SortedIsSorted | internal/api/playlists.go:483-492 | ORDER BY position lists exactly the positions, once each, in increasing order |
| Playlist.RemoveAtEffect | internal/api/playlists.go:368-378 | deleting rows by position keeps the other songs in their order and other playlists as they were |
| Playlist.RequestedIs | internal/api/playlists.go:360-367 | exactly the removal parameters that are integers are requested |
| Playlist.InsertLast | internal/api/playlists.go:406-415 | a row past the last position never collides and appends its song |
| Playlist.Table.End | internal/api/playlists.go:418-421 | a COMMIT stores what is pending; one that fails stores nothing and changes nothing else if the engine rolls back, and leaves the changes pending if it does not |
| Playlist.Table.Update | internal/api/playlists.go:294-424 | the update succeeds exactly when every added song exists and the COMMIT does, and is exactly the owner's columns, removal, renumbering and append; a failed request stores nothing, and changes nothing at all unless its COMMIT left the transaction open; then all later ones are refused |
| Playlist.Table.UpdateColumns | internal/api/playlists.go:324-357 | name, comment and visibility are set where asked for, of the user's own playlist only |
| Playlist.ColumnsAreSet | internal/api/playlists.go:324-357 | the owner's playlist has the name asked for unless that is empty, and the comment and visibility asked for |
| Playlist.ColumnsOfOwner | internal/api/playlists.go:324-357 | no other user's playlist and no other playlist changes its columns, and no playlist its owner |
| Playlist.CreatedRow | internal/api/playlists.go:185-215 | a new playlist belongs to its creator under its name, not public; an existing one gets the name from its owner only |
| Playlist.Table.UpdateSongs | internal/api/playlists.go:359-416 | removal, renumbering and append in one go, refused exactly when a song or the playlist is missing |
| Playlist.Table.RemoveRows | internal/api/playlists.go:360-378 | removing the parsed indices one by one, duplicates included, removes exactly their rows |
| Playlist.Table.AppendSongs | internal/api/playlists.go:387-416 | adds follow the existing songs at consecutive positions, and fail only on a missing song or playlist |
| Playlist.Table.Resequence | internal/api/playlists.go:478-513 | renumbering keeps the list and makes its positions 0, 1, 2 and so on |
| Playlist.Table.Create | internal/api/playlists.go:146-232 | a created or replaced playlist has exactly the given songs numbered from 0, with the row a new one gets or the new name of the user's own; a failed request stores nothing, and changes nothing at all unless its COMMIT left the transaction open |
| Playlist.Table.Clear | internal/api/playlists.go:185-215 | the new row, or the old one renamed for its owner and its songs deleted |
| Playlist.Table.Fill | internal/api/playlists.go:217-226 | the songs at positions 0, 1, 2 and so on, refused exactly when a song or the playlist is missing |
| Playlist.PendingInput | internal/api/playlists.go:418-421 | a COMMIT that fails with the transaction left open: the added song is pending and not stored, and the same request made again is refused |
| Playlist.ContiguousRemoval | internal/api/playlists.go:360-378 | on a playlist numbered from 0 any request removes exactly the entries at the listed indices |
| Playlist.UpdateOfContiguous | internal/api/playlists.go:360-421 | an update of a contiguous playlist is the sequence edit it describes and leaves it contiguous |
| Playlist.RemovalRestoresContiguity | internal/api/playlists.go:379-384 | any removal request, even one without a valid index, renumbers a playlist with gaps |
| Playlist.RemovalHitsListedIff | internal/api/playlists.go:369-372 | removing index k removes the k-th listed entry if and only if its position is k |
| Playlist.DeletionKeepsOrder | internal/scanner/scanner.go:590 | the scanner's deletion of songs keeps the surviving songs of every playlist in order |
| Playlist.GapShiftsRemoval | internal/api/playlists.go:369-372 | the playlist a sweep leaves without its first song: removing the second listed song removes the first |
| Bytes.SyncSafeRoundTrip | internal/scanner/id3.go:326-327 | the four synchsafe bytes of a number below 2^28 read back as it |
| Bytes.SyncSafeIs | internal/scanner/id3.go:326-327 | on any four bytes the shifted bytes are added, without the bits that fall together |
| Wav.Parse | internal/api/slice.go:387-434 | the chunk loop computes the chunk walk |
| Wav.ByteRange | internal/api/slice.go:440-458 | times become the block-aligned byte range inside the data chunk |
| Wav.Emit | internal/api/slice.go:460-491 | the emitted bytes are the rewritten headers and what the file holds of the range |
| Wav.Slice | internal/api/slice.go:382-493 | the whole slicer: fall back or the response its specification gives |
| Wav.FindsFmtThenData | internal/api/slice.go:400-434 | with fmt before data among any other chunks the walk finds both bodies |
| Wav.FindsDataThenFmt | internal/api/slice.go:400-434 | with data before fmt among any other chunks the walk finds both bodies |
| Wav.RejectsFmt | internal/api/slice.go:412-419 | a fmt chunk that is too short, too long or cut off is answered with the whole file |
| Wav.RejectsOther | internal/api/slice.go:387-393 | what does not start as a RIFF file of type WAVE is answered with the whole file |
| Wav.CompleteIff | internal/api/slice.go:461-491 | Content-Length is the body's length if and only if the file holds the requested bytes |
| Wav.TruncatedInput | internal/api/slice.go:461-491 | a file cut off in its data chunk: the response is not as long as its Content-Length |
| Wav.ResponseParses | internal/api/slice.go:460-491 | parsing the response gives the same fmt body and exactly the requested bytes, with the sizes written true modulo 2^32 |
| Wav.ReparsesIff | internal/api/slice.go:475-480 | the response parses back at the data it was given if and only if the fmt body has even length |
| Wav.OddFmtInput | internal/api/slice.go:475-480 | a file with a 17-byte fmt body: its slice does not parse back |
| Wav.AlignedBounds | internal/api/slice.go:440-458 | at sample-aligned times the byte range is the sample range, cut at the last whole block |
| Wav.FmtFields | internal/api/slice.go:420-421 | sample rate and block align are read from their places in a fmt body |
| Wav.BoundsAre | internal/api/slice.go:440-458 | at any times the byte range is that of the blocks playing at them, and empty when that holds no whole block |
| Wav.SliceInSeconds | internal/api/slice.go:382-493 | the slice of a PCM file with these fmt fields holds exactly the sample blocks from the one playing at the start up to the one playing at the end |
| Wav.SliceOfSlice | internal/api/slice.go:440-491 | slicing a slice at sample-aligned times is one slice at the summed offset |
| Flac.ReadTable | internal/api/slice.go:300-313 | reading entry by entry gives the table of the body, or fails where the file ends |
| Flac.Parse | internal/api/slice.go:270-324 | the metadata loop computes the block walk |
| Flac.StreamInfoFields | internal/api/slice.go:330-336 | sample rate and total are the 20-bit and 36-bit fields packed in STREAMINFO (section 8.2 of RFC 9639) |
| Flac.SeekPointFloor | internal/api/slice.go:234-247 | the loop computes the offset of the last point at or before the target, stopping at the first after it |
| Flac.SeekPointCeil | internal/api/slice.go:251-261 | the loop computes the offset of the first point after the target, or the end |
| Flac.Slice | internal/api/slice.go:265-378 | the whole slicer: fall back, a failed seek, or the response its specification gives |
| Flac.LengthAgrees | internal/api/slice.go:353-376 | whatever the file, a response is as long as its Content-Length |
| Flac.SignedIs | internal/api/slice.go:353-357 | a seek offset is taken modulo 2^64 into the signed range |
| Flac.WalkBlocks | internal/api/slice.go:280-324 | on encoded blocks the walk ends at the first frame with the last STREAMINFO and the last seek table |
| Flac.FindsFrames | internal/api/slice.go:280-324 | in a well-formed file (section 8.1 of RFC 9639) the walk finds the first frame's offset |
| Flac.RejectsOther | internal/api/slice.go:270-273 | what does not start with the marker is answered with the whole file, and the scanner reads no length of it or of a file whose first block is not STREAMINFO |
| Flac.PointsRoundTrip | internal/api/slice.go:300-313 | an encoded seek table (section 8.5 of RFC 9639) reads as its entries |
| Flac.FloorFinds | internal/api/slice.go:234-247 | with a sorted table the floor is the offset of the last frame with a seek point at or before the target |
| Flac.CeilFinds | internal/api/slice.go:251-261 | with a sorted table the ceiling is the offset of the first frame with a seek point after the target |
| Flac.RangeCovers | internal/api/slice.go:346-351 | the frames chosen hold every frame that overlaps the samples asked for, and no seek point gives a tighter choice |
| Flac.SampleRangeIs | internal/api/slice.go:338-347 | the range is empty exactly when the start is behind the last sample; else it goes from the sample playing at the start to the one playing at the end, or to the number of samples |
| Flac.SliceCovers | internal/api/slice.go:265-378 | a slice is STREAMINFO followed by a run of whole frames that holds every sample played between the two times, tight among the seek points (section 8.5 of RFC 9639); a start behind the last sample is answered with the whole file |
| Flac.ResponseParses | internal/api/slice.go:368-376 | the response is a FLAC stream whose only metadata is the original STREAMINFO |
| Flac.SecondsAgree | internal/scanner/duration.go:178-216 | with STREAMINFO first and only once, with a seek table or without, both readings take the same STREAMINFO and the scanner's seconds are the floor of the slicer's duration |
| Mp3.FirstFrame | internal/scanner/duration.go:105-121 | the header found is valid and no earlier position with a byte behind it is |
| Mp3Headers.ReadsHeader | internal/api/slice.go:76-109 | a written frame header of any version, bitrate, rate and channel mode is found, and its bitrate, sample rate, samples and length of side information are those of the format |
| Mp3Headers.IsFrameIff | internal/api/slice.go:76-92 | four bytes are taken for a frame header exactly when they are one |
| Mp3Headers.ReadsXing | internal/api/slice.go:116-141 | a written Xing header with any of its fields gives back frame count and table |
| Mp3Headers.ReadsVbr | internal/api/slice.go:42-152 | of a file with a tag or none, a frame header, side information and a Xing header both parsers read the written frame count, table and rates, and the length they make up |
| Mp3Headers.ReadsPlain | internal/scanner/duration.go:70-174 | without a Xing header both go by the bitrate of the first frame |
| Mp3Headers.AudioStarts | internal/api/slice.go:49-56 | the audio of a file with a tag starts behind the size in its header, that of any other at its start |
| Mp3Headers.FoundIff | internal/api/slice.go:58-92 | both parsers accept exactly the files with a frame header in the first 65792 bytes behind the tag and a byte behind it, and the audio starts at the first |
| Mp3.ParseInfo | internal/api/slice.go:42-152 | the slicer's parser computes its specification |
| Mp3.ReadToc | internal/api/slice.go:128-141 | the table is read behind the optional frame and byte counts, when the chunk holds all of it |
| Mp3.ParseDuration | internal/scanner/duration.go:70-174 | the scanner's parser computes its specification |
| Mp3.TagSizeIs | internal/scanner/id3.go:326-335 | the offset readID3v2 hands over is the one the parsers detect themselves |
| Mp3.ReadingsAgree | internal/scanner/duration.go:70-174 | both parsers accept the same files; the scanner's seconds are the floor of the slicer's unless the Xing header claims no frames; a handed-over offset changes nothing |
| Mp3.NoFramesMeansEstimate | internal/api/slice.go:144-147 | with a frame count of zero the scanner reads 0 and the slicer a positive estimate from the bitrate |
| Mp3.NoFramesInput | internal/api/slice.go:144-147 | a file whose Xing header claims no frames: the scanner reads 0 seconds, the slicer more |
| Mp3.TocInRange | internal/api/slice.go:155-172 | a position is never before the audio nor behind it, whatever the table |
| Mp3.TocRises | internal/api/slice.go:155-172 | with a non-decreasing table positions rise with the fraction, across segment joins and both ends |
| Mp3.TocRisesIff | internal/api/slice.go:155-172 | positions rise for every length of audio if and only if the table does not decrease |
| Mp3.FallingInput | internal/api/slice.go:155-172 | a table that falls: a later time is at an earlier byte |
| Mp3.Slice | internal/api/slice.go:176-224 | the whole slicer: fall back or the bytes its specification gives |
| Mp3.PositionIs | internal/api/slice.go:155-172 | the byte of a time: by the table in proportion between its hundredths, at the ends exactly, or 125 bytes a second for every kbps |
| Mp3.SliceInSeconds | internal/api/slice.go:176-224 | a slice is the bytes from the one the start falls on up to the one the end falls on, as far as the file goes |
| Mp3.SliceInside | internal/api/slice.go:206-223 | a slice lies inside the audio and is as long as its Content-Length |
| Mp3.SlicesTile | internal/api/slice.go:182-213 | any number of neighbouring slices concatenate to the one slice of their total length, with a table as without |
| Mp3.WholeAudio | internal/api/slice.go:182-213 | from 0 to the end is all of the audio if and only if there is a table, or no frame count, or one that lasts as long as the audio does at the first frame's bitrate |
| Mp3.ShortCountInput | internal/api/slice.go:182-213 | a header that claims one frame before 4000 bytes: the slice from 0 to the end is 417 of them |
| Unicode.Utf8RoundTrip | internal/scanner/id3.go:496-516 | the bytes emitted for scalar values are read back as them by a reader written from the byte side (section 3 of RFC 3629) |
| Unicode.Utf8Unique | internal/scanner/id3.go:496-516 | no other bytes are read as them |
| Text.EncodingsAgree | internal/scanner/id3.go:459-516 | UTF-8 text without a trailing NUL comes out as it is from UTF-8, UTF-16BE, UTF-16 with either mark, and UTF-16 without one, read as big-endian; an odd last byte is dropped |
| Text.RunesFromPieces | internal/scanner/id3.go:496-516 | any UTF-16 text decodes piece by piece: surrogate pairs to their scalar, stray surrogates to the replacement character |
| Text.TrimNull | internal/scanner/id3.go:518-520 | only NUL bytes at the end are cut, and all of them |
| Lyrics.SkipNullTerminated | internal/scanner/id3.go:240-257 | the rest behind the first terminator on a unit boundary, or nothing |
| Lyrics.ReadNullTerminated | internal/scanner/id3.go:261-277 | the decoded text before the first terminator on a unit boundary and the rest behind it |
| Lyrics.ParseSYLT | internal/scanner/id3.go:190-237 | the parser computes one line per complete segment, or rejects the frame |
| Lyrics.SegmentsOfEncoded | internal/scanner/id3.go:205-226 | parsing encoded segments gives them back |
| Lyrics.EncodedOfSegments | internal/scanner/id3.go:205-226 | any input is the encoding of its raw segments and a tail without a complete segment |
| Lyrics.SyltRoundTrip | internal/scanner/id3.go:190-237 | parsing an encoded SYLT frame (section 4.9 of ID3v2.4.0-frames) gives its language and a line per segment |
| Lyrics.SungRoundTrip | internal/scanner/id3.go:218-224 | NUL-free texts in UTF-8, UTF-16BE or UTF-16 behind either mark come back as UTF-8 of the same scalars, frame time stamps times 26 |
| Lyrics.RawRoundTrip | internal/scanner/id3.go:190-237 | in a single-byte encoding any NUL-free bytes come back as they are |
| Lyrics.ParseUSLT | internal/scanner/id3.go:159-185 | the parser splits the decoded text behind the descriptor into lines, or rejects the frame |
| Lyrics.LinesRoundTrip | internal/scanner/id3.go:295-303 | text with CR LF line ends splits into its lines |
| Lyrics.UsltRoundTrip | internal/scanner/id3.go:159-185 | parsing an encoded USLT frame (section 4.8 of ID3v2.4.0-frames) gives its language and its lines, in every encoding |
| Lyrics.UnterminatedRejected | internal/scanner/id3.go:240-257 | a frame whose descriptor has no terminator on a unit boundary is rejected |
| Id3.ParseFrames | internal/scanner/id3.go:342-417 | the scanner's walker is the fold of applyTag over the frames of the body |
| Id3.ParseLyricsFrames | internal/scanner/id3.go:78-155 | the lyrics walker collects the lyrics of the same frames |
| Id3.ReadTags | internal/scanner/id3.go:309-337 | the capped read of the scanner: tags of the frames in 4096 bytes of body, and the tag's size |
| Id3.ReadLyrics | internal/scanner/id3.go:50-75 | the capped read of the lyrics: those of the frames in 512 KB of body |
| Id3.Untagged | internal/scanner/id3.go:309-324 | a file too short for a header has neither tags nor lyrics; one without a tag of version 2.2 to 2.4 has no tags and an empty list of lyrics |
| Id3.FramesInPrefix | internal/scanner/id3.go:367-414 | cutting a tag body anywhere leaves a prefix of its frames, whatever the bytes |
| Id3.ScannerSeesPrefix | internal/scanner/id3.go:23-32 | the scanner sees a prefix of the frames the lyrics reader sees |
| Id3.PrefixGivesFrames | internal/scanner/id3.go:342-417 | any prefix of an encoded body (sections 3.2 and 4 of ID3v2.4.0-structure, and versions 2.2 and 2.3) gives exactly the frames lying wholly in it |
| Id3.ReadUndoesEncoder | internal/scanner/id3.go:309-337 | reading an encoded file gives the fold over the frames within the cap, the lyrics within theirs, and the tag's size |
| Id3.ValueIs | internal/scanner/id3.go:401-407 | the value of a field is the text of the last frame that sets it, and there is none exactly when no frame does |
| Id3.LastWins | internal/scanner/id3.go:433-455 | every field ends as the last wanted, short enough, non-empty frame sets it; a year needs four bytes of text |
| Id3.GenreForms | internal/scanner/id3.go:532-544 | a numeric reference in front is cut, stands alone when nothing follows, and other texts stay |
| Id3.TextFrameSets | internal/scanner/id3.go:420-455 | every frame id of four letters sets its own field and no other |
| Id3.OldTextFrameSets | internal/scanner/id3.go:420-455 | those of three letters do so in version 2.2 and are passed over in the others |
| Id3.LyricFrames | internal/scanner/id3.go:141-150 | USLT and ULT frames give unsynced lyrics, SYLT and SLT frames synced ones |
| Id3.OtherFrames | internal/scanner/id3.go:141-150 | no other frame gives lyrics |
| Id3.AtoiOfDecimal | internal/scanner/id3.go:451-453 | decimal digits are read as their number, with a sign or without, up to the largest that fits |
| Id3.AtoiOfOther | internal/scanner/id3.go:451-453 | any other text is read as 0 |
| Id3.SpaceIsWhite | internal/scanner/id3.go:528 | what is trimmed is the UTF-8 of Unicode white space |
| Id3.TrackRoundTrip | internal/scanner/id3.go:523-529 | "N" and "N/M" give N, whatever white space stands around it, up to the largest number that fits |
| KeyCache.FirstMatch | internal/api/auth.go:207-219 | a user is found exactly when a live row matches the key, and it is such a row's user |
| KeyCache.Server.AuthenticateAPIKey | internal/api/auth.go:196-221 | the answer and the new cache are those of the specification, a failing read of the table included; the table is not touched |
| KeyCache.Server.FlushAPIKeyCache | internal/api/auth.go:224-229 | the cache is empty afterwards |
| KeyCache.Server.DeleteCredential | internal/api/admin.go:211-239 | the row goes, and the cache is flushed exactly when there was one |
| KeyCache.EntryVouched | internal/api/auth.go:199-217 | every cache entry goes back to a request that found the row, with no flush since |
| KeyCache.AcceptedIsRecent | internal/api/auth.go:196-221 | whoever is accepted matched a live row at a request that ended less than five minutes ago, with no flush since |
| KeyCache.AfterFlush | internal/api/admin.go:222-237 | after a flush a key is accepted only on a row seen after it |
| KeyCache.DeletedKeyRefused | internal/api/admin.go:211-239 | a key whose rows are deleted with a flush is refused for as long as no matching row is added |
| KeyCache.AnswerIs | internal/api/auth.go:196-221 | an entry that has not ended answers; else a key is accepted exactly when the table can be read and has a row that it matches and that has no expiry or a later one, and is taken for the first such row's user |
| KeyCache.RequestCaches | internal/api/auth.go:196-221 | a request answered from an entry leaves the cache as it was; any other leaves an entry exactly when it is accepted, for five minutes from its end |
| KeyCache.DeletesOwnRow | internal/api/admin.go:211-239 | both deletes remove exactly the user's row of that id; the cache is emptied exactly by an admin delete that found one |
| KeyCache.RenewedAccepted | internal/api/admin.go:172-209 | a renewed key is accepted until its new expiry, and other rows stay |
| KeyCache.LiveKeyAccepted | internal/api/auth.go:268-300 | a key with a live row is refused exactly when the table cannot be read and no entry is cached |
| KeyCache.PageDeleteStillAccepted | internal/manage/handlers.go:289-311 | a key deleted through the management pages is still accepted just before its entry ends |
| FailureWindow.Limiter.CheckRateLimit | internal/api/auth.go:40-54 | the entry is reset exactly when its window is over, and the limit is read from it |
| FailureWindow.Limiter.RecordAuthFailure | internal/api/auth.go:56-71 | a failure counts in its window or opens a new one; other addresses are untouched |
| FailureWindow.Limiter.ClearAuthFailure | internal/api/auth.go:73-79 | the address is forgotten, the others are not |
| FailureWindow.Limiter.Handle | internal/api/auth.go:126-189 | one request through the middleware, and no other address touched |
| FailureWindow.RunKeeps | internal/api/auth.go:40-71 | the counter of every run without a success is the number of failures recorded in its window |
| FailureWindow.AtMostTwenty | internal/api/auth.go:23-27 | without a success, failure i + 20 comes more than five minutes after failure i |
| FailureWindow.OpenedByCall | internal/api/auth.go:48-52 | the two clock readings of a window are those of the one call that opened it |
| FailureWindow.RefusedIff | internal/api/auth.go:40-71 | a window ends five minutes after the reading that set it, holds at most 10 failures, a request is refused exactly when it comes in a window that holds 10, and refusals change nothing |
| FailureWindow.CountingIs | internal/api/auth.go:40-79 | after any run the entry is that of the requests since the last success that was let through |
| FailureWindow.AnyRefusedIff | internal/api/auth.go:40-79 | in any run a request is refused exactly when it comes in the window of those requests and 10 of their failures are in it |
| FailureWindow.AfterSuccess | internal/api/auth.go:73-79 | after a success that was let through no request is refused until 10 more failures have been recorded |

## Left out

- Pipeline.OneConnectionUser: how many statements the main goroutine runs after the writer is a parameter; what each of them does is in `Store` and `Scan`.
- Scan.Run: takes the state in which the pipeline ended as an argument; that this state is one a pipeline can end in is its precondition.
- Covers.ResolveAlbumArt: errors of its query and of its single updates, which the source ignores; the art files by directory are an input, and so is which files exist.
- Store.Database.DeleteSongs: a failure is any statement after which the engine refuses all further ones in the call; the transaction in progress is rolled back.
- Rescan.IncrementalEqualsScratch: the tree holds the files the walk reaches and can stat; a walk or stat error keeps a path out of the tree, and its song is then swept, as in the code. The walk meets each path once.
- Playlist.Table.Update: the time of the last update, parsing of the request and its answer. How a failing COMMIT ends (rolled back or left open) is an argument; that the connection goes back to its pool with the transaction open, and that BEGIN is refused there, is SQLite's and the driver's behaviour.
- Playlist.Table.Create: the times of creation and update, parsing of the request and the answer read back afterwards.
- Catalog.NextRowid: a rowid is one more than the largest in use, as SQLite draws it below 2^63 - 1; VACUUM is not part of this model.
- Wav.Slice: rounding of IEEE arithmetic; times are reals and conversions floor. The same holds for Flac.Slice and Mp3.Slice, and for tocLookup.
- Flac.SecondsAgree: the bitrate the scanner derives from the file size is not modelled.
- Flac.SliceCovers: the copied STREAMINFO still counts the samples of the whole file; nothing is claimed about its totals.
- Mp3.ParseInfo: a read delivers as many bytes as the file has; short reads of a regular file are not modelled. The same holds for Mp3.ParseDuration and for Id3.ReadTags.
- Lyrics.SungRoundTrip: texts in UTF-16 without a byte order mark under the encoding that demands one.
- Id3.ReadUndoesEncoder: unsynchronisation, compression, encryption and footers, which the parser ignores.
- KeyCache.AcceptedIsRecent: the five minutes count from the end of the request that scanned the table, because the code reads the clock again after comparing the hashes; SHA-256 is taken to be injective, bcrypt is an abstract predicate, and expiry strings are points on one clock.
- FailureWindow.AtMostTwenty: requests of one address handled one after the other; interleavings inside the counter's separate atomic operations are not modelled.
- SQLite itself, FTS5 tokenising and ranking, the connection pool beyond its size of one, and write-ahead logging: tables are maps and sets with their keys, transactions are snapshots.
- Ids are drawn from a counter; that random ids do not repeat is assumed.
- ffprobe, the tag library for other formats, default titles from file names, image resizing, HTTP, routing, sessions, browsing, search and the management pages apart from their credential delete.
