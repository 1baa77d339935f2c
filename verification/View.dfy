/** What users see of a clean library is determined by its tracks alone: ids, insertion order and batching leave no
    other trace. */
module View {
  import opened Catalog
  import opened Cleanup
  import opened Store
  import opened Concurrent
  import opened Options
  import Rescan

  /** The paths filed under an (artist, album) pair. */
  ghost function Under(tracks: map<string, Track>, key: (string, string)): set<string> {
    set p | p in tracks && KeyOf(tracks[p]) == key
  }

  ghost function TotalOf(tracks: map<string, Track>, paths: set<string>): int
    requires paths <= tracks.Keys
  {
    if paths == {} then 0
    else
      var p :| p in paths;
      tracks[p].data.duration + TotalOf(tracks, paths - {p})
  }

  lemma {:induction false} TotalsAgree(song: Songs, tracks: map<string, Track>, paths: set<string>)
    requires paths <= song.Keys && paths <= tracks.Keys
    requires forall p | p in paths :: tracks[p].data == song[p].data
    ensures TotalOf(tracks, paths) == TotalDuration(song, paths)
    decreases paths
  {
    if paths != {} {
      var p :| p in paths && TotalOf(tracks, paths) == tracks[p].data.duration + TotalOf(tracks, paths - {p});
      TotalsAgree(song, tracks, paths - {p});
      TotalWithout(song, paths, p);
    }
  }

  lemma KeyIdentifiesAlbum(l: Library, a: Id, b: Id)
    requires Sound(l) && a in l.album && b in l.album
    ensures AlbumKey(l.album[a], l.artist) == AlbumKey(l.album[b], l.artist) <==> a == b
  {
    hide UniqueSongs, SongReferences, IdsDrawn;
  }

  lemma KeyOfSong(l: Library, p: string)
    requires Inv(l) && p in l.song
    ensures KeyOf(LibraryTracks(l)[p]) == AlbumKey(l.album[l.song[p].albumId], l.artist)
  {
    hide UniqueKeys, IdsDrawn;
  }

  /** An album's group in the song table is the set of paths filed under its key. */
  lemma GroupIsUnder(l: Library, a: Id)
    requires Inv(l) && a in l.album
    ensures SongsOf(l.song, a) == Under(LibraryTracks(l), AlbumKey(l.album[a], l.artist))
  {
    hide UniqueKeys, IdsDrawn, ArtistAgreement;
    forall p | p in l.song ensures l.song[p].albumId == a <==>
      KeyOf(LibraryTracks(l)[p]) == AlbumKey(l.album[a], l.artist) {
      KeyOfSong(l, p);
      KeyIdentifiesAlbum(l, a, l.song[p].albumId);
    }
  }

  /** The statistics of an album in a clean library are the count and the total duration of the tracks under its key. */
  lemma CleanStatistics(l: Library, a: Id)
    requires Inv(l) && Clean(l) && a in l.album
    ensures var key := AlbumKey(l.album[a], l.artist);
      && Under(LibraryTracks(l), key) != {}
      && l.album[a].songCount == |Under(LibraryTracks(l), key)|
      && l.album[a].duration == TotalOf(LibraryTracks(l), Under(LibraryTracks(l), key))
  {
    GroupIsUnder(l, a);
    hide UniqueKeys, IdsDrawn, ArtistAgreement, Under, AlbumReferences;
    assert forall p | p in l.song :: LibraryTracks(l)[p].data == l.song[p].data;
    assert SongsOf(l.song, a) <= l.song.Keys;
    TotalsAgree(l.song, LibraryTracks(l), SongsOf(l.song, a));
  }

  lemma SongHasKeys(l: Library, p: string)
    requires Inv(l) && p in l.song
    ensures KeyOf(LibraryTracks(l)[p]) in AlbumKeys(l.album, l.artist)
    ensures LibraryTracks(l)[p].artist in ArtistNames(l.artist)
  {
    hide UniqueKeys, IdsDrawn, ArtistAgreement, LibraryTracks, KeyOf;
    KeyOfSong(l, p);
    TrackArtist(l, p);
    assert l.song[p].albumId in l.album;
  }

  lemma AlbumHasTrack(l: Library, a: Id)
    requires Inv(l) && Clean(l) && a in l.album
    ensures AlbumKey(l.album[a], l.artist) in KeysOf(LibraryTracks(l))
    ensures l.artist[l.album[a].artistId] in ArtistsOf(LibraryTracks(l))
  {
    hide UniqueKeys, IdsDrawn, ArtistAgreement, LibraryTracks, KeyOf;
    TrackPaths(l);
    var p :| p in SongsOf(l.song, a);
    KeyOfSong(l, p);
    TrackArtist(l, p);
  }

  lemma TrackKeysExist(l: Library)
    requires Inv(l)
    ensures KeysOf(LibraryTracks(l)) <= AlbumKeys(l.album, l.artist)
    ensures ArtistsOf(LibraryTracks(l)) <= ArtistNames(l.artist)
  {
    hide UniqueKeys, IdsDrawn, ArtistAgreement, LibraryTracks, KeyOf, AlbumReferences, SongReferences, AlbumKeys,
         ArtistNames;
    TrackPaths(l);
    forall p | p in l.song
      ensures KeyOf(LibraryTracks(l)[p]) in AlbumKeys(l.album, l.artist) &&
        LibraryTracks(l)[p].artist in ArtistNames(l.artist)
    {
      SongHasKeys(l, p);
    }
  }

  lemma NoKeyIsIdle(l: Library)
    requires Inv(l) && Clean(l)
    ensures AlbumKeys(l.album, l.artist) <= KeysOf(LibraryTracks(l))
    ensures ArtistNames(l.artist) <= ArtistsOf(LibraryTracks(l))
  {
    hide UniqueKeys, IdsDrawn, ArtistAgreement, LibraryTracks, KeyOf, SongReferences, AlbumKey, SongsOf, Counted,
         KeysOf, ArtistsOf;
    forall a | a in l.album
      ensures AlbumKey(l.album[a], l.artist) in KeysOf(LibraryTracks(l)) &&
        l.artist[l.album[a].artistId] in ArtistsOf(LibraryTracks(l))
    {
      AlbumHasTrack(l, a);
    }
  }

  /** A clean library has exactly the albums and artists its tracks name. */
  lemma CleanKeys(l: Library)
    requires Inv(l) && Clean(l)
    ensures AlbumKeys(l.album, l.artist) == KeysOf(LibraryTracks(l))
    ensures ArtistNames(l.artist) == ArtistsOf(LibraryTracks(l))
  {
    hide UniqueKeys, IdsDrawn, ArtistAgreement, LibraryTracks, Clean, AlbumKeys, KeysOf, ArtistNames, ArtistsOf;
    TrackKeysExist(l);
    NoKeyIsIdle(l);
  }

  lemma TrackPaths(l: Library)
    requires ForeignKeys(l)
    ensures LibraryTracks(l).Keys == l.song.Keys
  {
  }

  lemma TrackArtist(l: Library, p: string)
    requires Inv(l) && p in l.song
    ensures LibraryTracks(l)[p].artist == l.artist[l.song[p].artistId]
    ensures LibraryTracks(l)[p].artist == l.artist[l.album[l.song[p].albumId].artistId]
  {
    hide UniqueKeys, IdsDrawn;
  }

  /** What the search finds for each song of both libraries is the same. */
  ghost predicate SameAnswers(l: Library, fts: Fts, u: Library, fts': Fts) {
    forall p | p in l.song && p in u.song ::
      && l.song[p].rowid in fts && u.song[p].rowid in fts'
      && fts[l.song[p].rowid] == fts'[u.song[p].rowid]
  }

  /** Two libraries that differ only in ids, rowids, album years, genres and covers. */
  ghost predicate SameToUsers(l: Library, fts: Fts, u: Library, fts': Fts) {
    && ForeignKeys(l) && ForeignKeys(u)
    && LibraryTracks(l) == LibraryTracks(u)
    && ArtistNames(l.artist) == ArtistNames(u.artist)
    && AlbumKeys(l.album, l.artist) == AlbumKeys(u.album, u.artist)
    && SameStatistics(l, u)
    && SameAnswers(l, fts, u, fts')
  }

  ghost predicate SameStatistics(l: Library, u: Library)
    requires ForeignKeys(l) && ForeignKeys(u)
  {
    forall a, b | a in l.album && b in u.album && AlbumKey(l.album[a], l.artist) == AlbumKey(u.album[b], u.artist) ::
      l.album[a].songCount == u.album[b].songCount && l.album[a].duration == u.album[b].duration
  }

  /** A clean library with an index that answers looks the same to users as another exactly when their tracks are the
      same and its index answers too. */
  lemma SameTracksSameView(l: Library, fts: Fts, u: Library, fts': Fts)
    requires Inv(l) && Clean(l) && Inv(u) && Clean(u) && Answers(fts', u)
    ensures SameToUsers(l, fts, u, fts') <==> LibraryTracks(l) == LibraryTracks(u) && Answers(fts, l)
  {
    hide UniqueKeys, IdsDrawn, ArtistAgreement, Clean, AlbumReferences, LibraryTracks, AlbumKeys, ArtistNames, KeysOf,
         ArtistsOf, Answers, SameAnswers, SameStatistics;
    if LibraryTracks(l) == LibraryTracks(u) {
      CleanKeys(l);
      CleanKeys(u);
      SameTotals(l, u);
      SameIndex(l, fts, u, fts');
    }
  }

  lemma SameTotals(l: Library, u: Library)
    requires Inv(l) && Clean(l) && Inv(u) && Clean(u) && LibraryTracks(l) == LibraryTracks(u)
    ensures SameStatistics(l, u)
  {
    hide UniqueKeys, IdsDrawn, ArtistAgreement, Clean, Under, SongReferences, KeyOf, LibraryTracks;
    forall a, b | a in l.album && b in u.album && AlbumKey(l.album[a], l.artist) == AlbumKey(u.album[b], u.artist)
      ensures l.album[a].songCount == u.album[b].songCount && l.album[a].duration == u.album[b].duration
    {
      CleanStatistics(l, a);
      CleanStatistics(u, b);
    }
  }

  lemma SameIndex(l: Library, fts: Fts, u: Library, fts': Fts)
    requires ForeignKeys(l) && ForeignKeys(u) && LibraryTracks(l) == LibraryTracks(u) && Answers(fts', u)
    ensures SameAnswers(l, fts, u, fts') <==> Answers(fts, l)
  {
    hide LibraryTracks, ForeignKeys, Words;
    TrackPaths(l);
    TrackPaths(u);
    assert forall p | p in u.song :: Finds(fts', u, p);
  }

  /* ---------------- an index that was not committed ---------------- */

  /** A changed readable file whose path or whose title, artist or album the library does not have. */
  ghost predicate NewWords(l: Library, tree: Rescan.Tree, read: Rescan.Reader, p: string) {
    && ForeignKeys(l) && p in tree && !Rescan.UnchangedFile(l.song, p, tree[p]) && read(p, tree[p]).Some?
    && !(p in l.song && Words(read(p, tree[p]).value) == Words(LibraryTracks(l)[p]))
  }

  ghost predicate SomeNewWords(l: Library, tree: Rescan.Tree, read: Rescan.Reader, lost: seq<string>) {
    exists p :: NewWords(l, tree, read, p) && p !in lost
  }

  lemma AfterRowids(l: Library, tree: Rescan.Tree, read: Rescan.Reader, r: Rescan.ScanRun)
    requires Sound(l) && Rescan.ScanOf(l, tree, read, r)
    ensures forall p | p in l.song && p in Rescan.After(l, r).song ::
      Rescan.After(l, r).song[p].rowid == l.song[p].rowid
    ensures forall p | p in Rescan.After(l, r).song && p !in l.song ::
      Rescan.After(l, r).song[p].rowid !in Rowids(l.song)
  {
    hide Sound, Rescan.P.Reachable, Rowids, Finished, WriteBatches;
    Rescan.CommittedReadable(r.config, r.state);
    WritesKeepRows(l, r.config.readable, r.state.committed);
    FinishedSongs(Rescan.Written(l, r), r.gone, r.covers, r.stop);
  }

  lemma FindsIff(l: Library, fts: Fts, tree: Rescan.Tree, read: Rescan.Reader, r: Rescan.ScanRun, p: string)
    requires Inv(l) && Rescan.ReaderOk(read) && FaithfulFiles(Rescan.ReadableFiles(tree, read), tree.Keys)
    requires Indexes(fts, l) && Rescan.ScanOf(l, tree, read, r) && Rescan.ReturnedNil(r)
    ensures ForeignKeys(Rescan.After(l, r))
    ensures var l' := Rescan.After(l, r);
      (p in l'.song ==> Finds(fts, l', p)) <==> !(NewWords(l, tree, read, p) && p !in r.state.lost)
  {
    hide Sound, ArtistAgreement, Rescan.ReaderOk, FaithfulFiles, Rescan.ReadableFiles, Rescan.ScanOf, Rescan.After,
         LibraryTracks, Rescan.ReturnedNil, Rescan.UnchangedFile, Words;
    InvForeign(l);
    hide ForeignKeys;
    Rescan.ScanOutcome(l, tree, read, r, p);
    AfterRowids(l, tree, read, r);
    TrackPaths(l);
    TrackPaths(Rescan.After(l, r));
    if p in l.song {
      assert Finds(fts, l, p);
    }
  }

  /** When the COMMIT of the index fails unreported, the old index, exact before the scan, still finds every song by
      its words if and only if no committed file has a new path, title, artist or album. */
  lemma KeptIndexIff(l: Library, fts: Fts, tree: Rescan.Tree, read: Rescan.Reader, r: Rescan.ScanRun)
    requires Inv(l) && Rescan.ReaderOk(read) && FaithfulFiles(Rescan.ReadableFiles(tree, read), tree.Keys)
    requires Indexes(fts, l) && Rescan.ScanOf(l, tree, read, r) && Rescan.ReturnedNil(r) && !r.stop.indexed
    ensures Rescan.AfterIndex(l, fts, r) == fts
    ensures Answers(fts, Rescan.After(l, r)) <==> !SomeNewWords(l, tree, read, r.state.lost)
  {
    hide Inv, Sound, ForeignKeys, Indexes, Rescan.ReaderOk, FaithfulFiles, Rescan.ReadableFiles, Rescan.ScanOf,
         Rescan.After, NewWords, Finds;
    KeptIndex(l, fts, r);
    FindsIff(l, fts, tree, read, r, "");
    var l' := Rescan.After(l, r);
    forall p
      ensures (p in l'.song ==> Finds(fts, l', p)) <==> !(NewWords(l, tree, read, p) && p !in r.state.lost)
    {
      FindsIff(l, fts, tree, read, r, p);
    }
  }

  /** A scan that returns nil and has committed its index leaves an exact one. */
  lemma CommittedIndex(l: Library, fts: Fts, tree: Rescan.Tree, read: Rescan.Reader, r: Rescan.ScanRun)
    requires Inv(l) && Rescan.ReaderOk(read) && FaithfulFiles(Rescan.ReadableFiles(tree, read), tree.Keys)
    requires Rescan.ScanOf(l, tree, read, r) && Rescan.ReturnedNil(r) && r.stop.indexed
    ensures Indexes(Rescan.AfterIndex(l, fts, r), Rescan.After(l, r))
  {
    hide Sound, ArtistAgreement, Indexes, Rescan.ReaderOk, FaithfulFiles, Rescan.ReadableFiles, Rescan.ScanOf,
         Rescan.After, FtsOf;
    LeavesClean(l, tree, read, r);
    FtsOfIndexes(Rescan.After(l, r));
    Rescan.SoundTables(Rescan.After(l, r));
  }

  /** What users see after any history of edits and scans of which the last returns nil is what one fresh scan of the
      last tree shows, if and only if no file stored before has changed and become unreadable, the last scan lost no
      batch, and it committed its index or the index it kept finds every song.  It does, if it was exact before the
      last scan, exactly when no changed file has a new path, title, artist or album. */
  lemma HistoryLooksFresh(trees: seq<Rescan.Tree>, read: Rescan.Reader, runs: seq<Rescan.ScanRun>, n: nat,
                          scratch: Rescan.ScanRun)
    requires |trees| == |runs| == n + 1 && Rescan.ReturnedNil(runs[n])
    requires Rescan.ReaderOk(read) && Rescan.FaithfulTrees(trees, read) && Rescan.Honest(trees)
    requires Rescan.History(trees, read, runs)
    requires Rescan.ScanOf(EMPTY, trees[n], read, scratch) && Rescan.ReturnedNil(scratch)
    requires scratch.state.lost == [] && scratch.stop.indexed
    ensures SameToUsers(Rescan.LibraryAt(runs, n + 1), Rescan.IndexAt(runs, n + 1),
                        Rescan.After(EMPTY, scratch), Rescan.AfterIndex(EMPTY, map[], scratch)) <==>
      && !Rescan.SomeStale(Rescan.LibraryAt(runs, n), trees[n], read) && runs[n].state.lost == []
      && (runs[n].stop.indexed || Answers(Rescan.IndexAt(runs, n), Rescan.LibraryAt(runs, n + 1)))
    ensures Indexes(Rescan.IndexAt(runs, n), Rescan.LibraryAt(runs, n)) && !runs[n].stop.indexed ==>
      (Answers(Rescan.IndexAt(runs, n), Rescan.LibraryAt(runs, n + 1)) <==>
        !SomeNewWords(Rescan.LibraryAt(runs, n), trees[n], read, runs[n].state.lost))
  {
    hide Rescan.SomeStale, Rescan.FaithfulTrees, Rescan.Honest, Rescan.ReaderOk, Rescan.ScanOf, Rescan.Explained,
         Rescan.After, Rescan.ReadableFiles, Rescan.LibraryAt, FaithfulFiles, Inv, Clean, ForeignKeys, LibraryTracks,
         Indexes, Answers, SomeNewWords, SameToUsers;
    var before, l, u := Rescan.LibraryAt(runs, n), Rescan.LibraryAt(runs, n + 1), Rescan.After(EMPTY, scratch);
    var kept, fts := Rescan.IndexAt(runs, n), Rescan.IndexAt(runs, n + 1);
    var fts' := Rescan.AfterIndex(EMPTY, map[], scratch);
    Rescan.IncrementalEqualsScratch(trees, read, runs, scratch);
    Rescan.BeforeLast(trees, read, runs, n);
    Rescan.EmptyInv();
    LeavesClean(before, trees[n], read, runs[n]);
    LeavesClean(EMPTY, trees[n], read, scratch);
    CommittedIndex(EMPTY, map[], trees[n], read, scratch);
    IndexedAnswers(fts', u);
    SameTracksSameView(l, fts, u, fts');
    if runs[n].stop.indexed {
      CommittedIndex(before, kept, trees[n], read, runs[n]);
      IndexedAnswers(fts, l);
    } else {
      KeptIndex(before, kept, runs[n]);
      if Indexes(kept, before) {
        KeptIndexIff(before, kept, trees[n], read, runs[n]);
      }
    }
  }

  lemma KeptIndex(l: Library, fts: Fts, r: Rescan.ScanRun)
    requires Rescan.ReturnedNil(r) && !r.stop.indexed
    ensures Rescan.AfterIndex(l, fts, r) == fts
  {
    hide Rescan.After, Sound;
  }

  lemma IndexedAnswers(fts: Fts, l: Library)
    requires Indexes(fts, l)
    ensures Answers(fts, l)
  {
  }

  lemma InvForeign(l: Library)
    requires Inv(l)
    ensures ForeignKeys(l)
  {
  }

  lemma LeavesClean(l: Library, tree: Rescan.Tree, read: Rescan.Reader, r: Rescan.ScanRun)
    requires Inv(l) && Rescan.ReaderOk(read) && FaithfulFiles(Rescan.ReadableFiles(tree, read), tree.Keys)
    requires Rescan.ScanOf(l, tree, read, r) && Rescan.ReturnedNil(r)
    ensures Inv(Rescan.After(l, r)) && Clean(Rescan.After(l, r))
  {
    hide *;
    Rescan.AfterKeeps(l, tree, read, r);
    Rescan.AfterClean(l, tree, read, r);
  }

  const ADDED: Track := Rescan.STORED.(data := Rescan.STORED.data.(mtime := 2))

  const ONE_FILE: Rescan.Tree := map["/a.mp3" := Rescan.File(2, 1, [])]

  function ReadsAdded(p: string, f: Rescan.File): Option<Track> {
    if p == "/a.mp3" && f.mtime == 2 && f.size == 1 then Some(ADDED) else None
  }

  lemma AddedReader()
    ensures Rescan.ReaderOk(ReadsAdded) && Rescan.FaithfulTrees([ONE_FILE], ReadsAdded) && Rescan.Honest([ONE_FILE])
    ensures FaithfulFiles(Rescan.ReadableFiles(ONE_FILE, ReadsAdded), ONE_FILE.Keys)
  {
  }

  lemma AddedScan(stop: Stop) returns (run: Rescan.ScanRun)
    ensures Rescan.ScanOf(EMPTY, ONE_FILE, ReadsAdded, run) && Rescan.P.Succeeded(run.state)
    ensures run.state.lost == [] && run.stop == stop
  {
    hide Rescan.P.Reachable;
    var c := Rescan.P.OneFile(ADDED);
    var s := Rescan.P.OneBatch(ADDED, Rescan.P.Committed);
    run := Rescan.ScanRun(c, s, [], map[], stop);
    var e := Rescan.P.Audio("/a.mp3", 2, 1);
    assert e in c.events;
    assert c.readable == Rescan.ReadableFiles(ONE_FILE, ReadsAdded);
  }

  /** One new file, stored, and the COMMIT of the index fails: the scan returns nil, nothing is stale or lost, and the
      search does not find the song, which it finds after a fresh scan. */
  lemma KeptIndexInput() returns (run: Rescan.ScanRun, scratch: Rescan.ScanRun)
    ensures Rescan.History([ONE_FILE], ReadsAdded, [run]) && Rescan.ReturnedNil(run) && run.state.lost == []
    ensures !Rescan.SomeStale(EMPTY, ONE_FILE, ReadsAdded)
    ensures Rescan.ScanOf(EMPTY, ONE_FILE, ReadsAdded, scratch) && Rescan.ReturnedNil(scratch)
    ensures !SameToUsers(Rescan.After(EMPTY, run), Rescan.AfterIndex(EMPTY, map[], run),
                         Rescan.After(EMPTY, scratch), Rescan.AfterIndex(EMPTY, map[], scratch))
  {
    hide Rescan.ScanOf, Rescan.ReaderOk, Rescan.FaithfulTrees, Rescan.Honest, Rescan.ReadableFiles, FaithfulFiles,
         Rescan.After, Rescan.AfterIndex, LibraryTracks, Inv, Clean, SameToUsers, Answers, ForeignKeys;
    run := AddedScan(Completes(false));
    scratch := AddedScan(Completes(true));
    AddedReader();
    Rescan.EmptyInv();
    Rescan.NothingStale(ONE_FILE, ReadsAdded);
    var trees, runs := [ONE_FILE], [run];
    assert Rescan.LibraryAt(runs, 0) == EMPTY && Rescan.LibraryAt(runs, 1) == Rescan.After(EMPTY, run);
    HistoryLooksFresh(trees, ReadsAdded, runs, 0, scratch);
    Rescan.ScanOutcome(EMPTY, ONE_FILE, ReadsAdded, run, "/a.mp3");
    NotFound(Rescan.After(EMPTY, run), "/a.mp3");
  }

  lemma NotFound(l: Library, p: string)
    requires ForeignKeys(l) && p in LibraryTracks(l)
    ensures !Answers(map[], l)
  {
    assert !Finds(map[], l, p);
  }
}
