/** The database as the scanner sees it: statements grouped in transactions over the single write connection, any of
    which may fail. */
module Store {
  import opened Catalog
  import opened Batch
  import opened Cleanup
  import opened Covers

  /** Which statement of a transaction the storage engine refuses, if any. */
  datatype Fault = NoFault | FailsAt(statement: nat) | FailsAtCommit

  const CHUNK := 500

  function Min(a: int, b: int): int {
    if a < b then a else b
  }

  /** The statements one track costs, given the names and keys cached before it. */
  function Cost(artists: set<string>, albums: set<string>, t: Track): (n: nat)
    ensures n >= 1
  {
    (if t.artist in artists then 0 else 1) + (if CacheKey(t) in albums then 0 else 1) + 1
  }

  ghost function Names(tracks: seq<Track>): set<string> {
    set t | t in tracks :: t.artist
  }

  ghost function CacheKeys(tracks: seq<Track>): set<string> {
    set t | t in tracks :: CacheKey(t)
  }

  /** The statements of a batch before its COMMIT: BEGIN, one for every artist and album key, one for every song. */
  ghost function Statements(tracks: seq<Track>): nat {
    if tracks == [] then 1
    else
      var before, t := tracks[..|tracks| - 1], tracks[|tracks| - 1];
      Statements(before) + Cost(Names(before), CacheKeys(before), t)
  }

  lemma StatementsSnoc(tracks: seq<Track>, i: nat)
    requires i < |tracks|
    ensures Statements(tracks[..i + 1]) ==
      Statements(tracks[..i]) + Cost(Names(tracks[..i]), CacheKeys(tracks[..i]), tracks[i])
    ensures Names(tracks[..i + 1]) == Names(tracks[..i]) + {tracks[i].artist}
    ensures CacheKeys(tracks[..i + 1]) == CacheKeys(tracks[..i]) + {CacheKey(tracks[i])}
  {
    hide Cost;
    assert tracks[..i + 1] == tracks[..i] + [tracks[i]] && tracks[..i + 1][..i] == tracks[..i];
  }

  lemma {:induction false} StatementsGrow(tracks: seq<Track>, i: nat)
    requires i <= |tracks|
    ensures 1 + i <= Statements(tracks[..i]) <= Statements(tracks)
    decreases |tracks|
  {
    hide Cost, Names, CacheKeys;
    if i == |tracks| {
      assert tracks[..i] == tracks;
      if i > 0 {
        StatementsGrow(tracks[..i - 1], i - 1);
        assert tracks[..i - 1][..i - 1] == tracks[..i - 1];
      }
    } else {
      var n := |tracks| - 1;
      StatementsGrow(tracks[..n], i);
      assert tracks[..n][..i] == tracks[..i];
    }
  }

  lemma NothingNamed()
    ensures Statements([]) == 1 && Names([]) == {} && CacheKeys([]) == {}
  {
  }

  lemma TrackKeys(l: Library, c: Cache, t: Track)
    requires Sound(l) && Fits(c, l)
    ensures BatchTrack(l, c, t).1.artistIds.Keys == c.artistIds.Keys + {t.artist}
    ensures BatchTrack(l, c, t).1.albumIds.Keys == c.albumIds.Keys + {CacheKey(t)}
  {
    hide Sound, Fits, UpsertArtist, UpsertAlbum, UpsertSong;
  }

  class Database {
    var lib: Library
    var act: Activity
    var fts: Fts

    ghost predicate Valid()
      reads this
    {
      Sound(lib) && Referenced(act, SongIds(lib.song))
    }

    constructor ()
      ensures Valid() && lib == EMPTY && act == Activity(map[], {}, map[], map[], map[]) && fts == map[]
    {
      lib := EMPTY;
      act := Activity(map[], {}, map[], map[], map[]);
      fts := map[];
    }

    /** One turn of the batch loop, in which the statement numbered `fault.statement` fails. */
    method StoreTrack(t: Track, artists: map<string, Id>, albums: map<string, Id>, fault: Fault, executed: nat)
      returns (failed: bool, artistIds: map<string, Id>, albumIds: map<string, Id>, statement: nat)
      requires Sound(lib) && Fits(Cache(artists, albums), lib)
      modifies this`lib
      ensures failed <==> fault.FailsAt? && executed <= fault.statement < executed + Cost(artists.Keys, albums.Keys, t)
      ensures !failed ==> (lib, Cache(artistIds, albumIds)) == BatchTrack(old(lib), Cache(artists, albums), t)
      ensures !failed ==> statement == executed + Cost(artists.Keys, albums.Keys, t)
    {
      hide UniqueArtists, UniqueAlbums, UniqueSongs, AlbumReferences, SongReferences, IdsDrawn, SongIds, HasArtist,
           HasAlbum, Fits;
      ghost var cache := Cache(artists, albums);
      artistIds, albumIds := artists, albums;
      statement := executed;
      if t.artist !in artistIds {
        if fault == FailsAt(statement) {
          return true, artistIds, albumIds, statement;
        }
        statement := statement + 1;
        var (l, id) := UpsertArtist(lib, t.artist);
        lib, artistIds := l, artistIds[t.artist := id];
      }
      var artistId := artistIds[t.artist];
      CachedArtistEffect(old(lib), cache, t);
      var key := t.artist + "\0" + t.album;
      if key !in albumIds {
        if fault == FailsAt(statement) {
          return true, artistIds, albumIds, statement;
        }
        statement := statement + 1;
        var (l, id) := UpsertAlbum(lib, artistId, t.album, t.data.year, t.data.genre);
        lib, albumIds := l, albumIds[key := id];
      }
      var albumId := albumIds[key];
      if fault == FailsAt(statement) {
        return true, artistIds, albumIds, statement;
      }
      lib := UpsertSong(lib, t, artistId, albumId);
      assert artistIds == artists[t.artist := artistId] && albumIds == albums[key := albumId];
      return false, artistIds, albumIds, statement + 1;
    }

    /** One writer batch.  A failing statement rolls the batch back and is reported; a failing COMMIT rolls it back
        too, but the deferred handler's error is lost and the caller sees success. */
    method InsertBatch(tracks: seq<Track>, fault: Fault) returns (err: bool)
      requires Sound(lib)
      modifies this`lib
      ensures Sound(lib)
      ensures err <==> fault.FailsAt? && fault.statement < Statements(tracks)
      ensures lib == if err || fault.FailsAtCommit? then old(lib) else BatchAll(old(lib), tracks).0
    {
      hide Sound, BatchTrack, BatchAll, Fits, Cost, Statements;
      StatementsGrow(tracks, 0);
      NothingNamed();
      if fault == FailsAt(0) {
        return true;
      }
      BatchEmpty(lib);
      var saved, executed := lib, 1;
      var artistIds: map<string, Id>, albumIds: map<string, Id> := map[], map[];
      for i := 0 to |tracks|
        invariant Sound(lib) && Sound(saved) && Fits(Cache(artistIds, albumIds), lib)
        invariant (lib, Cache(artistIds, albumIds)) == BatchAll(saved, tracks[..i])
        invariant artistIds.Keys == Names(tracks[..i]) && albumIds.Keys == CacheKeys(tracks[..i])
        invariant executed == Statements(tracks[..i]) && (fault.FailsAt? ==> executed <= fault.statement)
      {
        ghost var before, cache := lib, Cache(artistIds, albumIds);
        StatementsSnoc(tracks, i);
        StatementsGrow(tracks, i + 1);
        BatchSnoc(saved, tracks[..i], tracks[i]);
        assert tracks[..i + 1] == tracks[..i] + [tracks[i]];
        TrackKeys(before, cache, tracks[i]);
        var failed;
        failed, artistIds, albumIds, executed := StoreTrack(tracks[i], artistIds, albumIds, fault, executed);
        if failed {
          lib := saved;
          return true;
        }
      }
      assert tracks[..|tracks|] == tracks;
      if fault.FailsAtCommit? {
        lib := saved;
      }
      return false;
    }

    /** DELETE FROM play_history WHERE song_id IN (...) */
    method DeletePlayRows(ids: set<Id>)
      requires Valid()
      modifies this`act
      ensures Valid() && act == old(act).(plays := DeletePlays(old(act).plays, ids))
    {
      act := act.(plays := DeletePlays(act.plays, ids));
    }

    /** DELETE FROM star WHERE item_id IN (...) AND item_type = 'song' */
    method DeleteStarRows(ids: set<Id>)
      requires Valid()
      modifies this`act
      ensures Valid() && act == old(act).(stars := DeleteStars(old(act).stars, ids))
    {
      act := act.(stars := DeleteStars(act.stars, ids));
    }

    /** DELETE FROM playlist_song WHERE song_id IN (...) */
    method DeleteSlotRows(ids: set<Id>)
      requires Valid()
      modifies this`act
      ensures Valid() && act == old(act).(slots := DeleteSlots(old(act).slots, ids))
    {
      act := act.(slots := DeleteSlots(act.slots, ids));
    }

    /** DELETE FROM song WHERE path IN (...), refused when a play or a playlist still has one of the songs. */
    method DeleteSongRows(paths: set<string>) returns (refused: bool)
      requires Valid()
      modifies this`lib
      ensures Valid() && (refused <==> StillReferenced(act, IdsOf(old(lib).song, paths)))
      ensures lib == if refused then old(lib) else old(lib).(song := DeletePaths(old(lib).song, paths))
    {
      DeletePathsKeepsSound(lib, paths);
      IdsAreGone(lib.song, paths);
      if StillReferenced(act, IdsOf(lib.song, paths)) {
        return true;
      }
      hide Sound, IdsOf, DeletePaths, SongIds;
      lib := lib.(song := DeletePaths(lib.song, paths));
      return false;
    }

    /** One transaction of deleteSongs.  `budget` statements succeed before storage fails; references hold after every
        statement, as the contracts of the four deletes say. */
    method DeleteChunk(chunk: set<string>, budget: int) returns (failed: bool, used: nat)
      requires Valid()
      modifies this`lib, this`act
      ensures Valid() && used <= 7
      ensures failed ==> lib == old(lib) && act == old(act)
      ensures !failed ==> Deleted(old(lib), old(act), chunk, lib, act)
      ensures failed <==> budget < if IdsOf(old(lib).song, chunk) == {} then 4 else 7
    {
      hide Sound, SongIds, PlayReferences, SlotReferences, Forget, IdsOf, DeletePaths, StillReferenced;
      var savedLib, savedAct := lib, act;
      ForgetNothing(savedAct);
      // BEGIN IMMEDIATE; SELECT id ...
      used := 2;
      if budget < used {
        return true, used;
      }
      var ids := IdsOf(lib.song, chunk);
      ForgetParts(savedAct, ids);
      if ids != {} {
        if budget < 3 {
          return true, used;
        }
        DeletePlayRows(ids);
        if budget < 4 {
          act := savedAct;
          return true, used;
        }
        DeleteStarRows(ids);
        if budget < 5 {
          act := savedAct;
          return true, used;
        }
        DeleteSlotRows(ids);
        used := 5;
      }
      NotReferenced(savedAct, ids);
      if budget < used + 1 {
        act := savedAct;
        return true, used;
      }
      var refused := DeleteSongRows(chunk);
      if refused || budget < used + 2 {
        lib, act := savedLib, savedAct;
        return true, used;
      }
      return false, used + 2;
    }

    /** Deletes the songs of `paths`, 500 to a transaction, stopping at the first statement that fails: `okStatements`
        statements succeed before that. */
    method DeleteSongs(paths: seq<string>, okStatements: nat) returns (err: bool, done: nat)
      requires Valid()
      modifies this`lib, this`act
      ensures Valid() && done <= |paths|
      ensures err ==> done % 500 == 0
      ensures !err ==> done == |paths|
      ensures Deleted(old(lib), old(act), SetOf(paths[..done]), lib, act)
      ensures okStatements >= 7 * |paths| ==> !err
    {
      hide Sound, SongIds, Referenced, Deleted, SetOf;
      UniqueOf(lib);
      var i, executed := 0, 0;
      DeletedNone(lib, act);
      assert paths[..0] == [];
      while i < |paths|
        invariant 0 <= i && i % CHUNK == 0 && executed <= 7 * Min(i, |paths|)
        invariant Valid() && Deleted(old(lib), old(act), SetOf(paths[..Min(i, |paths|)]), lib, act)
      {
        var end := Min(i + CHUNK, |paths|);
        var chunk := SetOf(paths[i..end]);
        ghost var savedLib, savedAct := lib, act;
        done := i;
        var failed, used := DeleteChunk(chunk, okStatements - executed);
        if failed {
          return true, done;
        }
        executed := executed + used;
        DeletedMore(old(lib), old(act), SetOf(paths[..i]), savedLib, savedAct, chunk, lib, act);
        SetOfSplit(paths, i, end);
        i := i + CHUNK;
      }
      assert paths[..|paths|] == paths;
      return false, |paths|;
    }

    /** UPDATE album SET song_count, duration FROM (SELECT ... FROM song GROUP BY album_id); `fails` is storage
        failing. */
    method UpdateAlbumStats(fails: bool) returns (err: bool)
      requires Sound(lib)
      modifies this`lib
      ensures err == fails && lib == if fails then old(lib) else WithStatistics(old(lib))
    {
      hide Sound, SongIds, StatsRow;
      if fails {
        return true;
      }
      var album := lib.album;
      var todo := lib.album.Keys;
      while todo != {}
        invariant lib == old(lib) && todo <= lib.album.Keys == album.Keys
        invariant forall a | a in album ::
          album[a] == if a in todo then lib.album[a] else StatsRow(lib.album[a], lib.song, a)
      {
        var a :| a in todo;
        var count, duration := Aggregate(lib.song, a);
        if count > 0 {
          album := album[a := album[a].(songCount := count, duration := duration)];
        }
        StatsRowIs(lib.album[a], lib.song, a, count, duration);
        todo := todo - {a};
      }
      lib := lib.(album := album);
      return false;
    }

    /** Removes albums with no songs, then artists with no albums; `okStatements` statements succeed before storage
        fails. The second statement is also refused when it would leave a song without its artist; the first one stays
        done. */
    method DeleteOrphans(okStatements: nat) returns (err: bool)
      requires Sound(lib)
      modifies this`lib
      ensures err <==> okStatements < 2 || ArtistDeleteBreaksSongs(DeleteEmptyAlbums(old(lib)))
      ensures lib == if okStatements < 1 then old(lib)
                     else if err then DeleteEmptyAlbums(old(lib))
                     else DeleteIdleArtists(DeleteEmptyAlbums(old(lib)))
    {
      hide Sound, DeleteEmptyAlbums, ArtistDeleteBreaksSongs, DeleteIdleArtists;
      if okStatements < 1 {
        return true;
      }
      lib := DeleteEmptyAlbums(lib);
      if okStatements < 2 || ArtistDeleteBreaksSongs(lib) {
        return true;
      }
      lib := DeleteIdleArtists(lib);
      return false;
    }

    /** Drops and refills the search index in one transaction.  A failing INSERT is reported but does not reach the
        deferred handler, which then commits the empty index; a failing COMMIT is not reported. */
    method RebuildFts(fault: Fault) returns (err: bool)
      requires Sound(lib)
      modifies this`fts
      ensures err <==> fault in {FailsAt(0), FailsAt(1), FailsAt(2), FailsAt(3)}
      ensures fts == if fault == FailsAt(3) then map[] else if err || fault.FailsAtCommit? then old(fts) else FtsOf(lib)
    {
      hide UniqueArtists, UniqueAlbums, UniqueSongs, AlbumReferences, SongReferences, IdsDrawn, FtsOf;
      var saved := fts;
      if fault == FailsAt(0) || fault == FailsAt(1) || fault == FailsAt(2) {
        return true;
      }
      fts := map[];
      if fault == FailsAt(3) {
        return true;
      }
      fts := FtsOf(lib);
      if fault.FailsAtCommit? {
        fts := saved;
      }
      return false;
    }

    /** UPDATE album SET cover_art: the covers written for the albums of this scan. */
    method AssignCovers(covers: map<Id, string>)
      modifies this`lib
      ensures lib == WithCovers(old(lib), covers)
    {
      lib := WithCovers(lib, covers);
    }

    /** Everything `Run` does once the writer has finished without error: sweep, covers, statistics, orphans, index
        and PRAGMA optimize.  `okSweep` statements of the sweep and `okRest` of the statistics and orphan statements
        succeed before storage fails; `stop` says how far it came and what became of the index. */
    method Finish(gone: seq<string>, art: Art, okSweep: nat, okRest: nat, ftsFault: Fault, optimizeFails: bool)
      returns (err: bool, ghost stop: Stop, ghost covers: map<Id, string>)
      requires Valid()
      modifies this
      ensures lib == Finished(old(lib), gone, covers, stop) && (err <==> !stop.Completes?)
      ensures AlbumsLeft(old(lib), lib, covers, stop) && KeysLeft(old(lib), lib, Gone(gone, stop), stop)
      ensures !stop.SweepStops? ==> CoversFor(Swept(old(lib), SetOf(gone)), art, covers)
      ensures act == Forget(old(act), IdsOf(old(lib).song, Gone(gone, stop)))
      ensures Valid() && (Inv(old(lib)) ==> Inv(lib))
      ensures fts == IndexAfter(old(fts), lib, stop)
      ensures EndsAs(stop, ftsFault, optimizeFails)
      ensures Inv(old(lib)) && okSweep >= 7 * |gone| && okRest >= 3 ==> PastOrphans(stop)
    {
      hide Sound, SongIds, Referenced, ArtistAgreement, Forget, IdsOf, WithStatistics, WithCovers, CoversFor,
           DeleteEmptyAlbums, DeleteIdleArtists, DeletePaths, ArtistDeleteBreaksSongs, SetOf, FtsOf, AlbumsLeft,
           KeysLeft;
      ghost var start, user := lib, act;
      covers := map[];
      DeletedNone(lib, act);
      assert gone == [] ==> gone[..0] == gone;
      if |gone| > 0 {
        var failed, done := DeleteSongs(gone, okSweep);
        if failed {
          stop := SweepStops(done);
          StopKeeps(start, user, gone, covers, stop);
          return true, stop, covers;
        }
        assert gone[..done] == gone;
      }
      var found := ResolveAlbumArt(lib, art);
      covers := found;
      if Inv(start) {
        AgreementIsLegal(start, gone, covers);
      }
      StopKeeps(start, user, gone, covers, StatisticsStop);
      StopKeeps(start, user, gone, covers, AlbumsStop);
      StopKeeps(start, user, gone, covers, ArtistsStop);
      AssignCovers(found);
      err := UpdateAlbumStats(okRest < 1);
      if err {
        return true, StatisticsStop, covers;
      }
      err := DeleteOrphans(if okRest < 1 then 0 else okRest - 1);
      if err {
        return true, if okRest < 2 then AlbumsStop else ArtistsStop, covers;
      }
      stop := if IndexErr(ftsFault) then IndexStops(ftsFault == FailsAt(3))
              else if optimizeFails then OptimizeStops(!ftsFault.FailsAtCommit?)
              else Completes(!ftsFault.FailsAtCommit?);
      StopKeeps(start, user, gone, covers, stop);
      err := RebuildFts(ftsFault);
      return err || optimizeFails, stop, covers;
    }
  }

  /** Whether rebuildFTS returns an error: BEGIN, DROP, CREATE or INSERT fails. */
  predicate IndexErr(fault: Fault) {
    fault.FailsAt? && fault.statement <= 3
  }

  /** How far the cleanup after the writer came: where it returned an error, or that it completed.  In the sweep
      `done` paths were deleted before.  A failing rebuild of the index may leave it empty, and one that reports no
      error may not have been committed. */
  datatype Stop = SweepStops(done: nat) | StatisticsStop | AlbumsStop | ArtistsStop | IndexStops(emptied: bool)
    | OptimizeStops(indexed: bool) | Completes(indexed: bool)

  predicate PastOrphans(stop: Stop) {
    stop.IndexStops? || stop.OptimizeStops? || stop.Completes?
  }

  /** A cleanup that came past the orphans ends as the index and PRAGMA optimize do. */
  predicate EndsAs(stop: Stop, ftsFault: Fault, optimizeFails: bool) {
    PastOrphans(stop) ==>
      stop == if IndexErr(ftsFault) then IndexStops(ftsFault == FailsAt(3))
              else if optimizeFails then OptimizeStops(!ftsFault.FailsAtCommit?)
              else Completes(!ftsFault.FailsAtCommit?)
  }

  /** The album rows of l' are rows of l: with the covers written, once covers were written, with the count and
      duration of the songs left, once statistics were taken, and as they were in every other column. */
  ghost predicate AlbumsLeft(l: Library, l': Library, covers: map<Id, string>, stop: Stop) {
    forall a | a in l'.album :: a in l.album && RowLeft(l.album[a], l'.album[a], l'.song, covers, stop, a)
  }

  ghost predicate RowLeft(was: AlbumRow, now: AlbumRow, song: Songs, covers: map<Id, string>, stop: Stop, a: Id) {
    && (now.artistId, now.name, now.year, now.genre) == (was.artistId, was.name, was.year, was.genre)
    && now.coverArt == (if !stop.SweepStops? && a in covers then covers[a] else was.coverArt)
    && if stop.SweepStops? || stop.StatisticsStop? || SongsOf(song, a) == {}
       then now.songCount == was.songCount && now.duration == was.duration
       else Counted(now, song, a)
  }

  /** The songs left are those not swept, the albums all until the orphans are removed and those with songs
      afterwards, the artists all until the last orphan statement and those with albums afterwards. */
  ghost predicate KeysLeft(l: Library, l': Library, paths: set<string>, stop: Stop) {
    && l'.song == (map p | p in l.song && p !in paths :: l.song[p])
    && (forall a | a in l.album :: a in l'.album <==>
          stop.SweepStops? || stop.StatisticsStop? || stop.AlbumsStop? || SongsOf(l'.song, a) != {})
    && (forall r | r in l'.artist :: r in l.artist && l'.artist[r] == l.artist[r])
    && (forall r | r in l.artist :: r in l'.artist <==>
          (PastOrphans(stop) ==> exists a | a in l'.album :: l'.album[a].artistId == r))
  }

  lemma FinishedAlbums(l: Library, gone: seq<string>, covers: map<Id, string>, stop: Stop)
    ensures AlbumsLeft(l, Finished(l, gone, covers, stop), covers, stop)
  {
    hide SongsOf, TotalDuration, DeletePaths, Gone;
  }

  lemma FinishedKeys(l: Library, gone: seq<string>, covers: map<Id, string>, stop: Stop)
    ensures KeysLeft(l, Finished(l, gone, covers, stop), Gone(gone, stop), stop)
  {
    hide Gone, StatsRow, SongsOf, DeleteEmptyAlbums, DeleteIdleArtists;
    var swept := Swept(l, Gone(gone, stop));
    var counted := WithStatistics(WithCovers(swept, covers));
    assert swept.song == (map p | p in l.song && p !in Gone(gone, stop) :: l.song[p]);
    EmptyAlbumKeys(counted);
    IdleArtistKeys(DeleteEmptyAlbums(counted));
  }

  lemma EmptyAlbumKeys(l: Library)
    ensures DeleteEmptyAlbums(l) == l.(album := DeleteEmptyAlbums(l).album)
    ensures forall a | a in DeleteEmptyAlbums(l).album :: a in l.album
    ensures forall a | a in l.album :: a in DeleteEmptyAlbums(l).album <==> SongsOf(l.song, a) != {}
  {
    forall a | a in l.album && SongsOf(l.song, a) != {} ensures a in DeleteEmptyAlbums(l).album {
      var p :| p in SongsOf(l.song, a);
    }
    assert forall p | p in l.song :: p in SongsOf(l.song, l.song[p].albumId);
  }

  lemma IdleArtistKeys(l: Library)
    ensures DeleteIdleArtists(l) == l.(artist := DeleteIdleArtists(l).artist)
    ensures forall r | r in DeleteIdleArtists(l).artist ::
      r in l.artist && DeleteIdleArtists(l).artist[r] == l.artist[r]
    ensures forall r | r in l.artist :: r in DeleteIdleArtists(l).artist <==>
      exists a | a in l.album :: l.album[a].artistId == r
  {
  }

  /** The search index the cleanup leaves with the library l. */
  function IndexAfter(fts: Fts, l: Library, stop: Stop): Fts
    requires Sound(l)
  {
    match stop
    case IndexStops(emptied) => if emptied then map[] else fts
    case OptimizeStops(indexed) => if indexed then FtsOf(l) else fts
    case Completes(indexed) => if indexed then FtsOf(l) else fts
    case _ => fts
  }

  /** The paths swept. */
  ghost function Gone(gone: seq<string>, stop: Stop): set<string> {
    if stop.SweepStops? && stop.done <= |gone| then SetOf(gone[..stop.done]) else SetOf(gone)
  }

  function Swept(l: Library, paths: set<string>): Library {
    l.(song := DeletePaths(l.song, paths))
  }

  function WithCovers(l: Library, covers: map<Id, string>): Library {
    l.(album := map a | a in l.album :: if a in covers then l.album[a].(coverArt := covers[a]) else l.album[a])
  }

  ghost function WithStatistics(l: Library): Library {
    l.(album := map a | a in l.album :: StatsRow(l.album[a], l.song, a))
  }

  /** The library the cleanup leaves. */
  ghost function Finished(l: Library, gone: seq<string>, covers: map<Id, string>, stop: Stop): Library {
    var swept := Swept(l, Gone(gone, stop));
    var counted := WithStatistics(WithCovers(swept, covers));
    match stop
    case SweepStops(_) => swept
    case StatisticsStop => WithCovers(swept, covers)
    case AlbumsStop => counted
    case ArtistsStop => DeleteEmptyAlbums(counted)
    case _ => DeleteIdleArtists(DeleteEmptyAlbums(counted))
  }

  /** The joined table without these paths, nothing else changed in it; keys, references and agreement kept. */
  ghost predicate KeepsBut(l: Library, l': Library, paths: set<string>)
    requires ForeignKeys(l)
  {
    && Sound(l') && LibraryTracks(l') == LibraryTracks(l) - paths
    && (ArtistAgreement(l.song, l.album) ==> ArtistAgreement(l'.song, l'.album))
  }

  lemma KeepsMore(l: Library, l1: Library, l2: Library, paths: set<string>)
    requires Sound(l) && KeepsBut(l, l1, paths) && KeepsBut(l1, l2, {})
    ensures KeepsBut(l, l2, paths)
  {
    hide UniqueKeys, IdsDrawn, ArtistAgreement, Tracks;
    assert LibraryTracks(l1) - {} == LibraryTracks(l1);
  }

  lemma KeepsAll(tracks: map<string, Track>)
    ensures tracks - {} == tracks
  {
  }

  lemma SweepKeeps(l: Library, paths: set<string>)
    requires Sound(l)
    ensures KeepsBut(l, Swept(l, paths), paths)
  {
    hide UniqueKeys, IdsDrawn, ArtistAgreement, Tracks, DeletePaths;
    DeletePathsKeepsSound(l, paths);
  }

  lemma CoversKeep(l: Library, covers: map<Id, string>)
    requires Sound(l)
    ensures KeepsBut(l, WithCovers(l, covers), {})
  {
    hide UniqueKeys, IdsDrawn, ForeignKeys, ArtistAgreement, LibraryTracks;
    AlbumColumns(l, WithCovers(l, covers).album);
    KeepsAll(LibraryTracks(l));
  }

  lemma StatisticsKeep(l: Library)
    requires Sound(l)
    ensures KeepsBut(l, WithStatistics(l), {})
  {
    hide UniqueKeys, IdsDrawn, ForeignKeys, ArtistAgreement, LibraryTracks, SongsOf, TotalDuration;
    AlbumColumns(l, WithStatistics(l).album);
    KeepsAll(LibraryTracks(l));
  }

  lemma EmptyAlbumsKeep(l: Library)
    requires Sound(l)
    ensures KeepsBut(l, DeleteEmptyAlbums(l), {})
  {
    hide UniqueKeys, IdsDrawn, ArtistAgreement, Tracks, SongsOf;
    DeleteEmptyAlbumsEffect(l);
    KeepsAll(LibraryTracks(l));
  }

  lemma IdleArtistsKeep(l: Library)
    requires Sound(l) && !ArtistDeleteBreaksSongs(l)
    ensures KeepsBut(l, DeleteIdleArtists(l), {})
  {
    hide UniqueKeys, IdsDrawn, ArtistAgreement, Tracks, ArtistDeleteBreaksSongs;
    DeleteIdleArtistsEffect(l);
    KeepsAll(LibraryTracks(l));
  }

  lemma CountedKeeps(l: Library, paths: set<string>, covers: map<Id, string>)
    requires Sound(l)
    ensures var swept := Swept(l, paths);
      && KeepsBut(l, swept, paths) && KeepsBut(l, WithCovers(swept, covers), paths)
      && KeepsBut(l, WithStatistics(WithCovers(swept, covers)), paths)
      && KeepsBut(l, DeleteEmptyAlbums(WithStatistics(WithCovers(swept, covers))), paths)
  {
    hide UniqueKeys, IdsDrawn, ForeignKeys, ArtistAgreement, LibraryTracks, WithCovers, WithStatistics,
         DeleteEmptyAlbums, DeletePaths;
    var swept := Swept(l, paths);
    var covered := WithCovers(swept, covers);
    var counted := WithStatistics(covered);
    SweepKeeps(l, paths);
    CoversKeep(swept, covers);
    KeepsMore(l, swept, covered, paths);
    StatisticsKeep(covered);
    KeepsMore(l, covered, counted, paths);
    EmptyAlbumsKeep(counted);
    KeepsMore(l, counted, DeleteEmptyAlbums(counted), paths);
  }

  /** Whether the second orphan statement may run. */
  ghost predicate Legal(l: Library, gone: seq<string>, covers: map<Id, string>) {
    !ArtistDeleteBreaksSongs(Finished(l, gone, covers, ArtistsStop))
  }

  /** Wherever the cleanup stops, the swept paths are gone from the joined table and nothing else, and keys,
      references and artist agreement are kept. */
  lemma FinishedKeeps(l: Library, gone: seq<string>, covers: map<Id, string>, stop: Stop)
    requires Sound(l) && (PastOrphans(stop) ==> Legal(l, gone, covers))
    ensures KeepsBut(l, Finished(l, gone, covers, stop), Gone(gone, stop))
  {
    hide UniqueKeys, IdsDrawn, ForeignKeys, ArtistAgreement, LibraryTracks, WithCovers, WithStatistics,
         DeleteEmptyAlbums, DeletePaths, DeleteIdleArtists, ArtistDeleteBreaksSongs, KeepsBut;
    CountedKeeps(l, Gone(gone, stop), covers);
    if PastOrphans(stop) {
      var last := Finished(l, gone, covers, ArtistsStop);
      KeptSound(l, last, Gone(gone, stop));
      IdleArtistsKeep(last);
      KeepsMore(l, last, DeleteIdleArtists(last), Gone(gone, stop));
    }
  }

  lemma KeptSound(l: Library, l': Library, paths: set<string>)
    requires Sound(l) && KeepsBut(l, l', paths)
    ensures Sound(l') && (Inv(l) ==> Inv(l'))
  {
    hide UniqueKeys, IdsDrawn, ArtistAgreement, LibraryTracks;
  }

  /** Artist agreement makes the cleanup legal. */
  lemma AgreementIsLegal(l: Library, gone: seq<string>, covers: map<Id, string>)
    requires Inv(l)
    ensures Legal(l, gone, covers)
  {
    hide Sound, ArtistAgreement, KeepsBut, Finished, ArtistDeleteBreaksSongs;
    FinishedKeeps(l, gone, covers, ArtistsStop);
    KeptSound(l, Finished(l, gone, covers, ArtistsStop), Gone(gone, ArtistsStop));
    AgreementMakesArtistDeleteLegal(Finished(l, gone, covers, ArtistsStop));
  }

  /** A cleanup that came as far as the index leaves no empty album, no idle artist and exact statistics. */
  lemma FinishedClean(l: Library, gone: seq<string>, covers: map<Id, string>, stop: Stop)
    requires Inv(l) && PastOrphans(stop)
    ensures Clean(Finished(l, gone, covers, stop))
  {
    hide UniqueKeys, IdsDrawn, ForeignKeys, ArtistAgreement, LibraryTracks, StatsRow, WithCovers, DeleteEmptyAlbums,
         DeletePaths, DeleteIdleArtists, ArtistDeleteBreaksSongs, Clean;
    var covered := WithCovers(Swept(l, SetOf(gone)), covers);
    CountedKeeps(l, SetOf(gone), covers);
    AgreementIsLegal(l, gone, covers);
    OrphansGone(covered, WithStatistics(covered));
  }

  /** Where the cleanup stops, keys and references hold, those of the user tables included. */
  lemma StopKeeps(l: Library, act: Activity, gone: seq<string>, covers: map<Id, string>, stop: Stop)
    requires Sound(l) && Referenced(act, SongIds(l.song)) && (PastOrphans(stop) ==> Legal(l, gone, covers))
    ensures var l' := Finished(l, gone, covers, stop);
      && Sound(l') && (Inv(l) ==> Inv(l'))
      && AlbumsLeft(l, l', covers, stop) && KeysLeft(l, l', Gone(gone, stop), stop)
      && Referenced(Forget(act, IdsOf(l.song, Gone(gone, stop))), SongIds(l'.song))
  {
    UniqueOf(l);
    hide Sound, ArtistAgreement, Referenced, SongIds, Forget, IdsOf, Finished, KeepsBut, Legal, DeletePaths,
         AlbumsLeft, KeysLeft;
    FinishedAlbums(l, gone, covers, stop);
    FinishedKeys(l, gone, covers, stop);
    FinishedKeeps(l, gone, covers, stop);
    KeptSound(l, Finished(l, gone, covers, stop), Gone(gone, stop));
    FinishedSongs(l, gone, covers, stop);
    ForgetKeepsReferences(l.song, act, Gone(gone, stop));
  }

  lemma FinishedSongs(l: Library, gone: seq<string>, covers: map<Id, string>, stop: Stop)
    ensures Finished(l, gone, covers, stop).song == DeletePaths(l.song, Gone(gone, stop))
  {
    hide DeletePaths;
  }

  lemma SetOfSplit(paths: seq<string>, i: nat, j: nat)
    requires i <= j <= |paths|
    ensures SetOf(paths[..j]) == SetOf(paths[..i]) + SetOf(paths[i..j])
  {
    assert paths[..j] == paths[..i] + paths[i..j];
  }

  /** The second state is the first with a set of paths and everything that hangs on them removed, and nothing else. */
  ghost predicate Deleted(l: Library, a: Activity, paths: set<string>, l': Library, a': Activity) {
    l' == Swept(l, paths) && a' == Forget(a, IdsOf(l.song, paths))
  }

  lemma DeletedNone(l: Library, a: Activity)
    ensures Deleted(l, a, SetOf([]), l, a)
  {
    ForgetNothing(a);
    assert IdsOf(l.song, {}) == {};
    assert DeletePaths(l.song, {}) == l.song;
  }

  lemma ForgetNothing(a: Activity)
    ensures Forget(a, {}) == a
  {
  }

  lemma ForgetParts(a: Activity, ids: set<Id>)
    ensures Forget(a, ids) ==
      a.(plays := DeletePlays(a.plays, ids), stars := DeleteStars(a.stars, ids), slots := DeleteSlots(a.slots, ids))
  {
  }

  /** A play or a playlist row has one of these songs. */
  predicate StillReferenced(act: Activity, ids: set<Id>) {
    (exists h | h in act.plays :: act.plays[h].songId in ids) || (exists s | s in act.slots :: act.slots[s] in ids)
  }

  lemma NotReferenced(act: Activity, ids: set<Id>)
    ensures !StillReferenced(Forget(act, ids), ids)
  {
  }

  lemma UniqueOf(l: Library)
    ensures Sound(l) ==> UniqueSongs(l.song)
  {
  }

  lemma DeletedMore(l: Library, a: Activity, paths: set<string>, l1: Library, a1: Activity, more: set<string>,
                    l2: Library, a2: Activity)
    requires UniqueSongs(l.song) && Deleted(l, a, paths, l1, a1) && Deleted(l1, a1, more, l2, a2)
    ensures Deleted(l, a, paths + more, l2, a2)
  {
    DeletionsCompose(l.song, a, paths, more);
  }

  /** COUNT and SUM(duration) of one album's group. */
  method Aggregate(song: Songs, a: Id) returns (count: nat, duration: int)
    ensures count == |SongsOf(song, a)| && duration == TotalDuration(song, SongsOf(song, a))
  {
    hide SongsOf, TotalDuration;
    count, duration := 0, 0;
    var todo := song.Keys;
    ghost var seen, group: set<string> := {}, SongsOf(song, a);
    GroupOf(song, a);
    TotalOfNone(song);
    while todo != {}
      invariant todo <= song.Keys && seen == group - todo
      invariant count == |seen| && duration == TotalDuration(song, seen)
    {
      var p :| p in todo;
      if song[p].albumId == a {
        ghost var more := seen + {p};
        assert more - {p} == seen && |more| == |seen| + 1;
        TotalWithout(song, more, p);
        count, duration, seen := count + 1, duration + song[p].data.duration, more;
      }
      todo := todo - {p};
    }
    assert seen == group;
  }

  lemma GroupOf(song: Songs, a: Id)
    ensures SongsOf(song, a) <= song.Keys
    ensures forall p | p in song :: p in SongsOf(song, a) <==> song[p].albumId == a
  {
  }

  lemma TotalOfNone(song: Songs)
    ensures TotalDuration(song, {}) == 0
  {
  }

  /** The row an album has after the statistics update. */
  ghost function StatsRow(row: AlbumRow, song: Songs, a: Id): AlbumRow {
    if SongsOf(song, a) == {} then row
    else row.(songCount := |SongsOf(song, a)|, duration := TotalDuration(song, SongsOf(song, a)))
  }

  lemma StatsRowIs(row: AlbumRow, song: Songs, a: Id, count: nat, duration: int)
    requires count == |SongsOf(song, a)| && duration == TotalDuration(song, SongsOf(song, a))
    ensures StatsRow(row, song, a) == if count > 0 then row.(songCount := count, duration := duration) else row
  {
  }

  /** Changing album columns other than artist and name changes no key, reference or track. */
  lemma AlbumColumns(l: Library, album: Albums)
    requires Sound(l) && album.Keys == l.album.Keys
    requires forall a | a in album :: album[a].artistId == l.album[a].artistId && album[a].name == l.album[a].name
    ensures Sound(l.(album := album)) && LibraryTracks(l.(album := album)) == LibraryTracks(l)
    ensures ArtistAgreement(l.song, l.album) ==> ArtistAgreement(l.song, album)
  {
    hide UniqueArtists, UniqueSongs;
    assert forall p | p in l.song ::
      JoinedTrack(p, l.song[p], album, l.artist) == JoinedTrack(p, l.song[p], l.album, l.artist);
  }

  /** After a successful scan: no empty album, no idle artist, and every album's statistics are exact. */
  ghost predicate Clean(l: Library) {
    && (forall a | a in l.album :: SongsOf(l.song, a) != {} && Counted(l.album[a], l.song, a))
    && (forall r | r in l.artist :: r in AlbumArtists(l.album))
  }

  /** Statistics skip the albums without songs; the orphan statements then remove exactly those, and artists left
      idle. */
  lemma OrphansGone(l: Library, l': Library)
    requires Sound(l) && Sound(l') && l' == l.(album := l'.album) && l'.album.Keys == l.album.Keys
    requires forall a | a in l'.album :: l'.album[a] == StatsRow(l.album[a], l.song, a)
    requires !ArtistDeleteBreaksSongs(DeleteEmptyAlbums(l'))
    ensures Clean(DeleteIdleArtists(DeleteEmptyAlbums(l')))
  {
    hide UniqueArtists, UniqueAlbums, UniqueSongs, AlbumReferences, SongReferences, IdsDrawn;
    DeleteEmptyAlbumsEffect(l');
  }
}
