/** All the ways the database changes, in any order: writer batches, sweeps, album columns, orphan removal, scrobbles,
    stars and playlist edits. */
module Runs {
  import opened Catalog
  import opened Batch
  import opened Cleanup
  import opened Store
  import Playlist

  datatype State = State(lib: Library, act: Activity)

  datatype Columns = Columns(coverArt: string, songCount: int, duration: int)

  datatype Event =
    | WriteBatch(tracks: seq<Track>)
    | Sweep(paths: set<string>)
    | SetColumns(columns: map<Id, Columns>)       // covers and statistics
    | RemoveOrphans
    | Scrobble(plays: map<Id, PlayRow>)
    | StarOn(star: Star)
    | StarOff(star: Star)
    | Rate(userId: string, itemId: Id, rating: int)
    | AddSlot(slot: Slot, songId: Id)
    | DropSlots(playlistId: Id, positions: set<int>)
    | NewPlaylist(playlistId: Id, row: PlaylistRow)
    | EditPlaylist(playlistId: Id, row: PlaylistRow)
    | DropPlaylist(playlistId: Id)                // ON DELETE CASCADE

  /** What the database refuses: dangling references and taken keys. */
  ghost predicate Accepted(s: State, e: Event) {
    match e
    case RemoveOrphans => !ArtistDeleteBreaksSongs(DeleteEmptyAlbums(s.lib))
    case Scrobble(plays) => plays.Keys !! s.act.plays.Keys && PlayReferences(plays, SongIds(s.lib.song))
    case AddSlot(slot, id) => slot !in s.act.slots && id in SongIds(s.lib.song) && slot.playlistId in s.act.playlists
    case NewPlaylist(pid, _) => pid !in s.act.playlists
    case EditPlaylist(pid, _) => pid in s.act.playlists
    case _ => true
  }

  function SetAlbums(album: Albums, columns: map<Id, Columns>): Albums {
    map a | a in album :: if a in columns
      then album[a].(coverArt := columns[a].coverArt, songCount := columns[a].songCount,
        duration := columns[a].duration)
      else album[a]
  }

  /** The event carried out.  Batches are written to sound tables alone, and all reachable ones are, as RunSound
      shows. */
  ghost function Apply(s: State, e: Event): State {
    match e
    case WriteBatch(tracks) => if Sound(s.lib) then s.(lib := BatchAll(s.lib, tracks).0) else s
    case Sweep(paths) =>
      State(s.lib.(song := DeletePaths(s.lib.song, paths)), Forget(s.act, IdsOf(s.lib.song, paths)))
    case SetColumns(columns) => s.(lib := s.lib.(album := SetAlbums(s.lib.album, columns)))
    case RemoveOrphans => s.(lib := DeleteIdleArtists(DeleteEmptyAlbums(s.lib)))
    case Scrobble(plays) => s.(act := s.act.(plays := s.act.plays + plays))
    case StarOn(star) => s.(act := s.act.(stars := s.act.stars + {star}))
    case StarOff(star) => s.(act := s.act.(stars := s.act.stars - {star}))
    case Rate(user, item, rating) => s.(act := s.act.(ratings := s.act.ratings[(user, item) := rating]))
    case AddSlot(slot, id) => s.(act := s.act.(slots := s.act.slots[slot := id]))
    case DropSlots(pid, positions) => s.(act := s.act.(slots := Playlist.RemoveAt(s.act.slots, pid, positions)))
    case NewPlaylist(pid, row) => s.(act := s.act.(playlists := s.act.playlists[pid := row]))
    case EditPlaylist(pid, row) => s.(act := s.act.(playlists := s.act.playlists[pid := row]))
    case DropPlaylist(pid) =>
      s.(act := s.act.(playlists := s.act.playlists - {pid}, slots := Playlist.Others(s.act.slots, pid)))
  }

  /** Covers and statistics are set, and the other columns and albums stay. */
  lemma ColumnsSet(s: State, columns: map<Id, Columns>, a: Id)
    requires a in s.lib.album
    ensures var lib := Apply(s, SetColumns(columns)).lib;
      && a in lib.album && lib == s.lib.(album := lib.album) && lib.album.Keys == s.lib.album.Keys
      && lib.album[a] ==
         if a in columns then
           AlbumRow(s.lib.album[a].artistId, s.lib.album[a].name, s.lib.album[a].year, s.lib.album[a].genre,
                    columns[a].coverArt, columns[a].songCount, columns[a].duration)
         else s.lib.album[a]
  {
  }

  /** What the events of users do to the row they are about. */
  lemma UserEvents(s: State, star: Star, user: string, item: Id, rating: int, slot: Slot, song: Id, pid: Id,
                   row: PlaylistRow)
    ensures Apply(s, StarOn(star)).act.stars == s.act.stars + {star}
    ensures Apply(s, StarOff(star)).act.stars == s.act.stars - {star}
    ensures Apply(s, Rate(user, item, rating)).act.ratings == s.act.ratings[(user, item) := rating]
    ensures Apply(s, AddSlot(slot, song)).act.slots == s.act.slots[slot := song]
    ensures Apply(s, NewPlaylist(pid, row)).act.playlists == s.act.playlists[pid := row]
    ensures Apply(s, EditPlaylist(pid, row)).act.playlists == s.act.playlists[pid := row]
    ensures var act := Apply(s, DropPlaylist(pid)).act;
      && pid !in act.playlists && act.playlists == s.act.playlists - {pid}
      && (forall t :: t in act.slots <==> t in s.act.slots && t.playlistId != pid)
  {
  }

  /** What the database guarantees of its tables. */
  ghost predicate Intact(s: State) {
    Sound(s.lib) && Referenced(s.act, SongIds(s.lib.song))
  }

  ghost predicate Consistent(s: State) {
    Intact(s) && ArtistAgreement(s.lib.song, s.lib.album)
  }

  lemma BatchKeepsIntact(s: State, tracks: seq<Track>)
    requires Intact(s)
    ensures Intact(Apply(s, WriteBatch(tracks)))
  {
    hide UniqueKeys, IdsDrawn, ForeignKeys, ArtistAgreement, BatchAll;
    BatchKeepsSongIds(s.lib, tracks);
    ReferencedMore(s.act, SongIds(s.lib.song), SongIds(BatchAll(s.lib, tracks).0.song));
  }

  lemma BatchKeepsConsistent(s: State, tracks: seq<Track>)
    requires Consistent(s) && Faithful(tracks)
    ensures Consistent(Apply(s, WriteBatch(tracks)))
  {
    hide UniqueKeys, IdsDrawn, ForeignKeys, ArtistAgreement, BatchAll, Faithful;
    BatchKeepsIntact(s, tracks);
    BatchMatchesUncached(s.lib, tracks);
    SameAgreement(BatchAll(s.lib, tracks).0, UpsertAll(s.lib, tracks));
  }

  lemma SweepKeeps(s: State, paths: set<string>)
    requires Intact(s)
    ensures Intact(Apply(s, Sweep(paths))) && (Consistent(s) ==> Consistent(Apply(s, Sweep(paths))))
  {
    hide UniqueArtists, UniqueAlbums, AlbumReferences, SongReferences, IdsDrawn, ArtistAgreement, Forget, IdsOf,
         DeletePaths, SongIds;
    DeletePathsKeepsSound(s.lib, paths);
    ForgetKeepsReferences(s.lib.song, s.act, paths);
  }

  lemma CleanupKeeps(s: State, e: Event)
    requires Intact(s) && Accepted(s, e) && (e.SetColumns? || e.RemoveOrphans?)
    ensures Intact(Apply(s, e)) && (Consistent(s) ==> Consistent(Apply(s, e)))
  {
    hide UniqueKeys, IdsDrawn, AlbumReferences, SongReferences, ArtistAgreement, SongIds, ArtistDeleteBreaksSongs;
    if e.SetColumns? {
      AlbumColumns(s.lib, SetAlbums(s.lib.album, e.columns));
    } else {
      DeleteEmptyAlbumsEffect(s.lib);
      DeleteIdleArtistsEffect(DeleteEmptyAlbums(s.lib));
    }
  }

  lemma UserEventKeeps(s: State, e: Event)
    requires Intact(s) && Accepted(s, e)
    requires !e.WriteBatch? && !e.Sweep? && !e.SetColumns? && !e.RemoveOrphans?
    ensures Intact(Apply(s, e)) && (Consistent(s) ==> Consistent(Apply(s, e)))
  {
    hide Sound, ArtistAgreement, SongIds;
  }

  /** Whatever happens next, any batch included, keys and references hold. */
  lemma EventKeepsIntact(s: State, e: Event)
    requires Intact(s) && Accepted(s, e)
    ensures Intact(Apply(s, e))
  {
    hide Intact, Apply, Accepted, Consistent;
    match e {
      case WriteBatch(tracks) => BatchKeepsIntact(s, tracks);
      case Sweep(paths) => SweepKeeps(s, paths);
      case SetColumns(_) => CleanupKeeps(s, e);
      case RemoveOrphans => CleanupKeeps(s, e);
      case _ => UserEventKeeps(s, e);
    }
  }

  /** No batch of the run holds two tracks that collide in the album cache. */
  ghost predicate NoCollision(e: Event) {
    e.WriteBatch? ==> Faithful(e.tracks)
  }

  /** Whatever happens next, unless it is a batch with a collision, every song's artist stays its album's artist. */
  lemma EventKeepsConsistent(s: State, e: Event)
    requires Consistent(s) && Accepted(s, e) && NoCollision(e)
    ensures Consistent(Apply(s, e))
  {
    hide Consistent, Apply, Accepted, Faithful;
    ConsistentIsIntact(s);
    match e {
      case WriteBatch(tracks) => BatchKeepsConsistent(s, tracks);
      case Sweep(paths) => SweepKeeps(s, paths);
      case SetColumns(_) => CleanupKeeps(s, e);
      case RemoveOrphans => CleanupKeeps(s, e);
      case _ => UserEventKeeps(s, e);
    }
  }

  lemma ConsistentIsIntact(s: State)
    ensures Consistent(s) ==> Intact(s)
  {
  }

  /** A batch of distinct files keeps the state consistent if and only if none of its tracks collide. */
  lemma BatchConsistentIff(s: State, tracks: seq<Track>)
    requires Consistent(s) && DistinctPaths(tracks)
    ensures Consistent(Apply(s, WriteBatch(tracks))) <==> Faithful(tracks)
  {
    hide UniqueKeys, IdsDrawn, ForeignKeys, ArtistAgreement, BatchAll, Faithful, DistinctPaths;
    BatchKeepsIntact(s, tracks);
    BatchKeepsAgreementIff(s.lib, tracks);
  }

  lemma OrphansAccepted(s: State)
    requires Consistent(s)
    ensures Accepted(s, RemoveOrphans)
  {
    DeleteEmptyAlbumsEffect(s.lib);
    AgreementMakesArtistDeleteLegal(DeleteEmptyAlbums(s.lib));
  }

  const INITIAL := State(EMPTY, Activity(map[], {}, map[], map[], map[]))

  ghost predicate IsRun(states: seq<State>, events: seq<Event>) {
    && |states| == |events| + 1 && states[0] == INITIAL
    && forall i | 0 <= i < |events| :: Accepted(states[i], events[i]) && states[i + 1] == Apply(states[i], events[i])
  }

  /** In every state of every run, whatever the batches: unique keys and foreign keys. */
  lemma {:induction false} RunSound(states: seq<State>, events: seq<Event>, i: nat)
    requires IsRun(states, events) && i <= |events|
    ensures Intact(states[i])
  {
    hide Accepted, Apply, Sound, Consistent;
    if i == 0 {
      InitialConsistent();
      ConsistentIsIntact(INITIAL);
    } else {
      RunSound(states, events, i - 1);
      EventKeepsIntact(states[i - 1], events[i - 1]);
    }
  }

  /** In every state of every run whose batches so far hold no collision: artist agreement, and legal orphan removal. */
  lemma {:induction false} RunConsistent(states: seq<State>, events: seq<Event>, i: nat)
    requires IsRun(states, events) && i <= |events|
    requires forall k | 0 <= k < i :: NoCollision(events[k])
    ensures Consistent(states[i]) && Accepted(states[i], RemoveOrphans)
  {
    hide Accepted, Apply, Sound, NoCollision, Consistent;
    if i == 0 {
      InitialConsistent();
    } else {
      RunConsistent(states, events, i - 1);
      EventKeepsConsistent(states[i - 1], events[i - 1]);
    }
    OrphansAccepted(states[i]);
  }

  lemma InitialConsistent()
    ensures Consistent(INITIAL)
  {
  }

  /* ---------------- what a cache collision does ---------------- */

  const COLLIDING: seq<Track> := [
    Track("/a.mp3", "A\0B", "C", SongData("a", 1, 1, 2000, "", 60, 1, "mp3", 128, "audio/mpeg", 1)),
    Track("/b.mp3", "A", "B\0C", SongData("b", 1, 1, 2000, "", 60, 1, "mp3", 128, "audio/mpeg", 1))]

  /** Two tracks in one batch whose artist and album differ only in where a NUL splits them share one album, and the
      orphan cleanup that follows is refused. */
  lemma CollisionBlocksCleanup()
    ensures !Inv(BatchAll(EMPTY, COLLIDING).0)
    ensures ArtistDeleteBreaksSongs(DeleteEmptyAlbums(BatchAll(EMPTY, COLLIDING).0))
  {
    hide BatchAll, BatchTrack, DeleteEmptyAlbums, ArtistDeleteBreaksSongs, UniqueKeys, IdsDrawn, Fits;
    var a, b := COLLIDING[0], COLLIDING[1];
    assert CacheKey(a) == "A\0B\0C" == CacheKey(b);
    InitialConsistent();
    var (l1, c1) := BatchAll(EMPTY, [a]);
    var (l2, c2) := BatchAll(EMPTY, COLLIDING);
    BatchSnoc(EMPTY, [], a);
    BatchEmpty(EMPTY);
    assert [] + [a] == [a] && [a] + [b] == COLLIDING;
    BatchSnoc(EMPTY, [a], b);
    FirstCollides(a, l1, c1);
    SecondCollides(a, b, l1, c1, l2, c2);
    StrayArtist(l2, b.path);
  }

  lemma FirstCollides(a: Track, l1: Library, c1: Cache)
    requires Sound(EMPTY) && (l1, c1) == BatchTrack(EMPTY, Cache(map[], map[]), a)
    ensures l1.artist == map[0 := a.artist] && l1.album.Keys == {1} && l1.album[1].artistId == 0
    ensures l1.song.Keys == {a.path} && l1.song[a.path].albumId == 1 && l1.song[a.path].artistId == 0 && l1.nextId == 3
    ensures c1 == Cache(map[a.artist := 0], map[CacheKey(a) := 1])
  {
  }

  lemma SecondCollides(a: Track, b: Track, l1: Library, c1: Cache, l2: Library, c2: Cache)
    requires a.artist != b.artist && a.path != b.path && CacheKey(a) == CacheKey(b)
    requires Sound(l1) && Fits(c1, l1) && (l2, c2) == BatchTrack(l1, c1, b)
    requires l1.artist == map[0 := a.artist] && l1.album.Keys == {1} && l1.album[1].artistId == 0 && l1.nextId == 3
    requires c1 == Cache(map[a.artist := 0], map[CacheKey(a) := 1])
    ensures b.path in l2.song && l2.song[b.path].artistId == 3 && l2.song[b.path].albumId == 1 && l2.album == l1.album
  {
    hide Sound;
    assert !HasArtist(l1.artist, b.artist);
  }

  /** A song of artist 3 in the only album, which is artist 0's. */
  lemma StrayArtist(l: Library, path: string)
    requires path in l.song && l.song[path].artistId == 3 && l.song[path].albumId == 1
    requires l.album.Keys == {1} && l.album[1].artistId == 0
    ensures !ArtistAgreement(l.song, l.album)
    ensures ArtistDeleteBreaksSongs(DeleteEmptyAlbums(l))
  {
  }
}
