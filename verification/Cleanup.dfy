/** The statements that run after the writer: deletion of gone songs, album statistics, orphan removal and the search
    index. */
module Cleanup {
  import opened Catalog

  datatype PlayRow = PlayRow(songId: Id, userId: string)
  datatype ItemType = ArtistItem | AlbumItem | SongItem
  datatype Star = Star(userId: string, itemId: Id, itemType: ItemType)
  datatype PlaylistRow = PlaylistRow(userId: string, name: string, comment: string, public: bool)
  datatype Slot = Slot(playlistId: Id, position: int)
  type Playlists = map<Id, PlaylistRow>

  /** The tables users write to. */
  datatype Activity = Activity(plays: map<Id, PlayRow>, stars: set<Star>, ratings: map<(string, Id), int>,
                               playlists: Playlists, slots: map<Slot, Id>)

  ghost predicate PlayReferences(plays: map<Id, PlayRow>, songIds: set<Id>) {
    forall h | h in plays :: plays[h].songId in songIds
  }

  ghost predicate SlotReferences(slots: map<Slot, Id>, playlists: Playlists, songIds: set<Id>) {
    forall s | s in slots :: slots[s] in songIds && s.playlistId in playlists
  }

  /** The REFERENCES constraints from user tables into the library. */
  ghost predicate Referenced(act: Activity, songIds: set<Id>) {
    PlayReferences(act.plays, songIds) && SlotReferences(act.slots, act.playlists, songIds)
  }

  lemma ReferencedMore(act: Activity, ids: set<Id>, ids': set<Id>)
    requires Referenced(act, ids) && ids <= ids'
    ensures Referenced(act, ids')
  {
  }

  /* ---------------- deleting songs ---------------- */

  /** SELECT id FROM song WHERE path IN (...) */
  function IdsOf(song: Songs, paths: set<string>): set<Id> {
    set p | p in song && p in paths :: song[p].id
  }

  /** DELETE FROM play_history WHERE song_id IN (...) */
  function DeletePlays(plays: map<Id, PlayRow>, ids: set<Id>): map<Id, PlayRow> {
    map h | h in plays && plays[h].songId !in ids :: plays[h]
  }

  /** DELETE FROM star WHERE item_id IN (...) AND item_type = 'song' */
  function DeleteStars(stars: set<Star>, ids: set<Id>): set<Star> {
    set s | s in stars && !(s.itemId in ids && s.itemType == SongItem)
  }

  /** DELETE FROM playlist_song WHERE song_id IN (...) */
  function DeleteSlots(slots: map<Slot, Id>, ids: set<Id>): map<Slot, Id> {
    map s | s in slots && slots[s] !in ids :: slots[s]
  }

  /** DELETE FROM song WHERE path IN (...) */
  function DeletePaths(song: Songs, paths: set<string>): Songs {
    song - paths
  }

  /** All that goes with a set of paths, removed at once. */
  function Forget(act: Activity, ids: set<Id>): Activity {
    act.(plays := DeletePlays(act.plays, ids), stars := DeleteStars(act.stars, ids),
         slots := DeleteSlots(act.slots, ids))
  }

  lemma DeletePathsKeepsSound(l: Library, paths: set<string>)
    requires Sound(l)
    ensures Sound(l.(song := DeletePaths(l.song, paths)))
    ensures LibraryTracks(l.(song := DeletePaths(l.song, paths))) == LibraryTracks(l) - paths
    ensures SongIds(DeletePaths(l.song, paths)) <= SongIds(l.song)
    ensures ArtistAgreement(l.song, l.album) ==> ArtistAgreement(DeletePaths(l.song, paths), l.album)
  {
    hide UniqueArtists, UniqueAlbums, AlbumReferences;
    var l' := l.(song := DeletePaths(l.song, paths));
    assert forall p | p in l'.song :: l'.song[p] == l.song[p];
    assert UniqueSongs(l'.song);
    assert SongIds(l'.song) <= SongIds(l.song);
    assert IdsDrawn(l');
  }

  /** The three dependent deletes remove exactly the references that would dangle. */
  lemma ForgetKeepsReferences(song: Songs, act: Activity, paths: set<string>)
    requires UniqueSongs(song) && Referenced(act, SongIds(song))
    ensures Referenced(Forget(act, IdsOf(song, paths)), SongIds(DeletePaths(song, paths)))
  {
    var ids, song' := IdsOf(song, paths), DeletePaths(song, paths);
    forall i | i in SongIds(song) && i !in ids ensures i in SongIds(song') {
      var p :| p in song && song[p].id == i;
      assert p in song' && song'[p].id == i;
    }
  }

  /** Of the user tables exactly this goes: plays and playlist rows of songs that are gone, and stars of such songs.
      Stars of artists and albums, ratings and playlists stay. */
  lemma ForgetExact(song: Songs, act: Activity, paths: set<string>)
    requires UniqueSongs(song) && Referenced(act, SongIds(song))
    ensures var left, after := SongIds(DeletePaths(song, paths)), Forget(act, IdsOf(song, paths));
      && (forall h | h in act.plays :: h in after.plays <==> act.plays[h].songId in left)
      && (forall s | s in act.slots :: s in after.slots <==> act.slots[s] in left)
      && after.plays.Items <= act.plays.Items && after.slots.Items <= act.slots.Items
      && (forall s :: s in after.stars <==>
        s in act.stars && !(s.itemType == SongItem && s.itemId in SongIds(song) - left))
      && after.ratings == act.ratings && after.playlists == act.playlists
  {
    IdsAreGone(song, paths);
    hide SongIds, IdsOf, DeletePaths, UniqueSongs;
  }

  lemma IdsAreGone(song: Songs, paths: set<string>)
    requires UniqueSongs(song)
    ensures IdsOf(song, paths) == SongIds(song) - SongIds(DeletePaths(song, paths))
  {
    var song' := DeletePaths(song, paths);
    forall i | i in SongIds(song) ensures i in IdsOf(song, paths) <==> i !in SongIds(song') {
      var p :| p in song && song[p].id == i;
      if p !in paths {
        assert p in song' && song'[p].id == i;
      }
    }
  }

  /** Two deletions in a row are one deletion of the union. */
  lemma DeletionsCompose(song: Songs, act: Activity, a: set<string>, b: set<string>)
    requires UniqueSongs(song)
    ensures DeletePaths(DeletePaths(song, a), b) == DeletePaths(song, a + b)
    ensures Forget(Forget(act, IdsOf(song, a)), IdsOf(DeletePaths(song, a), b)) == Forget(act, IdsOf(song, a + b))
  {
    var song' := DeletePaths(song, a);
    assert IdsOf(song, a) + IdsOf(song', b) == IdsOf(song, a + b) by {
      forall i | i in IdsOf(song, a + b) ensures i in IdsOf(song, a) + IdsOf(song', b) {
        var p :| p in song && p in a + b && song[p].id == i;
        assert p !in a ==> p in song' && song'[p].id == i;
      }
    }
    ForgetTwice(act, IdsOf(song, a), IdsOf(song', b));
  }

  lemma ForgetTwice(act: Activity, a: set<Id>, b: set<Id>)
    ensures Forget(Forget(act, a), b) == Forget(act, a + b)
  {
  }

  /* ---------------- album statistics ---------------- */

  ghost function SongsOf(song: Songs, a: Id): set<string> {
    set p | p in song && song[p].albumId == a
  }

  ghost function TotalDuration(song: Songs, paths: set<string>): int
    requires paths <= song.Keys
  {
    if paths == {} then 0
    else
      var p :| p in paths;
      song[p].data.duration + TotalDuration(song, paths - {p})
  }

  /** The order in which durations are added does not matter. */
  lemma {:induction false} TotalWithout(song: Songs, paths: set<string>, p: string)
    requires paths <= song.Keys && p in paths
    ensures TotalDuration(song, paths) == song[p].data.duration + TotalDuration(song, paths - {p})
    decreases paths
  {
    var q :| q in paths && TotalDuration(song, paths) == song[q].data.duration + TotalDuration(song, paths - {q});
    if q != p {
      TotalWithout(song, paths - {q}, p);
      TotalWithout(song, paths - {p}, q);
      assert paths - {q} - {p} == paths - {p} - {q};
    }
  }

  ghost predicate Counted(row: AlbumRow, song: Songs, a: Id) {
    row.songCount == |SongsOf(song, a)| && row.duration == TotalDuration(song, SongsOf(song, a))
  }

  /* ---------------- orphans ---------------- */

  /** DELETE FROM album WHERE id NOT IN (SELECT DISTINCT album_id FROM song) */
  function DeleteEmptyAlbums(l: Library): Library {
    var used := set p | p in l.song :: l.song[p].albumId;
    l.(album := map a | a in l.album && a in used :: l.album[a])
  }

  function AlbumArtists(album: Albums): set<Id> {
    set a | a in album :: album[a].artistId
  }

  /** Whether removing the artists without an album would leave a song without its artist. */
  predicate ArtistDeleteBreaksSongs(l: Library) {
    exists p | p in l.song :: l.song[p].artistId !in AlbumArtists(l.album)
  }

  /** DELETE FROM artist WHERE id NOT IN (SELECT DISTINCT artist_id FROM album) */
  function DeleteIdleArtists(l: Library): Library {
    l.(artist := map a | a in l.artist && a in AlbumArtists(l.album) :: l.artist[a])
  }

  lemma DeleteEmptyAlbumsEffect(l: Library)
    requires Sound(l)
    ensures Sound(DeleteEmptyAlbums(l))
    ensures LibraryTracks(DeleteEmptyAlbums(l)) == LibraryTracks(l)
    ensures forall a | a in DeleteEmptyAlbums(l).album :: a in l.album && l.album[a] == DeleteEmptyAlbums(l).album[a]
    ensures forall a | a in l.album :: a in DeleteEmptyAlbums(l).album <==> SongsOf(l.song, a) != {}
    ensures ArtistAgreement(l.song, l.album) ==> ArtistAgreement(l.song, DeleteEmptyAlbums(l).album)
  {
    hide UniqueArtists, UniqueSongs;
    var l' := DeleteEmptyAlbums(l);
    assert forall a | a in l.album && SongsOf(l.song, a) != {} :: a in l'.album by {
      forall a | a in l.album && SongsOf(l.song, a) != {} ensures a in l'.album {
        var p :| p in SongsOf(l.song, a);
      }
    }
    assert forall p | p in l.song :: p in SongsOf(l.song, l.song[p].albumId);
  }

  /** Artist agreement is what makes the artist delete legal: no song loses its artist. */
  lemma AgreementMakesArtistDeleteLegal(l: Library)
    requires Inv(l)
    ensures !ArtistDeleteBreaksSongs(l)
  {
    assert forall a | a in l.album :: l.album[a].artistId in AlbumArtists(l.album);
  }

  lemma DeleteIdleArtistsEffect(l: Library)
    requires Sound(l) && !ArtistDeleteBreaksSongs(l)
    ensures Sound(DeleteIdleArtists(l))
    ensures LibraryTracks(DeleteIdleArtists(l)) == LibraryTracks(l)
  {
    hide UniqueAlbums, UniqueSongs, JoinedTrack;
    var l' := DeleteIdleArtists(l);
    assert forall a | a in l.album :: l.album[a].artistId in AlbumArtists(l.album);
    SameJoin(l, l');
  }

  lemma SameJoin(l: Library, l': Library)
    requires ForeignKeys(l) && ForeignKeys(l') && l'.album == l.album && l'.song == l.song
    requires forall a | a in l'.artist :: a in l.artist && l'.artist[a] == l.artist[a]
    ensures LibraryTracks(l') == LibraryTracks(l)
  {
  }

  /** The artist delete leaves every reference intact if and only if every song's artist still has an album. */
  lemma ArtistDeleteKeepsReferencesIff(l: Library)
    requires Sound(l)
    ensures ForeignKeys(DeleteIdleArtists(l)) <==> !ArtistDeleteBreaksSongs(l)
  {
    var l' := DeleteIdleArtists(l);
    assert forall a | a in l.album :: l.album[a].artistId in AlbumArtists(l.album);
  }

  /* ---------------- the search index ---------------- */

  datatype FtsRow = FtsRow(title: string, artistName: string, albumName: string)

  function FtsOfSong(row: SongRow, album: Albums, artist: Artists): FtsRow
    requires row.albumId in album && row.artistId in artist
  {
    FtsRow(row.data.title, artist[row.artistId], album[row.albumId].name)
  }

  /** The search index: a row of words for each rowid. */
  type Fts = map<nat, FtsRow>

  /** INSERT INTO song_fts ... SELECT ... FROM song JOIN artist JOIN album */
  function FtsOf(l: Library): Fts
    requires UniqueSongs(l.song) && ForeignKeys(l)
  {
    map p | p in l.song :: l.song[p].rowid := FtsOfSong(l.song[p], l.album, l.artist)
  }

  /** The index words of a track. */
  ghost function Words(t: Track): FtsRow {
    FtsRow(t.data.title, t.artist, t.album)
  }

  /** The index finds every song by the title, artist and album of its track.  Rows without a song do no harm, as the
      search joins the index with the songs. */
  ghost predicate Answers(fts: Fts, l: Library) {
    ForeignKeys(l) && forall p | p in l.song :: Finds(fts, l, p)
  }

  ghost predicate Finds(fts: Fts, l: Library, p: string)
    requires ForeignKeys(l) && p in l.song
  {
    l.song[p].rowid in fts && fts[l.song[p].rowid] == Words(LibraryTracks(l)[p])
  }

  /** The index holds exactly one row per song, with the title, artist and album of its track. */
  ghost predicate Indexes(fts: Fts, l: Library) {
    fts.Keys == Rowids(l.song) && Answers(fts, l)
  }

  lemma FtsOfIndexes(l: Library)
    requires Sound(l)
    ensures Indexes(FtsOf(l), l)
  {
    hide IdsDrawn, UniqueArtists, UniqueAlbums;
    assert UniqueSongs(l.song);
    FtsRowids(l);
    FtsAnswers(l);
  }

  lemma FtsRowids(l: Library)
    requires UniqueSongs(l.song) && ForeignKeys(l)
    ensures FtsOf(l).Keys == Rowids(l.song)
  {
    hide FtsOfSong, UniqueSongs;
    forall i | i in Rowids(l.song) ensures i in FtsOf(l) {
      var p :| p in l.song && l.song[p].rowid == i;
      assert l.song[p].rowid in FtsOf(l);
    }
  }

  lemma FtsAnswers(l: Library)
    requires UniqueSongs(l.song) && ForeignKeys(l)
    ensures Answers(FtsOf(l), l)
  {
    forall p | p in l.song ensures Finds(FtsOf(l), l, p) {
      assert l.song[p].rowid in FtsOf(l);
    }
  }
}
