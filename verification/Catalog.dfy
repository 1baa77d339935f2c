/** The library tables and the SQL statements the scanner's writer runs on them.

    Each table is a map from its key columns to the remaining columns, and a
    statement is a function from tables to tables.  Artists and albums are keyed
    by id, songs by their unique path.  An id drawn for a row that is not
    inserted leaves no trace, so `nextId` advances only when a row is inserted. */
module Catalog {
  type Id = nat

  /** The columns of `song` other than its path, its id and its two references. */
  datatype SongData = SongData(title: string, number: int, disc: int, year: int, genre: string,
                               duration: int, size: int, suffix: string, bitrate: int,
                               contentType: string, mtime: int)

  /** What a parse worker hands to the writer for one file. */
  datatype Track = Track(path: string, artist: string, album: string, data: SongData)

  datatype AlbumRow = AlbumRow(artistId: Id, name: string, year: int, genre: string,
                               coverArt: string, songCount: int, duration: int)

  /** `rowid` is the number SQLite gives the row, by which the search index refers to it. */
  datatype SongRow = SongRow(id: Id, rowid: nat, albumId: Id, artistId: Id, data: SongData)

  type Artists = map<Id, string>
  type Albums = map<Id, AlbumRow>
  type Songs = map<string, SongRow>

  /** The three tables the scanner fills. */
  datatype Library = Library(artist: Artists, album: Albums, song: Songs, nextId: Id)

  const EMPTY := Library(map[], map[], map[], 0)

  function SetOf(paths: seq<string>): set<string> {
    set p | p in paths
  }

  /* ---------------- keys and references ---------------- */

  ghost function SongIds(song: Songs): set<Id> {
    set p | p in song :: song[p].id
  }

  ghost predicate UniqueArtists(artist: Artists) {
    forall a, b | a in artist && b in artist && artist[a] == artist[b] :: a == b
  }

  ghost predicate UniqueAlbums(album: Albums) {
    forall a, b | a in album && b in album && album[a].artistId == album[b].artistId
                  && album[a].name == album[b].name :: a == b
  }

  ghost predicate UniqueSongs(song: Songs) {
    && (forall p, q | p in song && q in song && song[p].id == song[q].id :: p == q)
    && (forall p, q | p in song && q in song && song[p].rowid == song[q].rowid :: p == q)
  }

  /** The UNIQUE constraints of the schema. */
  ghost predicate UniqueKeys(l: Library) {
    UniqueArtists(l.artist) && UniqueAlbums(l.album) && UniqueSongs(l.song)
  }

  ghost predicate AlbumReferences(album: Albums, artist: Artists) {
    forall a | a in album :: album[a].artistId in artist
  }

  ghost predicate SongReferences(song: Songs, album: Albums, artist: Artists) {
    forall p | p in song :: song[p].albumId in album && song[p].artistId in artist
  }

  /** The REFERENCES constraints inside the library; SQLite enforces them after every statement. */
  ghost predicate ForeignKeys(l: Library) {
    AlbumReferences(l.album, l.artist) && SongReferences(l.song, l.album, l.artist)
  }

  /** Every song's artist is its album's artist. */
  ghost predicate ArtistAgreement(song: Songs, album: Albums) {
    forall p | p in song && song[p].albumId in album :: album[song[p].albumId].artistId == song[p].artistId
  }

  ghost predicate AllBelow(ids: set<Id>, n: Id) {
    forall i | i in ids :: i < n
  }

  /** Every id in use was drawn before `nextId`. */
  ghost predicate IdsDrawn(l: Library) {
    AllBelow(l.artist.Keys, l.nextId) && AllBelow(l.album.Keys, l.nextId) && AllBelow(SongIds(l.song), l.nextId)
  }

  /** What the database itself guarantees. */
  ghost predicate Sound(l: Library) {
    UniqueKeys(l) && ForeignKeys(l) && IdsDrawn(l)
  }

  /** What the scanner relies on beyond that. */
  ghost predicate Inv(l: Library) {
    Sound(l) && ArtistAgreement(l.song, l.album)
  }

  /* ---------------- what the tables say, without ids ---------------- */

  ghost function JoinedTrack(p: string, row: SongRow, album: Albums, artist: Artists): Track
    requires row.albumId in album && row.artistId in artist
  {
    Track(p, artist[row.artistId], album[row.albumId].name, row.data)
  }

  /** The song table joined with its artist and album: the track each path was stored from. */
  ghost function Tracks(song: Songs, album: Albums, artist: Artists): map<string, Track>
    requires SongReferences(song, album, artist)
  {
    map p | p in song :: JoinedTrack(p, song[p], album, artist)
  }

  ghost function LibraryTracks(l: Library): map<string, Track>
    requires ForeignKeys(l)
  {
    Tracks(l.song, l.album, l.artist)
  }

  ghost function ArtistNames(artist: Artists): set<string> {
    set a | a in artist :: artist[a]
  }

  ghost function AlbumKey(row: AlbumRow, artist: Artists): (string, string)
    requires row.artistId in artist
  {
    (artist[row.artistId], row.name)
  }

  ghost function AlbumKeys(album: Albums, artist: Artists): set<(string, string)>
    requires AlbumReferences(album, artist)
  {
    set a | a in album :: AlbumKey(album[a], artist)
  }

  /* ---------------- the upsert statements ---------------- */

  predicate HasArtist(artist: Artists, name: string) {
    exists a | a in artist :: artist[a] == name
  }

  function ArtistId(artist: Artists, name: string): (id: Id)
    requires UniqueArtists(artist) && HasArtist(artist, name)
    ensures id in artist && artist[id] == name
  {
    var a :| a in artist && artist[a] == name;
    a
  }

  /** INSERT INTO artist ... ON CONFLICT(name) DO UPDATE ... RETURNING id */
  function UpsertArtist(l: Library, name: string): (r: (Library, Id))
    requires UniqueKeys(l)
    ensures r.1 in r.0.artist && r.0.artist[r.1] == name
  {
    if HasArtist(l.artist, name) then (l, ArtistId(l.artist, name))
    else (l.(artist := l.artist[l.nextId := name], nextId := l.nextId + 1), l.nextId)
  }

  predicate IsAlbum(row: AlbumRow, artistId: Id, name: string) {
    row.artistId == artistId && row.name == name
  }

  predicate HasAlbum(album: Albums, artistId: Id, name: string) {
    exists a | a in album :: IsAlbum(album[a], artistId, name)
  }

  function AlbumId(album: Albums, artistId: Id, name: string): (id: Id)
    requires UniqueAlbums(album) && HasAlbum(album, artistId, name)
    ensures id in album && IsAlbum(album[id], artistId, name)
  {
    var a :| a in album && IsAlbum(album[a], artistId, name);
    a
  }

  /** INSERT INTO album ... ON CONFLICT(artist_id, name) DO UPDATE SET year, genre RETURNING id */
  function UpsertAlbum(l: Library, artistId: Id, name: string, year: int, genre: string): (r: (Library, Id))
    requires UniqueKeys(l)
    ensures r.1 in r.0.album && IsAlbum(r.0.album[r.1], artistId, name)
    ensures r.0.album[r.1].year == year && r.0.album[r.1].genre == genre
  {
    if HasAlbum(l.album, artistId, name) then
      var a := AlbumId(l.album, artistId, name);
      (l.(album := l.album[a := l.album[a].(year := year, genre := genre)]), a)
    else
      var row := AlbumRow(artistId, name, year, genre, "", 0, 0);
      (l.(album := l.album[l.nextId := row], nextId := l.nextId + 1), l.nextId)
  }

  function Rowids(song: Songs): set<nat> {
    set p | p in song :: song[p].rowid
  }

  ghost function Pick<T>(s: set<T>): (x: T)
    requires s != {}
    ensures x in s
  {
    var x :| x in s;
    x
  }

  predicate IsGreatest(m: nat, s: set<nat>) {
    m in s && forall x | x in s :: x <= m
  }

  lemma {:induction false} GreatestExists(s: set<nat>) returns (m: nat)
    requires s != {}
    ensures IsGreatest(m, s)
    decreases s
  {
    var y := Pick(s);
    m := y;
    var others := s - {y};
    assert forall x | x in s :: x == y || x in others;
    if others != {} {
      var n := GreatestExists(others);
      m := if n > y then n else y;
    }
  }

  function Greatest(s: set<nat>): (m: nat)
    requires s != {}
    ensures IsGreatest(m, s)
  {
    assert exists m :: IsGreatest(m, s) by {
      var m := GreatestExists(s);
    }
    var m :| IsGreatest(m, s) && m in s;
    m
  }

  /** The rowid of the next row: behind the largest in use, so that of a deleted last row is used again. */
  function NextRowid(song: Songs): (n: nat)
    ensures (forall x | x in Rowids(song) :: x < n) && n >= 1 && (n > 1 ==> n - 1 in Rowids(song))
  {
    if Rowids(song) == {} then 1 else 1 + Greatest(Rowids(song))
  }

  /** INSERT INTO song ... ON CONFLICT(path) DO UPDATE SET every column except id */
  function UpsertSong(l: Library, track: Track, artistId: Id, albumId: Id): Library {
    if track.path in l.song then
      var row := l.song[track.path];
      l.(song := l.song[track.path := SongRow(row.id, row.rowid, albumId, artistId, track.data)])
    else
      var row := SongRow(l.nextId, NextRowid(l.song), albumId, artistId, track.data);
      l.(song := l.song[track.path := row], nextId := l.nextId + 1)
  }

  /** One track stored with no cache: the reference the batched writer is compared with. */
  ghost function UpsertTrack(l: Library, track: Track): Library
    requires Sound(l)
  {
    var (l1, artistId) := UpsertArtist(l, track.artist);
    UpsertArtistEffect(l, track.artist);
    var (l2, albumId) := UpsertAlbum(l1, artistId, track.album, track.data.year, track.data.genre);
    UpsertSong(l2, track, artistId, albumId)
  }

  /* ---------------- effects of the statements ---------------- */

  lemma IdOfSong(song: Songs, p: string)
    ensures p in song ==> song[p].id in SongIds(song)
  {
  }

  lemma NextIdIsNew(l: Library)
    requires IdsDrawn(l)
    ensures l.nextId !in l.artist && l.nextId !in l.album && l.nextId !in SongIds(l.song)
  {
    assert l.nextId !in l.artist.Keys && l.nextId !in l.album.Keys;
  }

  lemma SongIdsGrow(song: Songs, p: string, row: SongRow)
    requires p in song ==> row.id == song[p].id
    ensures SongIds(song[p := row]) == SongIds(song) + {row.id}
  {
    var song' := song[p := row];
    forall i | i in SongIds(song) + {row.id} ensures i in SongIds(song') {
      if i == row.id {
        assert song'[p].id == i;
      } else {
        var q :| q in song && song[q].id == i;
        assert song'[q].id == i;
      }
    }
  }

  lemma NewArtist(l: Library, name: string)
    requires Sound(l) && !HasArtist(l.artist, name)
    ensures var artist' := l.artist[l.nextId := name];
      && UniqueArtists(artist') && AlbumReferences(l.album, artist') && SongReferences(l.song, l.album, artist')
      && ArtistNames(artist') == ArtistNames(l.artist) + {name}
      && AlbumKeys(l.album, artist') == AlbumKeys(l.album, l.artist)
      && Tracks(l.song, l.album, artist') == Tracks(l.song, l.album, l.artist)
  {
    var artist' := l.artist[l.nextId := name];
    NextIdIsNew(l);
    assert forall a | a in l.artist :: artist'[a] == l.artist[a];
    assert artist'[l.nextId] == name;
    assert forall a | a in l.album :: AlbumKey(l.album[a], artist') == AlbumKey(l.album[a], l.artist);
  }

  lemma UpsertArtistEffect(l: Library, name: string)
    requires Sound(l)
    ensures Sound(UpsertArtist(l, name).0)
    ensures LibraryTracks(UpsertArtist(l, name).0) == LibraryTracks(l)
    ensures ArtistNames(UpsertArtist(l, name).0.artist) == ArtistNames(l.artist) + {name}
    ensures var l' := UpsertArtist(l, name).0; AlbumKeys(l'.album, l'.artist) == AlbumKeys(l.album, l.artist)
    ensures l.artist.Keys <= UpsertArtist(l, name).0.artist.Keys
    ensures forall a | a in l.artist :: UpsertArtist(l, name).0.artist[a] == l.artist[a]
  {
    hide UniqueArtists, UniqueAlbums, UniqueSongs, AlbumReferences, SongReferences, Tracks, AlbumKeys, SongIds;
    if !HasArtist(l.artist, name) {
      NewArtist(l, name);
      NextIdIsNew(l);
    }
  }

  lemma PutAlbum(l: Library, id: Id, row: AlbumRow)
    requires Sound(l) && row.artistId in l.artist
    requires if id in l.album then IsAlbum(l.album[id], row.artistId, row.name)
             else !HasAlbum(l.album, row.artistId, row.name)
    ensures var album' := l.album[id := row];
      && UniqueAlbums(album') && AlbumReferences(album', l.artist)
      && AlbumKeys(album', l.artist) == AlbumKeys(l.album, l.artist) + {AlbumKey(row, l.artist)}
  {
    var album' := l.album[id := row];
    assert forall a | a in l.album :: AlbumKey(album'[a], l.artist) == AlbumKey(l.album[a], l.artist);
    assert AlbumKey(album'[id], l.artist) == AlbumKey(row, l.artist);
    assert id !in l.album ==> forall a | a in l.album :: !IsAlbum(l.album[a], row.artistId, row.name);
  }

  /** Replacing an album row by one with the same key, or adding one, leaves the songs as they were. */
  lemma PutAlbumKeepsSongs(l: Library, id: Id, row: AlbumRow)
    requires Sound(l) && (id in l.album ==> IsAlbum(l.album[id], row.artistId, row.name))
    ensures var album' := l.album[id := row];
      && SongReferences(l.song, album', l.artist)
      && Tracks(l.song, album', l.artist) == Tracks(l.song, l.album, l.artist)
      && (ArtistAgreement(l.song, l.album) ==> ArtistAgreement(l.song, album'))
  {
    var album' := l.album[id := row];
    assert forall p | p in l.song ::
      JoinedTrack(p, l.song[p], album', l.artist) == JoinedTrack(p, l.song[p], l.album, l.artist);
  }

  lemma UpsertAlbumEffect(l: Library, artistId: Id, name: string, year: int, genre: string)
    requires Sound(l) && artistId in l.artist
    ensures Sound(UpsertAlbum(l, artistId, name, year, genre).0)
    ensures UpsertAlbum(l, artistId, name, year, genre).0.artist == l.artist
    ensures UpsertAlbum(l, artistId, name, year, genre).0.song == l.song
    ensures LibraryTracks(UpsertAlbum(l, artistId, name, year, genre).0) == LibraryTracks(l)
    ensures AlbumKeys(UpsertAlbum(l, artistId, name, year, genre).0.album, l.artist) ==
      AlbumKeys(l.album, l.artist) + {(l.artist[artistId], name)}
    ensures ArtistAgreement(l.song, l.album) ==>
      ArtistAgreement(l.song, UpsertAlbum(l, artistId, name, year, genre).0.album)
    ensures SameAlbumKeys(l.album, UpsertAlbum(l, artistId, name, year, genre).0.album)
    ensures var (l', id) := UpsertAlbum(l, artistId, name, year, genre); KeepsAlbums(l.album, l'.album, id)
  {
    hide UniqueArtists, UniqueAlbums, UniqueSongs, AlbumReferences, SongReferences, ArtistAgreement, Tracks,
         AlbumKeys, SongIds;
    var (l', id) := UpsertAlbum(l, artistId, name, year, genre);
    NextIdIsNew(l);
    var row := l'.album[id];
    assert l'.album == l.album[id := row];
    PutAlbum(l, id, row);
    PutAlbumKeepsSongs(l, id, row);
  }

  /** Every album of the first table is in the second under the same artist and name. */
  ghost predicate SameAlbumKeys(album: Albums, album': Albums) {
    forall a | a in album :: a in album' && IsAlbum(album'[a], album[a].artistId, album[a].name)
  }

  /** Only the year and genre of one album may differ: covers and statistics stay, and so do the other albums. */
  ghost predicate KeepsAlbums(album: Albums, album': Albums, id: Id) {
    forall a | a in album ::
      && a in album'
      && album'[a] == if a == id then album[a].(year := album'[a].year, genre := album'[a].genre) else album[a]
  }

  lemma PutSongUnique(song: Songs, path: string, row: SongRow)
    requires UniqueSongs(song)
    requires if path in song then row.id == song[path].id else row.id !in SongIds(song)
    requires if path in song then row.rowid == song[path].rowid else row.rowid !in Rowids(song)
    ensures UniqueSongs(song[path := row])
  {
    assert forall p | p in song :: song[p].id in SongIds(song) && song[p].rowid in Rowids(song);
  }

  /** Writing keeps the ids and rowids of the songs there were and gives the others rowids of their own. */
  ghost predicate KeepsRowids(song: Songs, song': Songs) {
    && song.Keys <= song'.Keys
    && (forall p | p in song :: song'[p].rowid == song[p].rowid && song'[p].id == song[p].id)
    && (forall p | p in song' && p !in song :: song'[p].rowid !in Rowids(song))
  }

  /** Writing keeps the cover and the statistics of the albums there were, and gives the others none. */
  ghost predicate KeepsColumns(album: Albums, album': Albums) {
    && album.Keys <= album'.Keys
    && (forall a | a in album' ::
          (album'[a].coverArt, album'[a].songCount, album'[a].duration) ==
          if a in album then (album[a].coverArt, album[a].songCount, album[a].duration) else ("", 0, 0))
  }

  ghost predicate KeepsRows(l: Library, l': Library) {
    KeepsRowids(l.song, l'.song) && KeepsColumns(l.album, l'.album)
  }

  lemma KeepsRowsMore(a: Library, b: Library, c: Library)
    requires KeepsRows(a, b) && KeepsRows(b, c)
    ensures KeepsRows(a, c)
  {
    assert forall p | p in a.song :: b.song[p].rowid in Rowids(b.song);
  }

  lemma UpsertSongKeepsRows(l: Library, track: Track, artistId: Id, albumId: Id)
    ensures KeepsRows(l, UpsertSong(l, track, artistId, albumId))
  {
  }

  lemma UpsertAlbumKeepsRows(l: Library, artistId: Id, name: string, year: int, genre: string)
    requires Sound(l)
    ensures KeepsRows(l, UpsertAlbum(l, artistId, name, year, genre).0)
  {
    hide UniqueSongs, ForeignKeys, Rowids, SongIds;
    NextIdIsNew(l);
  }

  lemma SameRows(l: Library, l': Library)
    requires l'.song == l.song && l'.album == l.album
    ensures KeepsRows(l, l')
  {
  }

  lemma PutSongTracks(l: Library, path: string, row: SongRow)
    requires SongReferences(l.song, l.album, l.artist) && row.albumId in l.album && row.artistId in l.artist
    ensures var song' := l.song[path := row];
      && SongReferences(song', l.album, l.artist)
      && Tracks(song', l.album, l.artist) ==
         Tracks(l.song, l.album, l.artist)[path := JoinedTrack(path, row, l.album, l.artist)]
  {
  }

  lemma PutSongAgreement(song: Songs, album: Albums, path: string, row: SongRow)
    requires ArtistAgreement(song, album) && row.albumId in album && album[row.albumId].artistId == row.artistId
    ensures ArtistAgreement(song[path := row], album)
  {
  }

  lemma UpsertSongEffect(l: Library, track: Track, artistId: Id, albumId: Id)
    requires Sound(l) && artistId in l.artist && albumId in l.album
    ensures var l' := UpsertSong(l, track, artistId, albumId); Sound(l') && track.path in l'.song
    ensures var l' := UpsertSong(l, track, artistId, albumId);
      var stored := Track(track.path, l.artist[artistId], l.album[albumId].name, track.data);
      LibraryTracks(l') == LibraryTracks(l)[track.path := stored]
    ensures var l' := UpsertSong(l, track, artistId, albumId);
      ArtistAgreement(l.song, l.album) && l.album[albumId].artistId == artistId ==> ArtistAgreement(l'.song, l'.album)
  {
    hide UniqueArtists, UniqueAlbums, UniqueSongs, AlbumReferences, SongReferences, ArtistAgreement, Tracks,
         AlbumKeys, SongIds, Rowids;
    var l' := UpsertSong(l, track, artistId, albumId);
    var row := l'.song[track.path];
    NextIdIsNew(l);
    IdOfSong(l.song, track.path);
    assert l'.song == l.song[track.path := row];
    SongIdsGrow(l.song, track.path, row);
    PutSongUnique(l.song, track.path, row);
    PutSongTracks(l, track.path, row);
    if ArtistAgreement(l.song, l.album) && l.album[albumId].artistId == artistId {
      PutSongAgreement(l.song, l.album, track.path, row);
    }
  }

  /** Storing a track sets exactly its own entry of the joined song table and adds its artist and album keys. */
  lemma UpsertTrackEffect(l: Library, track: Track)
    requires Inv(l)
    ensures Inv(UpsertTrack(l, track))
    ensures LibraryTracks(UpsertTrack(l, track)) == LibraryTracks(l)[track.path := track]
    ensures ArtistNames(UpsertTrack(l, track).artist) == ArtistNames(l.artist) + {track.artist}
    ensures var l' := UpsertTrack(l, track);
      AlbumKeys(l'.album, l'.artist) == AlbumKeys(l.album, l.artist) + {(track.artist, track.album)}
  {
    hide UniqueArtists, UniqueAlbums, UniqueSongs, AlbumReferences, SongReferences, ArtistAgreement, Tracks,
         AlbumKeys, SongIds, IdsDrawn, SameAlbumKeys;
    var (l1, artistId) := UpsertArtist(l, track.artist);
    UpsertArtistEffect(l, track.artist);
    var (l2, albumId) := UpsertAlbum(l1, artistId, track.album, track.data.year, track.data.genre);
    UpsertAlbumEffect(l1, artistId, track.album, track.data.year, track.data.genre);
    UpsertSongEffect(l2, track, artistId, albumId);
  }
}
