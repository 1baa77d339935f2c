/** The writer's batch loop with its two id caches, as a fold over the tracks. */
module Batch {
  import opened Catalog

  /** The key of the album cache. */
  function CacheKey(t: Track): string {
    t.artist + "\0" + t.album
  }

  datatype Cache = Cache(artistIds: map<string, Id>, albumIds: map<string, Id>)

  /** Cached ids name rows of the library. */
  ghost predicate Fits(c: Cache, l: Library) {
    && (forall n | n in c.artistIds :: c.artistIds[n] in l.artist && l.artist[c.artistIds[n]] == n)
    && (forall k | k in c.albumIds :: c.albumIds[k] in l.album)
  }

  function CachedArtist(l: Library, c: Cache, t: Track): (Library, Id)
    requires Sound(l) && Fits(c, l)
  {
    if t.artist in c.artistIds then (l, c.artistIds[t.artist]) else UpsertArtist(l, t.artist)
  }

  function CachedAlbum(l: Library, c: Cache, artistId: Id, t: Track): (Library, Id)
    requires Sound(l)
  {
    if CacheKey(t) in c.albumIds then (l, c.albumIds[CacheKey(t)])
    else UpsertAlbum(l, artistId, t.album, t.data.year, t.data.genre)
  }

  lemma CachedArtistEffect(l: Library, c: Cache, t: Track)
    requires Sound(l) && Fits(c, l)
    ensures var (l1, artistId) := CachedArtist(l, c, t);
      && Sound(l1) && Fits(c, l1) && l1.album == l.album && l1.song == l.song
      && artistId in l1.artist && l1.artist[artistId] == t.artist
      && l.artist.Keys <= l1.artist.Keys && (forall a | a in l.artist :: l1.artist[a] == l.artist[a])
  {
    UpsertArtistEffect(l, t.artist);
  }

  lemma CachedAlbumEffect(l: Library, c: Cache, artistId: Id, t: Track)
    requires Sound(l) && Fits(c, l) && artistId in l.artist
    ensures var (l1, albumId) := CachedAlbum(l, c, artistId, t);
      && Sound(l1) && Fits(c, l1) && l1.artist == l.artist && l1.song == l.song
      && albumId in l1.album && SameAlbumKeys(l.album, l1.album)
  {
    hide UniqueArtists, UniqueAlbums, UniqueSongs, AlbumReferences, SongReferences, ArtistAgreement, Tracks,
         AlbumKeys, SongIds;
    UpsertAlbumEffect(l, artistId, t.album, t.data.year, t.data.genre);
  }

  /** One turn of the loop. */
  function BatchTrack(l: Library, c: Cache, t: Track): (r: (Library, Cache))
    requires Sound(l) && Fits(c, l)
    ensures Sound(r.0) && Fits(r.1, r.0)
  {
    hide Sound, Inv;
    var (l1, artistId) := CachedArtist(l, c, t);
    CachedArtistEffect(l, c, t);
    var (l2, albumId) := CachedAlbum(l1, c, artistId, t);
    CachedAlbumEffect(l1, c, artistId, t);
    UpsertSongEffect(l2, t, artistId, albumId);
    (UpsertSong(l2, t, artistId, albumId), Cache(c.artistIds[t.artist := artistId], c.albumIds[CacheKey(t) := albumId]))
  }

  /** The whole loop over a batch. */
  ghost function BatchAll(l: Library, tracks: seq<Track>): (r: (Library, Cache))
    requires Sound(l)
    ensures Sound(r.0) && Fits(r.1, r.0)
  {
    if tracks == [] then (l, Cache(map[], map[]))
    else
      var (l1, c1) := BatchAll(l, tracks[..|tracks| - 1]);
      BatchTrack(l1, c1, tracks[|tracks| - 1])
  }

  /* ---------------- the uncached reference ---------------- */

  /** The same tracks stored one by one with no cache. */
  ghost function UpsertAll(l: Library, tracks: seq<Track>): (r: Library)
    requires Inv(l)
    ensures Inv(r)
  {
    if tracks == [] then l
    else
      var l1 := UpsertAll(l, tracks[..|tracks| - 1]);
      UpsertTrackEffect(l1, tracks[|tracks| - 1]);
      UpsertTrack(l1, tracks[|tracks| - 1])
  }

  ghost predicate SameRow(r: AlbumRow, q: AlbumRow) {
    r == q.(year := r.year, genre := r.genre)
  }

  /** Equal libraries, ids included, except for album years and genres. */
  ghost predicate SameAlbums(album: Albums, album': Albums) {
    album.Keys == album'.Keys && forall a | a in album :: SameRow(album[a], album'[a])
  }

  ghost predicate SameButYears(l: Library, u: Library) {
    l.artist == u.artist && l.song == u.song && l.nextId == u.nextId && SameAlbums(l.album, u.album)
  }

  ghost predicate Filed(l: Library, id: Id, artist: string, album: string) {
    id in l.album && l.album[id].artistId in l.artist && AlbumKey(l.album[id], l.artist) == (artist, album)
  }

  lemma SameHasAlbum(album: Albums, album': Albums, artistId: Id, name: string)
    requires UniqueAlbums(album) && UniqueAlbums(album') && SameAlbums(album, album')
    ensures HasAlbum(album, artistId, name) == HasAlbum(album', artistId, name)
    ensures HasAlbum(album, artistId, name) ==> AlbumId(album, artistId, name) == AlbumId(album', artistId, name)
  {
    if HasAlbum(album, artistId, name) {
      var a := AlbumId(album, artistId, name);
      assert IsAlbum(album'[a], artistId, name);
    }
    if HasAlbum(album', artistId, name) {
      var a := AlbumId(album', artistId, name);
      assert IsAlbum(album[a], artistId, name);
    }
  }

  lemma SameAfterAlbum(l: Library, u: Library, c: Cache, artistId: Id, t: Track)
    requires Sound(l) && Sound(u) && SameButYears(l, u) && artistId in l.artist
    requires CacheKey(t) in c.albumIds ==>
      c.albumIds[CacheKey(t)] in l.album && IsAlbum(l.album[c.albumIds[CacheKey(t)]], artistId, t.album)
    ensures CachedAlbum(l, c, artistId, t).1 == UpsertAlbum(u, artistId, t.album, t.data.year, t.data.genre).1
    ensures SameButYears(CachedAlbum(l, c, artistId, t).0,
                         UpsertAlbum(u, artistId, t.album, t.data.year, t.data.genre).0)
  {
    SameHasAlbum(l.album, u.album, artistId, t.album);
    NextIdIsNew(l);
  }

  lemma SameAfterArtist(l: Library, u: Library, c: Cache, t: Track)
    requires Sound(l) && Sound(u) && Fits(c, l) && SameButYears(l, u)
    ensures CachedArtist(l, c, t).1 == UpsertArtist(u, t.artist).1
    ensures SameButYears(CachedArtist(l, c, t).0, UpsertArtist(u, t.artist).0)
  {
    if t.artist in c.artistIds {
      assert l.artist[c.artistIds[t.artist]] == t.artist;
    }
  }

  lemma SameAfterTrack(l: Library, u: Library, c: Cache, t: Track)
    requires Sound(l) && Sound(u) && Fits(c, l) && SameButYears(l, u)
    requires CacheKey(t) in c.albumIds ==> Filed(l, c.albumIds[CacheKey(t)], t.artist, t.album)
    ensures SameButYears(BatchTrack(l, c, t).0, UpsertTrack(u, t))
  {
    hide UniqueArtists, UniqueAlbums, UniqueSongs, AlbumReferences, SongReferences, Tracks, AlbumKeys, SongIds,
         IdsDrawn, SameAlbums, HasArtist;
    var (l1, artistId) := CachedArtist(l, c, t);
    var (u1, uArtistId) := UpsertArtist(u, t.artist);
    SameAfterArtist(l, u, c, t);
    CachedArtistEffect(l, c, t);
    UpsertArtistEffect(u, t.artist);
    if CacheKey(t) in c.albumIds {
      OneArtist(l1, l1.album[c.albumIds[CacheKey(t)]].artistId, artistId);
    }
    SameAfterAlbum(l1, u1, c, artistId, t);
  }

  lemma OneArtist(l: Library, a: Id, b: Id)
    requires Sound(l) && a in l.artist && b in l.artist && l.artist[a] == l.artist[b]
    ensures a == b
  {
  }

  /* ---------------- what a batch leaves behind ---------------- */

  /** Track i is the first of the batch with its cache key. */
  ghost predicate FirstOfKey(tracks: seq<Track>, i: nat)
    requires i < |tracks|
  {
    forall j | 0 <= j < i :: CacheKey(tracks[j]) != CacheKey(tracks[i])
  }

  /** The album a batch files a cache key under: artist, name, year and genre of the key's first track. */
  ghost predicate FiledAs(l: Library, id: Id, t: Track) {
    Filed(l, id, t.artist, t.album) && l.album[id].year == t.data.year && l.album[id].genre == t.data.genre
  }

  ghost predicate KeyExplained(l: Library, tracks: seq<Track>, k: string, id: Id) {
    exists i | 0 <= i < |tracks| :: CacheKey(tracks[i]) == k && FirstOfKey(tracks, i) && FiledAs(l, id, tracks[i])
  }

  ghost predicate KeysExplained(l: Library, c: Cache, tracks: seq<Track>) {
    && (forall i | 0 <= i < |tracks| :: CacheKey(tracks[i]) in c.albumIds)
    && (forall k | k in c.albumIds :: KeyExplained(l, tracks, k, c.albumIds[k]))
  }

  /** A key that is already cached keeps its album through the next track. */
  lemma KeepsFiled(l: Library, c: Cache, t: Track, k: string, first: Track)
    requires Sound(l) && Fits(c, l) && k in c.albumIds && FiledAs(l, c.albumIds[k], first) && CacheKey(first) == k
    ensures var (l', c') := BatchTrack(l, c, t);
      k in c'.albumIds && c'.albumIds[k] == c.albumIds[k] && FiledAs(l', c.albumIds[k], first)
  {
    hide UniqueArtists, UniqueAlbums, UniqueSongs, AlbumReferences, SongReferences, Tracks, AlbumKeys, SongIds,
         IdsDrawn, HasArtist;
    var (l1, artistId) := CachedArtist(l, c, t);
    CachedArtistEffect(l, c, t);
    var (l2, albumId) := CachedAlbum(l1, c, artistId, t);
    CachedAlbumEffect(l1, c, artistId, t);
    NextIdIsNew(l1);
  }

  lemma NewKeyFiled(l: Library, c: Cache, t: Track)
    requires Sound(l) && Fits(c, l) && CacheKey(t) !in c.albumIds
    ensures var (l', c') := BatchTrack(l, c, t);
      CacheKey(t) in c'.albumIds && FiledAs(l', c'.albumIds[CacheKey(t)], t)
  {
    hide UniqueArtists, UniqueAlbums, UniqueSongs, AlbumReferences, SongReferences, Tracks, AlbumKeys, SongIds,
         IdsDrawn, HasArtist;
    CachedArtistEffect(l, c, t);
  }

  lemma KeysGrow(l: Library, c: Cache, t: Track)
    requires Sound(l) && Fits(c, l)
    ensures BatchTrack(l, c, t).1.albumIds.Keys == c.albumIds.Keys + {CacheKey(t)}
  {
  }

  lemma StepExplained(l: Library, c: Cache, before: seq<Track>, t: Track, k: string)
    requires Sound(l) && Fits(c, l) && KeysExplained(l, c, before)
    requires k in BatchTrack(l, c, t).1.albumIds
    ensures KeyExplained(BatchTrack(l, c, t).0, before + [t], k, BatchTrack(l, c, t).1.albumIds[k])
  {
    hide Sound, BatchTrack, Filed, Fits;
    KeysGrow(l, c, t);
    var tracks := before + [t];
    if k in c.albumIds {
      var i :| 0 <= i < |before| && CacheKey(before[i]) == k && FirstOfKey(before, i) &&
        FiledAs(l, c.albumIds[k], before[i]);
      KeepsFiled(l, c, t, k, before[i]);
      assert tracks[i] == before[i] && FirstOfKey(tracks, i);
    } else {
      NewKeyFiled(l, c, t);
      assert tracks[|before|] == t && FirstOfKey(tracks, |before|);
    }
  }

  lemma StepKeysExplained(l: Library, c: Cache, before: seq<Track>, t: Track)
    requires Sound(l) && Fits(c, l) && KeysExplained(l, c, before)
    ensures KeysExplained(BatchTrack(l, c, t).0, BatchTrack(l, c, t).1, before + [t])
  {
    hide Sound, BatchTrack, Filed, Fits, KeyExplained;
    KeysGrow(l, c, t);
    var (l', c') := BatchTrack(l, c, t);
    forall k | k in c'.albumIds ensures KeyExplained(l', before + [t], k, c'.albumIds[k]) {
      StepExplained(l, c, before, t, k);
    }
  }

  lemma BatchSnoc(l: Library, before: seq<Track>, t: Track)
    requires Sound(l)
    ensures BatchAll(l, before + [t]) == BatchTrack(BatchAll(l, before).0, BatchAll(l, before).1, t)
  {
    assert (before + [t])[..|before|] == before;
  }

  lemma BatchEmpty(l: Library)
    requires Sound(l)
    ensures BatchAll(l, []) == (l, Cache(map[], map[]))
  {
  }

  lemma UpsertSnoc(l: Library, before: seq<Track>, t: Track)
    requires Inv(l)
    ensures UpsertAll(l, before + [t]) == UpsertTrack(UpsertAll(l, before), t)
  {
    assert (before + [t])[..|before|] == before;
  }

  /** After any batch, every cached key names the album of the first track that had it, with that track's year and
      genre. */
  lemma {:induction false} BatchExplained(l: Library, tracks: seq<Track>)
    requires Sound(l)
    ensures KeysExplained(BatchAll(l, tracks).0, BatchAll(l, tracks).1, tracks)
  {
    if tracks != [] {
      hide Sound, BatchTrack, KeysExplained;
      var before, t := tracks[..|tracks| - 1], tracks[|tracks| - 1];
      assert tracks == before + [t];
      BatchExplained(l, before);
      BatchSnoc(l, before, t);
      StepKeysExplained(BatchAll(l, before).0, BatchAll(l, before).1, before, t);
    }
  }

  /** No two tracks of the batch share a cache key without sharing artist and album. */
  ghost predicate Faithful(tracks: seq<Track>) {
    forall i, j | 0 <= i < |tracks| && 0 <= j < |tracks| && CacheKey(tracks[i]) == CacheKey(tracks[j]) ::
      tracks[i].artist == tracks[j].artist && tracks[i].album == tracks[j].album
  }

  lemma ExplainedFiled(l: Library, c: Cache, before: seq<Track>, t: Track)
    requires KeysExplained(l, c, before) && Faithful(before + [t])
    ensures CacheKey(t) in c.albumIds ==> Filed(l, c.albumIds[CacheKey(t)], t.artist, t.album)
  {
    var k, tracks := CacheKey(t), before + [t];
    if k in c.albumIds {
      var i :| 0 <= i < |before| && CacheKey(before[i]) == k && FirstOfKey(before, i) &&
        FiledAs(l, c.albumIds[k], before[i]);
      assert tracks[i] == before[i] && tracks[|before|] == t;
    }
  }

  lemma FaithfulPrefix(before: seq<Track>, t: Track)
    requires Faithful(before + [t])
    ensures Faithful(before)
  {
    var tracks := before + [t];
    assert forall i | 0 <= i < |before| :: before[i] == tracks[i];
  }

  /** The caches are invisible: same rows, same ids as storing the tracks one by one, years and genres of albums
      aside. */
  lemma {:induction false} BatchMatchesUncached(l: Library, tracks: seq<Track>)
    requires Inv(l) && Faithful(tracks)
    ensures SameButYears(BatchAll(l, tracks).0, UpsertAll(l, tracks))
  {
    if tracks != [] {
      hide Sound, BatchTrack, KeysExplained, SameButYears, Faithful;
      var before, t := tracks[..|tracks| - 1], tracks[|tracks| - 1];
      assert tracks == before + [t];
      FaithfulPrefix(before, t);
      BatchMatchesUncached(l, before);
      BatchExplained(l, before);
      BatchSnoc(l, before, t);
      UpsertSnoc(l, before, t);
      ExplainedFiled(BatchAll(l, before).0, BatchAll(l, before).1, before, t);
      SameAfterTrack(BatchAll(l, before).0, UpsertAll(l, before), BatchAll(l, before).1, t);
    }
  }

  /* ---------------- exactly when the caches are faithful ---------------- */

  /** The song row of a track: its data, its own artist, and the album its cache key stands for. */
  ghost predicate StoredAs(l: Library, c: Cache, t: Track) {
    && t.path in l.song && l.song[t.path].data == t.data
    && l.song[t.path].artistId in l.artist && l.artist[l.song[t.path].artistId] == t.artist
    && CacheKey(t) in c.albumIds && l.song[t.path].albumId == c.albumIds[CacheKey(t)]
  }

  lemma NewSongStored(l: Library, c: Cache, t: Track)
    requires Sound(l) && Fits(c, l)
    ensures StoredAs(BatchTrack(l, c, t).0, BatchTrack(l, c, t).1, t)
  {
    hide UniqueArtists, UniqueAlbums, UniqueSongs, AlbumReferences, SongReferences, Tracks, AlbumKeys, SongIds,
         IdsDrawn, HasArtist;
    CachedArtistEffect(l, c, t);
    CachedAlbumEffect(CachedArtist(l, c, t).0, c, CachedArtist(l, c, t).1, t);
  }

  lemma KeepsStored(l: Library, c: Cache, t: Track, s: Track)
    requires Sound(l) && Fits(c, l) && StoredAs(l, c, s) && s.path != t.path
    ensures StoredAs(BatchTrack(l, c, t).0, BatchTrack(l, c, t).1, s)
  {
    hide UniqueArtists, UniqueAlbums, UniqueSongs, AlbumReferences, SongReferences, Tracks, AlbumKeys, SongIds,
         IdsDrawn, HasArtist;
    CachedArtistEffect(l, c, t);
    CachedAlbumEffect(CachedArtist(l, c, t).0, c, CachedArtist(l, c, t).1, t);
  }

  /** The walker visits a path once. */
  ghost predicate DistinctPaths(tracks: seq<Track>) {
    forall i, j | 0 <= i < j < |tracks| :: tracks[i].path != tracks[j].path
  }

  lemma {:induction false} BatchStored(l: Library, tracks: seq<Track>)
    requires Sound(l) && DistinctPaths(tracks)
    ensures forall i | 0 <= i < |tracks| :: StoredAs(BatchAll(l, tracks).0, BatchAll(l, tracks).1, tracks[i])
  {
    if tracks != [] {
      hide Sound, BatchTrack, StoredAs, Fits;
      var before, t := tracks[..|tracks| - 1], tracks[|tracks| - 1];
      assert tracks == before + [t];
      BatchStored(l, before);
      BatchSnoc(l, before, t);
      var (l1, c1) := BatchAll(l, before);
      forall i | 0 <= i < |tracks| ensures StoredAs(BatchAll(l, tracks).0, BatchAll(l, tracks).1, tracks[i]) {
        if i < |before| {
          assert tracks[i] == before[i];
          KeepsStored(l1, c1, t, before[i]);
        } else {
          NewSongStored(l1, c1, t);
        }
      }
    }
  }

  lemma KeySplit(s: Track, t: Track)
    requires CacheKey(s) == CacheKey(t)
    ensures s.artist == t.artist <==> s.album == t.album
    ensures |s.artist| < |t.artist| ==> !NulFree(t.artist)
  {
    var n, m := |s.artist|, |t.artist|;
    assert CacheKey(s)[..n] == s.artist && CacheKey(s)[n + 1..] == s.album && CacheKey(s)[n] == '\0';
    assert CacheKey(t)[..m] == t.artist && CacheKey(t)[m + 1..] == t.album;
    if n < m {
      assert t.artist[n] == CacheKey(t)[n];
    }
  }

  /** Some track whose cache key belongs to another artist and album exists as soon as two tracks collide. */
  lemma CollisionWitness(l: Library, c: Cache, tracks: seq<Track>) returns (m: nat)
    requires KeysExplained(l, c, tracks) && !Faithful(tracks)
    ensures m < |tracks| && CacheKey(tracks[m]) in c.albumIds
    ensures !Filed(l, c.albumIds[CacheKey(tracks[m])], tracks[m].artist, tracks[m].album)
  {
    var i, j :| 0 <= i < |tracks| && 0 <= j < |tracks| && CacheKey(tracks[i]) == CacheKey(tracks[j])
      && !(tracks[i].artist == tracks[j].artist && tracks[i].album == tracks[j].album);
    m := if Filed(l, c.albumIds[CacheKey(tracks[i])], tracks[i].artist, tracks[i].album) then j else i;
  }

  /** A batch keeps every song under its album's artist if and only if its cache keys do not collide. */
  lemma BatchKeepsAgreementIff(l: Library, tracks: seq<Track>)
    requires Inv(l) && DistinctPaths(tracks)
    ensures Inv(BatchAll(l, tracks).0) <==> Faithful(tracks)
  {
    var (l', c') := BatchAll(l, tracks);
    BatchExplained(l, tracks);
    hide Sound, UniqueArtists, UniqueAlbums, UniqueSongs, AlbumReferences, SongReferences, IdsDrawn, BatchAll;
    if Faithful(tracks) {
      BatchMatchesUncached(l, tracks);
      SameAgreement(l', UpsertAll(l, tracks));
    } else {
      BatchStored(l, tracks);
      var m := CollisionWitness(l', c', tracks);
      var t := tracks[m];
      assert StoredAs(l', c', t);
      var k :| 0 <= k < |tracks| && CacheKey(tracks[k]) == CacheKey(t) && FirstOfKey(tracks, k) &&
        FiledAs(l', c'.albumIds[CacheKey(t)], tracks[k]);
      KeySplit(tracks[k], t);
      assert l'.album[l'.song[t.path].albumId].artistId != l'.song[t.path].artistId;
    }
  }

  lemma SameAgreement(l: Library, u: Library)
    requires SameButYears(l, u) && ArtistAgreement(u.song, u.album)
    ensures ArtistAgreement(l.song, l.album)
  {
  }

  predicate NulFree(s: string) {
    forall i | 0 <= i < |s| :: s[i] != '\0'
  }

  /** Artist names without NUL never collide, whatever the album names. */
  lemma NulFreeIsFaithful(tracks: seq<Track>)
    requires forall i | 0 <= i < |tracks| :: NulFree(tracks[i].artist)
    ensures Faithful(tracks)
  {
    forall i, j | 0 <= i < |tracks| && 0 <= j < |tracks| && CacheKey(tracks[i]) == CacheKey(tracks[j])
      ensures tracks[i].artist == tracks[j].artist && tracks[i].album == tracks[j].album
    {
      KeySplit(tracks[i], tracks[j]);
      KeySplit(tracks[j], tracks[i]);
      assert tracks[i].artist == CacheKey(tracks[i])[..|tracks[i].artist|];
      assert tracks[j].artist == CacheKey(tracks[j])[..|tracks[j].artist|];
    }
  }

  lemma BatchKeepsSongIds(l: Library, tracks: seq<Track>)
    requires Sound(l)
    ensures SongIds(l.song) <= SongIds(BatchAll(l, tracks).0.song)
  {
    if tracks != [] {
      var before, t := tracks[..|tracks| - 1], tracks[|tracks| - 1];
      BatchKeepsSongIds(l, before);
      TrackKeepsSongIds(BatchAll(l, before).0, BatchAll(l, before).1, t);
    }
  }

  lemma TrackKeepsSongIds(l: Library, c: Cache, t: Track)
    requires Sound(l) && Fits(c, l)
    ensures SongIds(l.song) <= SongIds(BatchTrack(l, c, t).0.song)
  {
    hide UniqueArtists, UniqueAlbums, UniqueSongs, AlbumReferences, SongReferences, IdsDrawn, HasArtist, HasAlbum,
         SongIds;
    CachedArtistEffect(l, c, t);
    CachedAlbumEffect(CachedArtist(l, c, t).0, c, CachedArtist(l, c, t).1, t);
    var l' := BatchTrack(l, c, t).0;
    assert l'.song == l.song[t.path := l'.song[t.path]];
    SongIdsGrow(l.song, t.path, l'.song[t.path]);
  }

  /** A batch keeps ids and rowids of the songs and covers and statistics of the albums there were, and gives new rows
      rowids of their own, no cover and no statistics. */
  lemma {:induction false} BatchKeepsRows(l: Library, tracks: seq<Track>)
    requires Sound(l)
    ensures KeepsRows(l, BatchAll(l, tracks).0)
  {
    hide Sound, KeepsRows;
    if tracks == [] {
      SameRows(l, l);
    } else {
      var before, t := tracks[..|tracks| - 1], tracks[|tracks| - 1];
      var (l1, c1) := BatchAll(l, before);
      BatchKeepsRows(l, before);
      TrackKeepsRows(l1, c1, t);
      KeepsRowsMore(l, l1, BatchAll(l, tracks).0);
    }
  }

  lemma TrackKeepsRows(l: Library, c: Cache, t: Track)
    requires Sound(l) && Fits(c, l)
    ensures KeepsRows(l, BatchTrack(l, c, t).0)
  {
    hide Sound, Fits, KeepsRows, UpsertSong, UpsertAlbum, UpsertArtist, CachedArtist;
    var (l1, artistId) := CachedArtist(l, c, t);
    CachedArtistEffect(l, c, t);
    SameRows(l, l1);
    var (l2, albumId) := CachedAlbum(l1, c, artistId, t);
    CachedAlbumEffect(l1, c, artistId, t);
    SameRows(l1, l1);
    UpsertAlbumKeepsRows(l1, artistId, t.album, t.data.year, t.data.genre);
    UpsertSongKeepsRows(l2, t, artistId, albumId);
    KeepsRowsMore(l, l1, l2);
    KeepsRowsMore(l, l2, UpsertSong(l2, t, artistId, albumId));
  }
}
