/** The concurrent, batched, cached scan stores the same library as a sequential one. */
module Concurrent {
  import opened Catalog
  import opened Batch
  import P = Pipeline

  /** The tracks of a sequence of readable files. */
  function TracksOf(readable: map<string, Track>, paths: seq<string>): seq<Track>
    requires forall p | p in paths :: p in readable
  {
    seq(|paths|, i requires 0 <= i < |paths| => assert paths[i] in paths; readable[paths[i]])
  }

  /** What the walk sends to the workers and they can read, in walk order. */
  function Readable(readable: map<string, Track>, paths: seq<string>): (r: seq<string>)
    ensures forall p | p in r :: p in readable
  {
    if paths == [] then []
    else
      var p := paths[|paths| - 1];
      Readable(readable, paths[..|paths| - 1]) + if p in readable then [p] else []
  }

  /** The writer's transactions one after the other. */
  ghost function WriteBatches(l: Library, readable: map<string, Track>, batches: seq<seq<string>>): (r: Library)
    requires Sound(l) && forall p | p in P.Flatten(batches) :: p in readable
    ensures Sound(r)
  {
    if batches == [] then l
    else
      BatchesSplit(batches);
      var l1 := WriteBatches(l, readable, batches[..|batches| - 1]);
      BatchAll(l1, TracksOf(readable, batches[|batches| - 1])).0
  }

  lemma BatchesSplit(batches: seq<seq<string>>)
    requires batches != []
    ensures P.Flatten(batches) == P.Flatten(batches[..|batches| - 1]) + batches[|batches| - 1]
  {
  }

  lemma {:induction false} WritesKeepRows(l: Library, readable: map<string, Track>, batches: seq<seq<string>>)
    requires Sound(l) && forall p | p in P.Flatten(batches) :: p in readable
    ensures KeepsRows(l, WriteBatches(l, readable, batches))
  {
    hide Sound, KeepsRows, BatchAll;
    if batches == [] {
      SameRows(l, l);
    } else {
      var before, b := batches[..|batches| - 1], batches[|batches| - 1];
      BatchesSplit(batches);
      WritesKeepRows(l, readable, before);
      var l1 := WriteBatches(l, readable, before);
      BatchKeepsRows(l1, TracksOf(readable, b));
      KeepsRowsMore(l, l1, WriteBatches(l, readable, batches));
    }
  }

  /** Reading a file yields a track with that file's path. */
  ghost predicate PathsKept(readable: map<string, Track>) {
    forall p | p in readable :: readable[p].path == p
  }

  /** No two of these files share an album cache key without sharing artist and album. */
  ghost predicate FaithfulFiles(readable: map<string, Track>, paths: set<string>) {
    forall p, q | p in paths && q in paths && p in readable && q in readable &&
      CacheKey(readable[p]) == CacheKey(readable[q]) ::
      readable[p].artist == readable[q].artist && readable[p].album == readable[q].album
  }

  ghost function Picked(readable: map<string, Track>, paths: set<string>): map<string, Track> {
    map p | p in paths && p in readable :: readable[p]
  }

  ghost function ArtistsOf(tracks: map<string, Track>): set<string> {
    set p | p in tracks :: tracks[p].artist
  }

  ghost function KeyOf(t: Track): (string, string) {
    (t.artist, t.album)
  }

  ghost function KeysOf(tracks: map<string, Track>): set<(string, string)> {
    set p | p in tracks :: KeyOf(tracks[p])
  }

  /** The library l' is l with exactly these tracks stored over it. */
  ghost predicate Stores(l: Library, l': Library, tracks: map<string, Track>) {
    && Inv(l) && Inv(l')
    && LibraryTracks(l') == LibraryTracks(l) + tracks
    && ArtistNames(l'.artist) == ArtistNames(l.artist) + ArtistsOf(tracks)
    && AlbumKeys(l'.album, l'.artist) == AlbumKeys(l.album, l.artist) + KeysOf(tracks)
  }

  lemma StoresNothing(l: Library)
    requires Inv(l)
    ensures Stores(l, l, map[])
  {
  }

  lemma StoresMore(l: Library, l1: Library, l2: Library, a: map<string, Track>, b: map<string, Track>)
    requires Stores(l, l1, a) && Stores(l1, l2, b) && (forall p | p in a && p in b :: a[p] == b[p])
    ensures Stores(l, l2, a + b)
  {
    hide UniqueKeys, IdsDrawn, ArtistAgreement, AlbumReferences, SongReferences, Tracks, ArtistNames, AlbumKeys,
         ArtistsOf, KeysOf;
    Unions(a, b);
    Overlays(LibraryTracks(l), a, b);
  }

  lemma Overlays(m: map<string, Track>, a: map<string, Track>, b: map<string, Track>)
    ensures m + a + b == m + (a + b)
  {
  }

  lemma Unions(a: map<string, Track>, b: map<string, Track>)
    requires forall p | p in a && p in b :: a[p] == b[p]
    ensures ArtistsOf(a + b) == ArtistsOf(a) + ArtistsOf(b)
    ensures KeysOf(a + b) == KeysOf(a) + KeysOf(b)
  {
    assert forall p | p in a :: (a + b)[p] == a[p];
    assert forall p | p in b :: (a + b)[p] == b[p];
  }

  lemma StoresOne(l: Library, t: Track)
    requires Inv(l)
    ensures Stores(l, UpsertTrack(l, t), map[t.path := t])
  {
    hide UniqueKeys, AlbumReferences, SongReferences, ArtistAgreement, IdsDrawn, Tracks, ArtistNames, AlbumKeys,
         UpsertTrack, ArtistsOf, KeysOf;
    UpsertTrackEffect(l, t);
    OneTrack(t, LibraryTracks(l));
  }

  lemma OneTrack(t: Track, m: map<string, Track>)
    ensures ArtistsOf(map[t.path := t]) == {t.artist} && KeysOf(map[t.path := t]) == {(t.artist, t.album)}
    ensures m[t.path := t] == m + map[t.path := t]
  {
    var one := map[t.path := t];
    assert one[t.path] == t;
  }

  /** Storing files one by one, in any order and however often, stores exactly their set. */
  lemma {:induction false} UpsertAllStores(l: Library, readable: map<string, Track>, paths: seq<string>)
    requires Inv(l) && PathsKept(readable) && forall p | p in paths :: p in readable
    ensures Stores(l, UpsertAll(l, TracksOf(readable, paths)), Picked(readable, SetOf(paths)))
  {
    hide Inv, Stores, UpsertTrack;
    if paths == [] {
      StoresNothing(l);
    } else {
      var before, p := paths[..|paths| - 1], paths[|paths| - 1];
      UpsertAllStores(l, readable, before);
      assert p in paths;
      assert TracksOf(readable, paths) == TracksOf(readable, before) + [readable[p]];
      UpsertSnoc(l, TracksOf(readable, before), readable[p]);
      StoresOne(UpsertAll(l, TracksOf(readable, before)), readable[p]);
      StoresMore(l, UpsertAll(l, TracksOf(readable, before)), UpsertAll(l, TracksOf(readable, paths)),
                 Picked(readable, SetOf(before)), map[p := readable[p]]);
      PickedMore(readable, before, p);
      assert before + [p] == paths;
    }
  }

  lemma PickedMore(readable: map<string, Track>, before: seq<string>, p: string)
    requires p in readable
    ensures Picked(readable, SetOf(before + [p])) == Picked(readable, SetOf(before)) + map[p := readable[p]]
  {
  }

  lemma FaithfulTracks(readable: map<string, Track>, paths: seq<string>, all: set<string>)
    requires (forall p | p in paths :: p in readable && p in all) && FaithfulFiles(readable, all)
    ensures Faithful(TracksOf(readable, paths))
  {
    var ts := TracksOf(readable, paths);
    forall i, j | 0 <= i < |ts| && 0 <= j < |ts| && CacheKey(ts[i]) == CacheKey(ts[j])
      ensures ts[i].artist == ts[j].artist && ts[i].album == ts[j].album
    {
      assert paths[i] in all && paths[j] in all;
    }
  }

  /** What only the years and genres of albums distinguish stores the same. */
  lemma SameStores(l: Library, u: Library, l': Library, tracks: map<string, Track>)
    requires SameButYears(l', u) && Sound(l') && Stores(l, u, tracks)
    ensures Stores(l, l', tracks)
  {
    hide UniqueArtists, UniqueAlbums, UniqueSongs, IdsDrawn;
    assert forall a | a in u.album ::
      l'.album[a].artistId == u.album[a].artistId && l'.album[a].name == u.album[a].name;
    assert Tracks(l'.song, l'.album, l'.artist) == Tracks(u.song, u.album, u.artist);
    assert forall a | a in u.album :: AlbumKey(l'.album[a], l'.artist) == AlbumKey(u.album[a], u.artist);
  }

  lemma BatchStores(l: Library, readable: map<string, Track>, paths: seq<string>, all: set<string>)
    requires Inv(l) && PathsKept(readable)
    requires (forall p | p in paths :: p in readable && p in all) && FaithfulFiles(readable, all)
    ensures Stores(l, BatchAll(l, TracksOf(readable, paths)).0, Picked(readable, SetOf(paths)))
  {
    hide Inv, Stores, BatchAll, UpsertAll, Faithful, Sound, SameButYears;
    var ts := TracksOf(readable, paths);
    FaithfulTracks(readable, paths, all);
    InvIsSound(l);
    BatchMatchesUncached(l, ts);
    UpsertAllStores(l, readable, paths);
    SameStores(l, UpsertAll(l, ts), BatchAll(l, ts).0, Picked(readable, SetOf(paths)));
  }

  lemma InvIsSound(l: Library)
    ensures Inv(l) ==> Sound(l)
  {
  }

  /** Any division of the files into batches, in any order, stores exactly their set. */
  lemma {:induction false} BatchesStore(l: Library, readable: map<string, Track>, batches: seq<seq<string>>,
                                        all: set<string>)
    requires Inv(l) && PathsKept(readable) && FaithfulFiles(readable, all)
    requires forall p | p in P.Flatten(batches) :: p in readable && p in all
    ensures Stores(l, WriteBatches(l, readable, batches), Picked(readable, SetOf(P.Flatten(batches))))
  {
    hide Inv, Stores, BatchAll, FaithfulFiles, PathsKept, Sound;
    InvIsSound(l);
    if batches == [] {
      StoresNothing(l);
    } else {
      var before, b := batches[..|batches| - 1], batches[|batches| - 1];
      BatchesSplit(batches);
      BatchesStore(l, readable, before, all);
      var l1 := WriteBatches(l, readable, before);
      StoredInv(l, l1, Picked(readable, SetOf(P.Flatten(before))));
      BatchStores(l1, readable, b, all);
      StoresMore(l, l1, WriteBatches(l, readable, batches),
                 Picked(readable, SetOf(P.Flatten(before))), Picked(readable, SetOf(b)));
      PickedUnion(readable, P.Flatten(before), b);
    }
  }

  lemma StoredInv(l: Library, l': Library, tracks: map<string, Track>)
    requires Stores(l, l', tracks)
    ensures Inv(l')
  {
  }

  lemma PickedUnion(readable: map<string, Track>, a: seq<string>, b: seq<string>)
    ensures Picked(readable, SetOf(a + b)) == Picked(readable, SetOf(a)) + Picked(readable, SetOf(b))
  {
  }

  lemma ReadableSet(readable: map<string, Track>, paths: seq<string>)
    ensures forall p :: p in Readable(readable, paths) <==> p in paths && p in readable
  {
    if paths != [] {
      ReadableSet(readable, paths[..|paths| - 1]);
      assert paths == paths[..|paths| - 1] + [paths[|paths| - 1]];
    }
  }

  /** Whatever the interleaving and the batching, a successful pipeline that lost no batch leaves the library that
      storing the changed readable files one by one in walk order leaves: the same track under every path, the same
      artists and the same albums. */
  lemma ConcurrentEqualsSequential(l: Library, c: P.Config, s: P.State)
    requires Inv(l) && P.ValidConfig(c) && PathsKept(c.readable)
    requires P.Reachable(c, s) && P.Succeeded(s) && s.lost == []
    requires FaithfulFiles(c.readable, SetOf(P.Jobs(c, c.events)))
    ensures forall p | p in P.Flatten(s.committed) :: p in c.readable
    ensures var concurrent := WriteBatches(l, c.readable, s.committed);
      var sequential := UpsertAll(l, TracksOf(c.readable, Readable(c.readable, P.Jobs(c, c.events))));
      && Inv(concurrent)
      && LibraryTracks(concurrent) == LibraryTracks(sequential)
      && ArtistNames(concurrent.artist) == ArtistNames(sequential.artist)
      && AlbumKeys(concurrent.album, concurrent.artist) == AlbumKeys(sequential.album, sequential.artist)
  {
    var jobs, stored := P.Jobs(c, c.events), P.Flatten(s.committed);
    P.SuccessAccountsForAll(c, s);
    P.SuccessCommitsAllIff(c, s);
    ReadableSet(c.readable, jobs);
    hide P.Reachable, Inv, BatchAll, UpsertAll, P.Flatten, P.Jobs, FaithfulFiles, Readable, WriteBatches, P.Occ;
    forall p | p in c.readable ensures p in stored <==> p in jobs {
      P.OccIn(stored, p);
      P.OccIn(jobs, p);
    }
    BatchesStore(l, c.readable, s.committed, SetOf(jobs));
    UpsertAllStores(l, c.readable, Readable(c.readable, jobs));
    assert SetOf(stored) == SetOf(Readable(c.readable, jobs));
  }

  /** Files whose artist names hold no NUL never collide. */
  lemma NulFreeFiles(readable: map<string, Track>, paths: set<string>)
    requires forall p | p in readable :: NulFree(readable[p].artist)
    ensures FaithfulFiles(readable, paths)
  {
    hide NulFree, CacheKey;
    forall p, q | p in paths && q in paths && p in readable && q in readable &&
      CacheKey(readable[p]) == CacheKey(readable[q])
      ensures readable[p].artist == readable[q].artist && readable[p].album == readable[q].album
    {
      var pair := [readable[p], readable[q]];
      NulFreeIsFaithful(pair);
      assert CacheKey(pair[0]) == CacheKey(pair[1]);
    }
  }
}
