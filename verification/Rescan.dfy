/** Incremental scans of a changing file tree against one scan from scratch. */
module Rescan {
  import opened Catalog
  import opened Cleanup
  import opened Store
  import opened Concurrent
  import Batch
  import P = Pipeline
  import opened Options

  datatype File = File(mtime: int, size: int, content: seq<int>)

  /** The supported audio files a walk reaches and can stat, by path. */
  type Tree = map<string, File>

  /** readTrack: the track in a file, or None when it cannot be read. */
  type Reader = (string, File) -> Option<Track>

  ghost predicate ReaderOk(read: Reader) {
    forall p, f :: read(p, f).Some? ==>
      read(p, f).value.path == p && read(p, f).value.data.mtime == f.mtime && read(p, f).value.data.size == f.size
  }

  /** SELECT path, file_mtime, size FROM song */
  function Known(song: Songs): map<string, (int, int)> {
    map p | p in song :: (song[p].data.mtime, song[p].data.size)
  }

  predicate UnchangedFile(song: Songs, p: string, f: File) {
    p in song && (song[p].data.mtime, song[p].data.size) == (f.mtime, f.size)
  }

  ghost function ReadableFiles(tree: Tree, read: Reader): map<string, Track> {
    map p | p in tree && read(p, tree[p]).Some? :: read(p, tree[p]).value
  }

  /** The walk meets every audio file of the tree once, in any order, among other entries. */
  ghost predicate Walks(events: seq<P.Event>, tree: Tree) {
    && P.AudioPaths(events) == tree.Keys
    && (forall e | e in events && e.Audio? ::
      e.path in tree && e.mtime == tree[e.path].mtime && e.size == tree[e.path].size)
    && OncePerPath(events)
  }

  ghost predicate OncePerPath(events: seq<P.Event>) {
    forall i, j | 0 <= i < j < |events| && events[i].Audio? && events[j].Audio? :: events[i].path != events[j].path
  }

  /** A scan: its pipeline and the state in which the pipeline was left, and of what follows the paths found gone, the
      covers written, and how far it came. */
  datatype ScanRun = ScanRun(config: P.Config, state: P.State, gone: seq<string>, covers: map<Id, string>, stop: Stop)

  ghost predicate Configured(c: P.Config, l: Library, tree: Tree, read: Reader) {
    P.ValidConfig(c) && c.known == Known(l.song) && Walks(c.events, tree) && c.readable == ReadableFiles(tree, read)
  }

  ghost function Written(l: Library, r: ScanRun): Library
    requires Sound(l) && P.ValidConfig(r.config) && P.Reachable(r.config, r.state)
  {
    CommittedReadable(r.config, r.state);
    WriteBatches(l, r.config.readable, r.state.committed)
  }

  /** The library a scan leaves: the batches committed so far, and once the writer has ended without error what the
      cleanup makes of them.  Every scan of a history meets the guard, as HistoryInv shows. */
  ghost function After(l: Library, r: ScanRun): Library {
    if !(Sound(l) && P.ValidConfig(r.config) && P.Reachable(r.config, r.state)) then l
    else if P.Succeeded(r.state) then Finished(Written(l, r), r.gone, r.covers, r.stop)
    else Written(l, r)
  }

  /** The search index a scan leaves.  The libraries of a history are sound, as HistoryInv shows. */
  ghost function AfterIndex(l: Library, fts: Fts, r: ScanRun): Fts {
    if P.Succeeded(r.state) && Sound(After(l, r)) then IndexAfter(fts, After(l, r), r.stop) else fts
  }

  /** A scan of this tree over this library, ended, failed or cut off at any point. */
  ghost predicate ScanOf(l: Library, tree: Tree, read: Reader, r: ScanRun) {
    && Configured(r.config, l, tree, read) && P.Reachable(r.config, r.state)
    && (P.Succeeded(r.state) ==> SetOf(r.gone) == l.song.Keys - r.state.seen)
  }

  /** The scan returned nil. */
  ghost predicate ReturnedNil(r: ScanRun) {
    P.Succeeded(r.state) && r.stop.Completes?
  }

  lemma CommittedReadable(c: P.Config, s: P.State)
    requires P.ValidConfig(c) && P.Reachable(c, s)
    ensures forall p | p in P.Flatten(s.committed) :: p in c.readable && p in P.Jobs(c, c.events)
  {
    P.ReachableInv(c, s);
    hide P.Flatten, P.Jobs, P.Reachable, P.WorkersShape, P.WriterShape, P.Tallied;
    forall p | p in P.Flatten(s.committed) ensures p in P.Jobs(c, c.events) {
      P.JobsConserved(c, s, p);
      P.OccIn(P.Flatten(s.committed), p);
      P.OccIn(P.Jobs(c, c.events), p);
    }
  }

  /* ---------------- one scan ---------------- */

  lemma {:induction false} JobPaths(c: P.Config, events: seq<P.Event>, p: string)
    ensures p in P.Jobs(c, events) <==> exists e | e in events :: P.IsJob(c, e) && e.path == p
  {
    if events != [] {
      var before, last := events[..|events| - 1], events[|events| - 1];
      JobPaths(c, before, p);
      assert events == before + [last];
    }
  }

  lemma JobsOfTree(c: P.Config, l: Library, tree: Tree, read: Reader, p: string)
    requires Configured(c, l, tree, read)
    ensures p in P.Jobs(c, c.events) <==> p in tree && !UnchangedFile(l.song, p, tree[p])
  {
    JobPaths(c, c.events, p);
    hide P.Jobs;
    if p in tree {
      assert p in P.AudioPaths(c.events);
      var e :| e in c.events && e.Audio? && e.path == p;
      assert P.IsJob(c, e) <==> !UnchangedFile(l.song, p, tree[p]);
    }
  }

  lemma {:induction false} JobsOnce(c: P.Config, events: seq<P.Event>, p: string)
    requires OncePerPath(events)
    ensures P.Occ(P.Jobs(c, events), p) <= 1
  {
    if events != [] {
      var before, last := events[..|events| - 1], events[|events| - 1];
      JobsOnce(c, before, p);
      JobPaths(c, before, p);
      P.OccIn(P.Jobs(c, before), p);
      if P.IsJob(c, last) {
        P.OccAppend(P.Jobs(c, before), [last.path], p);
        P.OccOne(last.path, p);
      }
      hide P.Occ;
      assert P.Jobs(c, before) + [] == P.Jobs(c, before);
    }
  }

  /** The track a scan that returns nil leaves under a path; `lost` are the files of batches whose COMMIT failed. */
  ghost function Outcome(l: Library, tree: Tree, read: Reader, lost: seq<string>, p: string): Option<Track>
    requires ForeignKeys(l)
  {
    if p !in tree then None
    else if !UnchangedFile(l.song, p, tree[p]) && read(p, tree[p]).Some? && p !in lost then read(p, tree[p])
    else if p in l.song then Some(LibraryTracks(l)[p])
    else None
  }

  ghost predicate Holds(tracks: map<string, Track>, p: string, t: Option<Track>) {
    match t
    case None => p !in tracks
    case Some(track) => p in tracks && tracks[p] == track
  }

  lemma WrittenTracks(l: Library, tree: Tree, read: Reader, r: ScanRun)
    requires Inv(l) && ReaderOk(read) && FaithfulFiles(ReadableFiles(tree, read), tree.Keys)
    requires Configured(r.config, l, tree, read) && P.Reachable(r.config, r.state)
    ensures Inv(Written(l, r))
    ensures LibraryTracks(Written(l, r)) ==
      LibraryTracks(l) + Picked(r.config.readable, SetOf(P.Flatten(r.state.committed)))
    ensures forall p | p in P.Flatten(r.state.committed) ::
      p in tree && !UnchangedFile(l.song, p, tree[p]) && read(p, tree[p]).Some?
  {
    var c, stored := r.config, P.Flatten(r.state.committed);
    CommittedReadable(c, r.state);
    forall p | p in stored ensures p in tree && !UnchangedFile(l.song, p, tree[p]) {
      JobsOfTree(c, l, tree, read, p);
    }
    hide P.Reachable, P.Flatten, P.Jobs, UniqueKeys, AlbumReferences, SongReferences, IdsDrawn, ArtistAgreement,
         Tracks, FaithfulFiles, ArtistNames, AlbumKeys, ArtistsOf, KeysOf;
    BatchesStore(l, c.readable, r.state.committed, tree.Keys);
  }

  /** The scan keeps the invariant wherever it ends, and takes from the written library only paths it swept. */
  lemma AfterKeeps(l: Library, tree: Tree, read: Reader, r: ScanRun)
    requires Inv(l) && ReaderOk(read) && FaithfulFiles(ReadableFiles(tree, read), tree.Keys) && ScanOf(l, tree, read, r)
    ensures Inv(After(l, r)) && Inv(Written(l, r))
    ensures LibraryTracks(After(l, r)) ==
      LibraryTracks(Written(l, r)) - if P.Succeeded(r.state) then Gone(r.gone, r.stop) else {}
  {
    hide P.Reachable, Sound, ArtistAgreement, LibraryTracks, FaithfulFiles, ReaderOk, ReadableFiles, Finished, Legal,
         WriteBatches;
    WrittenTracks(l, tree, read, r);
    var w := Written(l, r);
    InvIsSound(l);
    InvIsSound(w);
    if P.Succeeded(r.state) {
      AgreementIsLegal(w, r.gone, r.covers);
      FinishedKeeps(w, r.gone, r.covers, r.stop);
      KeptSound(w, Finished(w, r.gone, r.covers, r.stop), Gone(r.gone, r.stop));
    } else {
      SoundTables(w);
      KeepsAll(LibraryTracks(w));
    }
  }

  lemma SoundTables(l: Library)
    requires Sound(l)
    ensures ForeignKeys(l)
  {
  }

  /** A scan that returns nil leaves a clean library. */
  lemma AfterClean(l: Library, tree: Tree, read: Reader, r: ScanRun)
    requires Inv(l) && ReaderOk(read) && FaithfulFiles(ReadableFiles(tree, read), tree.Keys) && ScanOf(l, tree, read, r)
    requires ReturnedNil(r)
    ensures Clean(After(l, r))
  {
    hide P.Reachable, Sound, ArtistAgreement, LibraryTracks, FaithfulFiles, ReaderOk, ReadableFiles, Finished,
         WriteBatches, Clean;
    WrittenTracks(l, tree, read, r);
    InvIsSound(l);
    FinishedClean(Written(l, r), r.gone, r.covers, r.stop);
  }

  lemma JobFates(l: Library, tree: Tree, read: Reader, r: ScanRun, p: string)
    requires Configured(r.config, l, tree, read) && P.Reachable(r.config, r.state) && P.Succeeded(r.state)
    ensures p in r.state.lost ==> p in tree && !UnchangedFile(l.song, p, tree[p]) && read(p, tree[p]).Some?
    ensures p in P.Flatten(r.state.committed) <==>
      p in tree && !UnchangedFile(l.song, p, tree[p]) && read(p, tree[p]).Some? && p !in r.state.lost
    ensures r.state.seen == tree.Keys
  {
    hide P.Reachable, P.Flatten, P.Jobs, P.Skips, P.Occ;
    var c, s := r.config, r.state;
    P.SuccessAccountsForAll(c, s);
    JobsOfTree(c, l, tree, read, p);
    JobsOnce(c, c.events, p);
    P.OccIn(P.Flatten(s.committed), p);
    P.OccIn(s.lost, p);
    P.OccIn(P.Jobs(c, c.events), p);
    hide OncePerPath, Known, UnchangedFile;
  }

  /** A scan that returns nil leaves under every path exactly what the file tree, the previous library, the reader and
      the batches lost determine. */
  lemma ScanOutcome(l: Library, tree: Tree, read: Reader, r: ScanRun, p: string)
    requires Inv(l) && ReaderOk(read) && FaithfulFiles(ReadableFiles(tree, read), tree.Keys)
    requires ScanOf(l, tree, read, r) && ReturnedNil(r)
    ensures ForeignKeys(After(l, r))
    ensures Holds(LibraryTracks(After(l, r)), p, Outcome(l, tree, read, r.state.lost, p))
  {
    hide P.Reachable, P.Flatten, P.Jobs, UniqueKeys, AlbumReferences, SongReferences, IdsDrawn, ArtistAgreement,
         FaithfulFiles, WriteBatches, P.ValidConfig, P.Skips, P.Occ, ReaderOk, After, UnchangedFile, Known,
         OncePerPath;
    WrittenTracks(l, tree, read, r);
    AfterKeeps(l, tree, read, r);
    JobFates(l, tree, read, r, p);
  }

  /* ---------------- histories ---------------- */

  /** Every stored track was read from the file its path had in one of these trees. */
  ghost predicate Explained(l: Library, past: seq<Tree>, read: Reader)
    requires ForeignKeys(l)
  {
    forall p | p in l.song :: ExplainedAt(LibraryTracks(l)[p], p, past, read)
  }

  ghost predicate ExplainedAt(t: Track, p: string, past: seq<Tree>, read: Reader) {
    exists k | 0 <= k < |past| :: p in past[k] && read(p, past[k][p]) == Some(t)
  }

  /** A path whose modification time and size are the same in two trees has the same content in both. */
  ghost predicate Honest(trees: seq<Tree>) {
    forall i, j, p | 0 <= i < |trees| && 0 <= j < |trees| && p in trees[i] && p in trees[j]
                     && trees[i][p].mtime == trees[j][p].mtime && trees[i][p].size == trees[j][p].size ::
      trees[i][p] == trees[j][p]
  }

  /** The tracks of one scan of the tree into an empty library. */
  ghost function Fresh(tree: Tree, read: Reader): map<string, Track> {
    ReadableFiles(tree, read)
  }

  /** A stored file that has changed and can no longer be read. */
  ghost predicate Stale(l: Library, tree: Tree, read: Reader, p: string) {
    p in l.song && p in tree && !UnchangedFile(l.song, p, tree[p]) && read(p, tree[p]).None?
  }

  ghost predicate SomeStale(l: Library, tree: Tree, read: Reader) {
    exists p :: Stale(l, tree, read, p)
  }

  lemma StillExplained(t: Track, p: string, past: seq<Tree>, tree: Tree, read: Reader)
    requires ExplainedAt(t, p, past, read) || (p in tree && read(p, tree[p]) == Some(t))
    ensures ExplainedAt(t, p, past + [tree], read)
  {
    var trees := past + [tree];
    if k :| 0 <= k < |past| && p in past[k] && read(p, past[k][p]) == Some(t) {
      assert trees[k] == past[k];
    } else {
      assert trees[|past|] == tree;
    }
  }

  /** Any scan, however it ends, keeps every stored track explained by some tree scanned so far. */
  lemma ScanKeepsExplained(l: Library, past: seq<Tree>, tree: Tree, read: Reader, r: ScanRun)
    requires Inv(l) && ReaderOk(read) && FaithfulFiles(ReadableFiles(tree, read), tree.Keys)
    requires Explained(l, past, read) && ScanOf(l, tree, read, r)
    ensures Inv(After(l, r)) && Explained(After(l, r), past + [tree], read)
  {
    hide P.Reachable, P.Flatten, P.Jobs, UniqueKeys, AlbumReferences, SongReferences, IdsDrawn, ArtistAgreement,
         FaithfulFiles, WriteBatches, P.Succeeded, ExplainedAt, ReaderOk, After, Walks, Known;
    WrittenTracks(l, tree, read, r);
    AfterKeeps(l, tree, read, r);
    var written, after := LibraryTracks(Written(l, r)), LibraryTracks(After(l, r));
    forall p | p in After(l, r).song ensures ExplainedAt(after[p], p, past + [tree], read) {
      assert p in after;
      assert p in written && after[p] == written[p];
      WrittenExplained(l, past, tree, read, r, p);
    }
  }

  lemma WrittenExplained(l: Library, past: seq<Tree>, tree: Tree, read: Reader, r: ScanRun, p: string)
    requires Inv(l) && ReaderOk(read) && FaithfulFiles(ReadableFiles(tree, read), tree.Keys)
    requires Explained(l, past, read) && ScanOf(l, tree, read, r)
    requires ForeignKeys(Written(l, r)) && p in LibraryTracks(Written(l, r))
    ensures ExplainedAt(LibraryTracks(Written(l, r))[p], p, past + [tree], read)
  {
    hide P.Reachable, P.Flatten, P.Jobs, UniqueKeys, AlbumReferences, SongReferences, IdsDrawn, ArtistAgreement,
         FaithfulFiles, WriteBatches, P.Succeeded, ExplainedAt, ReaderOk, After, UnchangedFile, Walks, Known;
    WrittenTracks(l, tree, read, r);
    StillExplained(LibraryTracks(Written(l, r))[p], p, past, tree, read);
  }

  /** An unchanged file of an honest history still holds the stored track. */
  lemma UnchangedIsCurrent(l: Library, past: seq<Tree>, tree: Tree, read: Reader, p: string)
    requires ForeignKeys(l) && ReaderOk(read) && Explained(l, past, read) && Honest(past + [tree])
    requires p in tree && UnchangedFile(l.song, p, tree[p])
    ensures read(p, tree[p]) == Some(LibraryTracks(l)[p])
  {
    var trees, t := past + [tree], LibraryTracks(l)[p];
    var k :| 0 <= k < |past| && p in past[k] && read(p, past[k][p]) == Some(t);
    assert trees[k] == past[k] && trees[|past|] == tree;
    assert t.data == l.song[p].data;
  }

  ghost function At(tracks: map<string, Track>, p: string): Option<Track> {
    if p in tracks then Some(tracks[p]) else None
  }

  lemma SyncedAt(l: Library, past: seq<Tree>, tree: Tree, read: Reader, r: ScanRun, p: string)
    requires Inv(l) && ReaderOk(read) && FaithfulFiles(ReadableFiles(tree, read), tree.Keys)
    requires Explained(l, past, read) && Honest(past + [tree])
    requires ScanOf(l, tree, read, r) && ReturnedNil(r)
    ensures ForeignKeys(After(l, r))
    ensures At(LibraryTracks(After(l, r)), p) == At(Fresh(tree, read), p) <==>
      !Stale(l, tree, read, p) && p !in r.state.lost
  {
    hide P.Reachable, P.Flatten, UniqueKeys, AlbumReferences, SongReferences, IdsDrawn, ArtistAgreement,
         FaithfulFiles, Tracks, Explained, Honest, After, Walks, Known, P.Succeeded;
    ScanOutcome(l, tree, read, r, p);
    JobFates(l, tree, read, r, p);
    if p in tree && UnchangedFile(l.song, p, tree[p]) {
      UnchangedIsCurrent(l, past, tree, read, p);
    }
    if p in l.song && p in tree && !UnchangedFile(l.song, p, tree[p]) {
      StoredDates(l, p);
      hide ForeignKeys;
    }
  }

  lemma StoredDates(l: Library, p: string)
    requires ForeignKeys(l) && p in l.song
    ensures LibraryTracks(l)[p].data == l.song[p].data
  {
  }

  /** After any history of edits and scans, however those ended, a scan that returns nil leaves exactly what a scan of
      the tree into an empty library leaves, if and only if no stored file has changed and become unreadable and none
      of its batches was lost at an unreported COMMIT failure. */
  lemma SyncedIff(l: Library, past: seq<Tree>, tree: Tree, read: Reader, r: ScanRun)
    requires Inv(l) && ReaderOk(read) && FaithfulFiles(ReadableFiles(tree, read), tree.Keys)
    requires Explained(l, past, read) && Honest(past + [tree])
    requires ScanOf(l, tree, read, r) && ReturnedNil(r)
    ensures ForeignKeys(After(l, r))
    ensures LibraryTracks(After(l, r)) == Fresh(tree, read) <==> !SomeStale(l, tree, read) && r.state.lost == []
  {
    hide Fresh, Stale, LibraryTracks, Inv, Explained, Honest, ReaderOk, FaithfulFiles, At, After, ScanOf, ReturnedNil,
         ForeignKeys;
    SyncedAt(l, past, tree, read, r, "");
    var after, scratch, lost := LibraryTracks(After(l, r)), Fresh(tree, read), r.state.lost;
    forall p ensures At(after, p) == At(scratch, p) <==> !Stale(l, tree, read, p) && p !in lost {
      SyncedAt(l, past, tree, read, r, p);
    }
    SameEverywhere(after, scratch);
    if lost != [] {
      assert lost[0] in lost;
    }
  }

  lemma SameEverywhere(a: map<string, Track>, b: map<string, Track>)
    ensures a == b <==> forall p :: At(a, p) == At(b, p)
  {
    if forall p :: At(a, p) == At(b, p) {
      forall p ensures p in a <==> p in b {
        assert At(a, p) == At(b, p);
      }
      forall p | p in a ensures a[p] == b[p] {
        assert At(a, p) == At(b, p);
      }
    }
  }

  /* ---------------- whole histories ---------------- */

  /** Scans of successive trees, from an empty library. */
  ghost predicate History(trees: seq<Tree>, read: Reader, runs: seq<ScanRun>) {
    && |runs| == |trees|
    && forall i | 0 <= i < |runs| :: ScanOf(LibraryAt(runs, i), trees[i], read, runs[i])
  }

  /** The library after the first i scans. */
  ghost function LibraryAt(runs: seq<ScanRun>, i: nat): Library
    requires i <= |runs|
  {
    if i == 0 then EMPTY else After(LibraryAt(runs, i - 1), runs[i - 1])
  }

  /** The search index after the first i scans. */
  ghost function IndexAt(runs: seq<ScanRun>, i: nat): Fts
    requires i <= |runs|
  {
    if i == 0 then map[] else AfterIndex(LibraryAt(runs, i - 1), IndexAt(runs, i - 1), runs[i - 1])
  }

  ghost predicate FaithfulTrees(trees: seq<Tree>, read: Reader) {
    forall i | 0 <= i < |trees| :: FaithfulFiles(ReadableFiles(trees[i], read), trees[i].Keys)
  }

  /** NUL-free artist names are enough. */
  lemma NulFreeTrees(trees: seq<Tree>, read: Reader)
    requires forall i, p | 0 <= i < |trees| && p in ReadableFiles(trees[i], read) ::
      Batch.NulFree(ReadableFiles(trees[i], read)[p].artist)
    ensures FaithfulTrees(trees, read)
  {
    hide ReadableFiles, FaithfulFiles, Batch.NulFree;
    forall i | 0 <= i < |trees| ensures FaithfulFiles(ReadableFiles(trees[i], read), trees[i].Keys) {
      NulFreeFiles(ReadableFiles(trees[i], read), trees[i].Keys);
    }
  }

  lemma EmptyInv()
    ensures Inv(EMPTY) && forall past, read :: Explained(EMPTY, past, read)
  {
  }

  /** However the scans of a history ended, the invariant holds after each and every track is explained. */
  lemma {:induction false} HistoryInv(trees: seq<Tree>, read: Reader, runs: seq<ScanRun>, i: nat)
    requires ReaderOk(read) && FaithfulTrees(trees, read) && History(trees, read, runs) && i <= |runs|
    ensures Inv(LibraryAt(runs, i)) && Explained(LibraryAt(runs, i), trees[..i], read)
  {
    hide Inv, Explained, ScanOf, ReaderOk, FaithfulFiles, ForeignKeys, ReadableFiles, After;
    if i == 0 {
      EmptyInv();
    } else {
      HistoryInv(trees, read, runs, i - 1);
      ScanKeepsExplained(LibraryAt(runs, i - 1), trees[..i - 1], trees[i - 1], read, runs[i - 1]);
      assert trees[..i] == trees[..i - 1] + [trees[i - 1]];
    }
  }

  /** Incremental equals from scratch: after any sequence of file edits and scans of which the last returns nil, the
      library has the tracks one scan of the last tree into an empty library has, if and only if no file stored before
      that last scan has changed and become unreadable and the last scan lost no batch. */
  lemma IncrementalEqualsScratch(trees: seq<Tree>, read: Reader, runs: seq<ScanRun>, scratch: ScanRun)
    requires ReaderOk(read) && FaithfulTrees(trees, read) && Honest(trees)
    requires |trees| > 0 && History(trees, read, runs) && ReturnedNil(runs[|runs| - 1])
    requires ScanOf(EMPTY, trees[|trees| - 1], read, scratch) && ReturnedNil(scratch) && scratch.state.lost == []
    ensures ForeignKeys(LibraryAt(runs, |runs|)) && ForeignKeys(After(EMPTY, scratch))
    ensures LibraryTracks(LibraryAt(runs, |runs|)) == LibraryTracks(After(EMPTY, scratch))
      <==> !SomeStale(LibraryAt(runs, |runs| - 1), trees[|trees| - 1], read) && runs[|runs| - 1].state.lost == []
  {
    hide Inv, Explained, Honest, ReaderOk, FaithfulFiles, FaithfulTrees, ScanOf, Fresh, LibraryTracks, ForeignKeys,
         SomeStale, ReadableFiles, After, ReturnedNil;
    SameLength(trees, read, runs);
    var n := |trees| - 1;
    BeforeLast(trees, read, runs, n);
    ScratchIsFresh(trees, read, scratch);
    SyncedIff(LibraryAt(runs, n), trees[..n], trees[n], read, runs[n]);
  }

  lemma BeforeLast(trees: seq<Tree>, read: Reader, runs: seq<ScanRun>, n: nat)
    requires |trees| == |runs| == n + 1
    requires ReaderOk(read) && FaithfulTrees(trees, read) && Honest(trees) && History(trees, read, runs)
    ensures Inv(LibraryAt(runs, n))
    ensures Explained(LibraryAt(runs, n), trees[..n], read)
    ensures Honest(trees[..n] + [trees[n]])
    ensures ScanOf(LibraryAt(runs, n), trees[n], read, runs[n])
    ensures FaithfulFiles(ReadableFiles(trees[n], read), trees[n].Keys)
    ensures LibraryAt(runs, |runs|) == After(LibraryAt(runs, n), runs[n])
  {
    hide *;
    HistoryInv(trees, read, runs, n);
    LastScan(trees, read, runs, n);
    assert trees == trees[..n] + [trees[n]];
  }

  lemma SameLength(trees: seq<Tree>, read: Reader, runs: seq<ScanRun>)
    requires History(trees, read, runs)
    ensures |runs| == |trees|
  {
  }

  lemma LastScan(trees: seq<Tree>, read: Reader, runs: seq<ScanRun>, n: nat)
    requires |trees| == |runs| == n + 1 && FaithfulTrees(trees, read) && History(trees, read, runs)
    ensures ScanOf(LibraryAt(runs, n), trees[n], read, runs[n])
    ensures FaithfulFiles(ReadableFiles(trees[n], read), trees[n].Keys)
    ensures LibraryAt(runs, |runs|) == After(LibraryAt(runs, n), runs[n])
  {
    hide ScanOf, After, FaithfulFiles, ReadableFiles;
  }

  lemma ScratchIsFresh(trees: seq<Tree>, read: Reader, scratch: ScanRun)
    requires ReaderOk(read) && FaithfulTrees(trees, read) && Honest(trees) && |trees| > 0
    requires ScanOf(EMPTY, trees[|trees| - 1], read, scratch) && ReturnedNil(scratch) && scratch.state.lost == []
    ensures ForeignKeys(After(EMPTY, scratch)) &&
      LibraryTracks(After(EMPTY, scratch)) == Fresh(trees[|trees| - 1], read)
  {
    hide Inv, Explained, ReaderOk, FaithfulFiles, Fresh, LibraryTracks, SomeStale, After, ScanOf, ReturnedNil;
    EmptyInv();
    HonestLast(trees);
    NothingStale(trees[|trees| - 1], read);
    SyncedIff(EMPTY, [], trees[|trees| - 1], read, scratch);
  }

  const STORED := Track("/a.mp3", "A", "B", SongData("a", 1, 1, 2000, "", 60, 1, "mp3", 128, "audio/mpeg", 1))

  /** Reads the first version of the file, and fails on every later one. */
  function ReadsFirst(p: string, f: File): Option<Track> {
    if p == "/a.mp3" && f.mtime == 1 && f.size == 1 then Some(STORED) else None
  }

  /** One stored path whose file has changed and can no longer be read: it is stale, and a scan of the tree into an
      empty library has no such song while the library keeps it. */
  lemma StaleInput()
    ensures ReadsFirst("/a.mp3", File(1, 1, [])) == Some(STORED)
    ensures var l, tree: Tree := UpsertTrack(EMPTY, STORED), map["/a.mp3" := File(2, 1, [])];
      && ReaderOk(ReadsFirst) && Inv(l) && SomeStale(l, tree, ReadsFirst)
      && Outcome(l, tree, ReadsFirst, [], "/a.mp3") == Some(STORED) && "/a.mp3" !in Fresh(tree, ReadsFirst)
  {
    EmptyInv();
    hide UpsertTrack, Inv, Explained, LibraryTracks;
    var l, tree: Tree := UpsertTrack(EMPTY, STORED), map["/a.mp3" := File(2, 1, [])];
    UpsertTrackEffect(EMPTY, STORED);
    StoredIn(l, "/a.mp3");
    assert Stale(l, tree, ReadsFirst, "/a.mp3");
  }

  lemma StoredIn(l: Library, p: string)
    requires Inv(l) && p in LibraryTracks(l)
    ensures ForeignKeys(l) && p in l.song && l.song[p].data == LibraryTracks(l)[p].data
  {
  }

  lemma NothingStale(tree: Tree, read: Reader)
    ensures !SomeStale(EMPTY, tree, read)
  {
  }

  lemma HonestLast(trees: seq<Tree>)
    requires |trees| > 0 && Honest(trees)
    ensures Honest([] + [trees[|trees| - 1]])
  {
  }
}
