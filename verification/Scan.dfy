/** `Run`: the writer's transactions and the cleanup carried out on the database. */
module Scan {
  import opened Catalog
  import opened Batch
  import opened Cleanup
  import opened Covers
  import opened Store
  import opened Concurrent
  import opened Rescan
  import P = Pipeline

  /** How storage answers a transaction that ends this way. */
  function FaultOf(outcome: P.Outcome, refusedAt: nat): Fault {
    match outcome
    case Committed => NoFault
    case Lost => FailsAtCommit
    case Refused => FailsAt(refusedAt)
  }

  /** What the writer has done to the library after the first i insertions. */
  ghost predicate WrittenBy(l: Library, l': Library, c: P.Config, inserts: seq<P.Insertion>) {
    && Sound(l) && (forall p | p in P.Flatten(P.CommittedIn(inserts)) :: p in c.readable)
    && l' == WriteBatches(l, c.readable, P.CommittedIn(inserts))
  }

  lemma NothingWritten(l: Library, c: P.Config)
    requires Sound(l)
    ensures WrittenBy(l, l, c, [])
  {
  }

  lemma ReadableBatch(c: P.Config, s: P.State, k: nat)
    requires P.ValidConfig(c) && P.Reachable(c, s) && k < |s.inserts|
    ensures forall p | p in s.inserts[k].batch :: p in c.readable
  {
    hide P.Reachable, P.Conserved, P.Tallied, P.Logged;
    P.ReachableInv(c, s);
  }

  /** The insertion log of a reachable state: a refused batch comes last and only with an error. */
  lemma LogOf(c: P.Config, s: P.State)
    requires P.ValidConfig(c) && P.Reachable(c, s)
    ensures s.committed == P.CommittedIn(s.inserts)
    ensures forall k | 0 <= k < |s.inserts| && s.inserts[k].outcome.Refused? ::
      s.writerErr && k == |s.inserts| - 1 && s.inserts[k].batch == s.failed
    ensures s.writerErr ==> s.inserts != [] && s.inserts[|s.inserts| - 1].outcome.Refused?
  {
    hide P.Reachable, P.Conserved, P.Tallied, P.Contents, P.CommittedIn, P.LostIn;
    P.ReachableInv(c, s);
    var n := |s.inserts| - 1;
    assert s.writerErr ==> forall k | 0 <= k < n :: s.inserts[..n][k] == s.inserts[k];
  }

  lemma WriteMore(l: Library, l': Library, c: P.Config, inserts: seq<P.Insertion>, i: P.Insertion)
    requires WrittenBy(l, l', c, inserts) && Sound(l') && (forall p | p in i.batch :: p in c.readable)
    ensures WrittenBy(l, if i.outcome.Committed? then BatchAll(l', TracksOf(c.readable, i.batch)).0 else l',
                      c, inserts + [i])
  {
    hide BatchAll, Sound, P.Flatten, P.CommittedIn;
    P.InsertsSnoc(inserts, i);
    var before := P.CommittedIn(inserts);
    assert before + [] == before;
    if i.outcome.Committed? {
      P.FlattenSnoc(before, i.batch);
      assert (before + [i.batch])[..|before|] == before;
    }
  }

  /** The writer's insertions on the database. */
  method Write(db: Database, c: P.Config, s: P.State, refusedAt: nat) returns (err: bool)
    requires db.Valid() && P.ValidConfig(c) && P.Reachable(c, s) && refusedAt <= |s.failed|
    modifies db`lib
    ensures db.Valid() && err == s.writerErr && WrittenBy(old(db.lib), db.lib, c, s.inserts)
  {
    hide Sound, P.Reachable, WrittenBy, BatchAll, Statements, SongIds, Referenced;
    LogOf(c, s);
    NothingWritten(db.lib, c);
    for i := 0 to |s.inserts|
      invariant db.Valid() && WrittenBy(old(db.lib), db.lib, c, s.inserts[..i])
      invariant i > 0 ==> !s.inserts[i - 1].outcome.Refused?
    {
      ReadableBatch(c, s, i);
      var insert, tracks := s.inserts[i], TracksOf(c.readable, s.inserts[i].batch);
      WriteMore(old(db.lib), db.lib, c, s.inserts[..i], insert);
      assert s.inserts[..i + 1] == s.inserts[..i] + [insert];
      StatementsGrow(tracks, |tracks|);
      BatchKeepsSongIds(db.lib, tracks);
      ReferencedMore(db.act, SongIds(db.lib.song), SongIds(BatchAll(db.lib, tracks).0.song));
      var failed := db.InsertBatch(tracks, FaultOf(insert.outcome, refusedAt));
      if failed {
        assert s.inserts[..|s.inserts|] == s.inserts;
        return true;
      }
    }
    assert s.inserts[..|s.inserts|] == s.inserts;
    return false;
  }

  /** The paths of the known files the walk did not see. */
  method Unseen(known: map<string, (int, int)>, seen: set<string>) returns (gone: seq<string>)
    ensures SetOf(gone) == known.Keys - seen
  {
    gone := [];
    var todo := known.Keys;
    while todo != {}
      invariant todo <= known.Keys && SetOf(gone) == known.Keys - todo - seen
    {
      var p :| p in todo;
      if p !in seen {
        assert SetOf(gone + [p]) == SetOf(gone) + {p};
        gone := gone + [p];
      }
      todo := todo - {p};
    }
  }

  lemma WrittenIs(l: Library, c: P.Config, s: P.State, gone: seq<string>, covers: map<Id, string>, stop: Stop)
    requires P.ValidConfig(c) && P.Reachable(c, s) && Sound(l)
    ensures WrittenBy(l, Written(l, ScanRun(c, s, gone, covers, stop)), c, s.inserts)
  {
    hide Sound, P.Reachable, P.Flatten, P.CommittedIn, WriteBatches;
    LogOf(c, s);
    CommittedReadable(c, s);
  }

  lemma AbortedWritesNothing(l: Library, r: ScanRun)
    requires P.ValidConfig(r.config) && P.Reachable(r.config, r.state) && r.state.main.Aborted? && Sound(l)
    ensures After(l, r) == l && !P.Succeeded(r.state)
  {
    hide Sound, P.Reachable, P.Conserved, P.Tallied, P.Contents;
    P.ReachableInv(r.config, r.state);
    WrittenIs(l, r.config, r.state, r.gone, r.covers, r.stop);
  }

  /** The cover of an album after a scan: its cover before the scan if that is on disk, else the art the walk met in
      the directory of the least path of its songs, else none.  An album the scan added had none. */
  ghost predicate CoverLeft(l: Library, l': Library, art: Art, a: Id, p: string)
    requires a in l'.album
  {
    var before := if a in l.album then l.album[a].coverArt else "";
    l'.album[a].coverArt ==
    if before != "" && before in art.onDisk then before
    else if art.dirOf(p) in art.folders then art.folders[art.dirOf(p)]
    else ""
  }

  ghost predicate CoversLeft(l: Library, l': Library, art: Art) {
    forall a, p | a in l'.album && IsLeast(p, SongsOf(l'.song, a)) :: CoverLeft(l, l', art, a, p)
  }

  lemma CoversAreLeft(l: Library, w: Library, l': Library, art: Art, paths: set<string>, covers: map<Id, string>,
                      stop: Stop)
    requires KeepsColumns(l.album, w.album) && CoversFor(Swept(w, paths), art, covers)
    requires AlbumsLeft(w, l', covers, stop) && l'.song == Swept(w, paths).song && !stop.SweepStops?
    ensures CoversLeft(l, l', art)
  {
    hide SongsOf, CoverOf, IsLeast, DeletePaths, Counted;
    forall a, p | a in l'.album && IsLeast(p, SongsOf(l'.song, a)) ensures CoverLeft(l, l', art, a, p) {
      CoverOfCases(w.album[a].coverArt, art.dirOf(p), art);
      assert Covered(Swept(w, paths), art, covers, a);
      LeastIsOne(p, SongsOf(l'.song, a));
    }
  }

  lemma LeastIsOne(p: string, paths: set<string>)
    requires IsLeast(p, paths)
    ensures paths != {}
  {
  }

  lemma WrittenKeepsRows(l: Library, r: ScanRun)
    requires P.ValidConfig(r.config) && P.Reachable(r.config, r.state) && Sound(l)
    ensures KeepsRows(l, Written(l, r))
  {
    hide Sound, P.Reachable, WriteBatches, KeepsRows, P.Flatten;
    CommittedReadable(r.config, r.state);
    WritesKeepRows(l, r.config.readable, r.state.committed);
  }

  /** `Run` from the end of the pipeline on, in any state in which the writer has ended, or after a failed query for
      the known files.  The library and the search index it leaves are those of a scan of the tree as the histories
      above mean it, and it returns nil exactly when that scan does. */
  method Run(db: Database, c: P.Config, s: P.State, art: Art, refusedAt: nat, okSweep: nat, okRest: nat,
             ftsFault: Fault, optimizeFails: bool, ghost tree: Tree, ghost read: Reader)
    returns (err: bool, ghost r: ScanRun)
    requires db.Valid() && Configured(c, db.lib, tree, read) && P.Reachable(c, s)
    requires (P.Joined(s) || s.main.Aborted?) && refusedAt <= |s.failed|
    modifies db
    ensures r.config == c && r.state == s
    ensures ScanOf(old(db.lib), tree, read, r) && db.lib == After(old(db.lib), r)
    ensures db.fts == AfterIndex(old(db.lib), old(db.fts), r)
    ensures err <==> !ReturnedNil(r)
    ensures db.Valid()
    ensures P.Succeeded(s) && !r.stop.SweepStops? ==> CoversLeft(old(db.lib), db.lib, art)
    ensures P.Succeeded(s) ==> AlbumsLeft(Written(old(db.lib), r), db.lib, r.covers, r.stop)
    ensures P.Succeeded(s) ==> KeysLeft(Written(old(db.lib), r), db.lib, Gone(r.gone, r.stop), r.stop)
    ensures Lawful(old(db.lib), tree, read) ==> Inv(db.lib) && (!err ==> Clean(db.lib))
    ensures P.Succeeded(s) ==> EndsAs(r.stop, ftsFault, optimizeFails)
    ensures Lawful(old(db.lib), tree, read) && P.Succeeded(s) && okSweep >= 7 * |r.gone| && okRest >= 3 ==>
      (err <==> IndexErr(ftsFault) || optimizeFails)
  {
    hide Sound, P.Reachable, Finished, WriteBatches, ArtistAgreement, ReadableFiles, Walks, SongIds, Referenced,
         Forget, Lawful, Clean, CoversFor, Swept, FtsOf, AlbumsLeft, KeysLeft, CoversLeft, KeepsColumns, KeepsRowids;
    ghost var start := db.lib;
    if s.main.Aborted? {
      r := ScanRun(c, s, [], map[], Completes(true));
      AbortedWritesNothing(start, r);
      Keeps(start, tree, read, r);
      return true, r;
    }
    var gone := Unseen(c.known, s.seen);
    err := Write(db, c, s, refusedAt);
    r := ScanRun(c, s, gone, map[], Completes(true));
    WrittenIs(start, c, s, gone, map[], Completes(true));
    Keeps(start, tree, read, r);
    if err {
      return true, r;
    }
    ghost var stop, covers;
    err, stop, covers := db.Finish(gone, art, okSweep, okRest, ftsFault, optimizeFails);
    WrittenIs(start, c, s, gone, covers, stop);
    r := ScanRun(c, s, gone, covers, stop);
    Keeps(start, tree, read, r);
    if !stop.SweepStops? {
      WrittenKeepsRows(start, r);
      SweptSongs(Written(start, r), gone, covers, stop);
      CoversAreLeft(start, Written(start, r), db.lib, art, SetOf(gone), covers, stop);
    }
  }

  lemma SweptSongs(l: Library, gone: seq<string>, covers: map<Id, string>, stop: Stop)
    requires !stop.SweepStops?
    ensures Finished(l, gone, covers, stop).song == Swept(l, SetOf(gone)).song
  {
    FinishedSongs(l, gone, covers, stop);
  }

  /** What the histories ask of a library, a tree and a reader. */
  ghost predicate Lawful(l: Library, tree: Tree, read: Reader) {
    Inv(l) && ReaderOk(read) && FaithfulFiles(ReadableFiles(tree, read), tree.Keys)
  }

  lemma Keeps(l: Library, tree: Tree, read: Reader, r: ScanRun)
    ensures Lawful(l, tree, read) && ScanOf(l, tree, read, r) ==>
      Inv(Written(l, r)) && Inv(After(l, r)) && (ReturnedNil(r) ==> Clean(After(l, r)))
  {
    if Lawful(l, tree, read) && ScanOf(l, tree, read, r) {
      hide Inv, ReaderOk, FaithfulFiles, ReadableFiles, ScanOf, After, Clean, Sound;
      AfterKeeps(l, tree, read, r);
      if ReturnedNil(r) {
        AfterClean(l, tree, read, r);
      }
    }
  }
}
