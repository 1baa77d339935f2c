/** Which cover an album gets: resolveAlbumArt. */
module Covers {
  import opened Catalog
  import opened Cleanup

  /** The art files the walk met by directory, the files that exist, and filepath.Dir. */
  datatype Art = Art(folders: map<string, string>, onDisk: set<string>, dirOf: string -> string)

  /** The order of MIN(path): by code points, which is the order of the bytes of UTF-8. */
  predicate Less(a: string, b: string) {
    b != "" && (a == "" || a[0] < b[0] || (a[0] == b[0] && Less(a[1..], b[1..])))
  }

  lemma {:induction false} LessIsTotal(a: string, b: string)
    ensures a == b || Less(a, b) || Less(b, a)
    ensures !(Less(a, b) && (a == b || Less(b, a)))
  {
    if a != "" && b != "" {
      LessIsTotal(a[1..], b[1..]);
      assert a == [a[0]] + a[1..] && b == [b[0]] + b[1..];
    }
  }

  lemma {:induction false} LessIsTransitive(a: string, b: string, c: string)
    requires Less(a, b) && Less(b, c)
    ensures Less(a, c)
  {
    if a != "" && a[0] == b[0] == c[0] {
      LessIsTransitive(a[1..], b[1..], c[1..]);
    }
  }

  /** The two strings part at position k, where the first ends or has the smaller character. */
  ghost predicate PartAt(a: string, b: string, k: nat) {
    k <= |a| && k < |b| && a[..k] == b[..k] && (k == |a| || a[k] < b[k])
  }

  lemma {:induction false} LessIff(a: string, b: string)
    ensures Less(a, b) <==> exists k: nat :: PartAt(a, b, k)
  {
    if a == "" || b == "" || a[0] != b[0] {
      assert Less(a, b) ==> PartAt(a, b, 0);
      assert forall k: nat | PartAt(a, b, k) && k > 0 :: a[..k][0] == b[..k][0];
    } else {
      LessIff(a[1..], b[1..]);
      if Less(a, b) {
        var k: nat :| PartAt(a[1..], b[1..], k);
        assert a[..k + 1] == [a[0]] + a[1..][..k] && b[..k + 1] == [b[0]] + b[1..][..k];
        assert PartAt(a, b, k + 1);
      }
      forall k: nat | PartAt(a, b, k) ensures PartAt(a[1..], b[1..], k - 1) {
        assert a[1..][..k - 1] == a[..k][1..] && b[1..][..k - 1] == b[..k][1..];
      }
    }
  }

  lemma {:induction false} LeastExists(paths: set<string>) returns (p: string)
    requires paths != {}
    ensures IsLeast(p, paths)
    decreases paths
  {
    p := Pick(paths);
    var others := paths - {p};
    assert forall q | q in paths :: q == p || q in others;
    if others != {} {
      var q := LeastExists(others);
      LeastOfMore(q, others, p);
      assert others + {p} == paths;
      p := if Less(p, q) then p else q;
    }
  }

  ghost predicate IsLeast(p: string, paths: set<string>) {
    p in paths && forall q | q in paths && q != p :: Less(p, q)
  }

  /** MIN(s.path) of one album's group; None when the album has no song and the join drops it. */
  method SamplePath(song: Songs, a: Id) returns (sample: string, found: bool)
    ensures found <==> SongsOf(song, a) != {}
    ensures found ==> IsLeast(sample, SongsOf(song, a))
  {
    sample, found := "", false;
    var todo := song.Keys;
    while todo != {}
      invariant todo <= song.Keys
      invariant found <==> SongsOf(song, a) - todo != {}
      invariant found ==> IsLeast(sample, SongsOf(song, a) - todo)
    {
      var p :| p in todo;
      ghost var before, after := SongsOf(song, a) - todo, SongsOf(song, a) - (todo - {p});
      if song[p].albumId == a {
        assert after == before + {p};
        if found {
          LessIsTotal(p, sample);
          LeastOfMore(sample, before, p);
        }
        sample, found := if !found || Less(p, sample) then p else sample, true;
      } else {
        assert after == before;
      }
      todo := todo - {p};
    }
    assert SongsOf(song, a) - todo == SongsOf(song, a);
  }

  lemma LeastOfMore(least: string, paths: set<string>, p: string)
    requires IsLeast(least, paths) && p !in paths
    ensures IsLeast(if Less(p, least) then p else least, paths + {p})
  {
    LessIsTotal(p, least);
    if Less(p, least) {
      forall q | q in paths && q != least ensures Less(p, q) {
        LessIsTransitive(p, least, q);
      }
    }
  }

  /** The cover of an album whose sample song lies in this directory: a cover that exists is kept, a missing one is
      cleared, and an album without one gets the art of the directory. */
  function CoverOf(current: string, dir: string, art: Art): string {
    var kept := if current != "" && current !in art.onDisk then "" else current;
    if kept == "" && dir in art.folders then art.folders[dir] else kept
  }

  /** A cover on disk is kept; any other is replaced by the art of the sample song's own directory, or cleared. */
  lemma CoverOfCases(current: string, dir: string, art: Art)
    ensures CoverOf(current, dir, art) ==
      if current != "" && current in art.onDisk then current
      else if dir in art.folders then art.folders[dir]
      else ""
  {
  }

  ghost predicate Covered(l: Library, art: Art, covers: map<Id, string>, a: Id)
    requires a in l.album
  {
    && (a in covers <==> SongsOf(l.song, a) != {})
    && forall p | IsLeast(p, SongsOf(l.song, a)) :: covers[a] == CoverOf(l.album[a].coverArt, art.dirOf(p), art)
  }

  /** The covers written: one for every album with songs, and no other. */
  ghost predicate CoversFor(l: Library, art: Art, covers: map<Id, string>) {
    covers.Keys <= l.album.Keys && forall a | a in l.album :: Covered(l, art, covers, a)
  }

  lemma CoveredBy(l: Library, art: Art, covers: map<Id, string>, a: Id, sample: string, found: bool)
    requires a in l.album && (found <==> SongsOf(l.song, a) != {}) && (found ==> IsLeast(sample, SongsOf(l.song, a)))
    requires if found then a in covers &&
      covers[a] == CoverOf(l.album[a].coverArt, art.dirOf(sample), art) else a !in covers
    ensures Covered(l, art, covers, a)
  {
    hide SongsOf, CoverOf, Less;
    if found {
      OneLeast(sample, SongsOf(l.song, a));
    }
  }

  /** resolveAlbumArt */
  method ResolveAlbumArt(l: Library, art: Art) returns (covers: map<Id, string>)
    ensures CoversFor(l, art, covers)
  {
    hide SongsOf, CoverOf, Less, IsLeast;
    covers := map[];
    var todo := l.album.Keys;
    while todo != {}
      invariant todo <= l.album.Keys && covers.Keys <= l.album.Keys - todo
      invariant forall a | a in l.album.Keys - todo :: Covered(l, art, covers, a)
    {
      var a :| a in todo;
      var sample, found := SamplePath(l.song, a);
      ghost var before := covers;
      if found {
        covers := covers[a := CoverOf(l.album[a].coverArt, art.dirOf(sample), art)];
      }
      CoveredBy(l, art, covers, a, sample, found);
      assert forall b | b in l.album.Keys - todo :: Covered(l, art, before, b) && (b in covers <==>
        b in before) && (b in covers ==> covers[b] == before[b]);
      todo := todo - {a};
    }
  }

  lemma OneLeast(p: string, paths: set<string>)
    requires IsLeast(p, paths)
    ensures forall q | IsLeast(q, paths) :: q == p
  {
    forall q | IsLeast(q, paths) ensures q == p {
      LessIsTotal(p, q);
    }
  }

  /** After a scan no album keeps a cover that does not exist, unless the walk met it; an album is left without one
      only when the directory of its sample song has none. */
  lemma CoversExist(l: Library, art: Art, covers: map<Id, string>, a: Id, p: string)
    requires CoversFor(l, art, covers) && a in l.album && IsLeast(p, SongsOf(l.song, a))
    ensures a in covers
    ensures covers[a] == "" || covers[a] in art.onDisk || covers[a] in art.folders.Values
    ensures covers[a] == "" && "" !in art.folders.Values ==> art.dirOf(p) !in art.folders
    ensures l.album[a].coverArt in art.onDisk && l.album[a].coverArt != "" ==> covers[a] == l.album[a].coverArt
  {
    hide Less, SongsOf;
    assert art.dirOf(p) in art.folders ==> art.folders[art.dirOf(p)] in art.folders.Values;
  }
}
