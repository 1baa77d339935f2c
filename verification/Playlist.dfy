/** Playlists: rows keyed by (playlist, position) that must behave as a sequence. */
module Playlist {
  import opened Catalog
  import opened Cleanup
  import opened Options

  const MAX_PLAYLIST_SONGS := 10000

  /* ---------------- rows in position order ---------------- */

  function Positions(slots: map<Slot, Id>, pid: Id): set<int> {
    set s | s in slots && s.playlistId == pid :: s.position
  }

  predicate IsLeast(m: int, s: set<int>) {
    m in s && forall x | x in s :: m <= x
  }

  lemma {:induction false} LeastExists(s: set<int>) returns (m: int)
    requires s != {}
    ensures IsLeast(m, s)
    decreases s
  {
    var y := Pick(s);
    m := y;
    var others := s - {y};
    assert forall x | x in s :: x == y || x in others;
    if others != {} {
      var n := LeastExists(others);
      m := if n < y then n else y;
    }
  }

  function Least(s: set<int>): (m: int)
    requires s != {}
    ensures IsLeast(m, s)
  {
    assert exists m :: IsLeast(m, s) by {
      var m := LeastExists(s);
    }
    var m :| IsLeast(m, s) && m in s;
    m
  }

  /** ORDER BY position */
  function Sorted(s: set<int>): (r: seq<int>)
    decreases s
  {
    if s == {} then []
    else [Least(s)] + Sorted(s - {Least(s)})
  }

  predicate Increasing(r: seq<int>) {
    forall i, j | 0 <= i < j < |r| :: r[i] < r[j]
  }

  ghost function Elements(r: seq<int>): set<int> {
    set x | x in r
  }

  lemma ElementsCons(x: int, r: seq<int>)
    ensures Elements([x] + r) == {x} + Elements(r)
  {
  }

  lemma SortedUnfolds(s: set<int>) returns (m: int, others: set<int>)
    requires s != {}
    ensures Sorted(s) == [m] + Sorted(others) && others < s && {m} + others == s && |s| == 1 + |others|
    ensures forall y | y in others :: m < y
  {
    m := Least(s);
    others := s - {m};
  }

  lemma {:induction false} SortedIsSorted(s: set<int>)
    ensures Elements(Sorted(s)) == s && Increasing(Sorted(s)) && |Sorted(s)| == |s|
    decreases s
  {
    if s != {} {
      hide Increasing, Elements, Sorted;
      var m, others := SortedUnfolds(s);
      SortedIsSorted(others);
      ElementsCons(m, Sorted(others));
      IncreasingCons(m, Sorted(others));
    }
  }

  lemma IncreasingCons(x: int, r: seq<int>)
    requires Increasing(r) && forall y | y in Elements(r) :: x < y
    ensures Increasing([x] + r)
  {
    assert forall i | 0 <= i < |r| :: r[i] in Elements(r);
  }

  lemma SameHead(a: seq<int>, b: seq<int>)
    requires Increasing(a) && Increasing(b) && Elements(a) == Elements(b) && a != []
    ensures b != [] && a[0] == b[0]
  {
    assert a[0] in Elements(b);
    assert b[0] in Elements(a);
  }

  /** A set has one increasing enumeration. */
  lemma {:induction false} IncreasingUnique(a: seq<int>, b: seq<int>)
    requires Increasing(a) && Increasing(b) && Elements(a) == Elements(b)
    ensures a == b
  {
    if a != [] {
      SameHead(a, b);
      assert a == [a[0]] + a[1..] && b == [b[0]] + b[1..];
      ElementsCons(a[0], a[1..]);
      ElementsCons(b[0], b[1..]);
      assert a[0] !in Elements(a[1..]) && b[0] !in Elements(b[1..]);
      assert Elements(a[1..]) == Elements(a) - {a[0]};
      IncreasingUnique(a[1..], b[1..]);
    } else if b != [] {
      SameHead(b, a);
    }
  }

  lemma SortedIs(s: set<int>, r: seq<int>)
    requires Increasing(r) && Elements(r) == s
    ensures Sorted(s) == r
  {
    SortedIsSorted(s);
    IncreasingUnique(Sorted(s), r);
  }

  /** The song at each of these positions. */
  function SongsAt(slots: map<Slot, Id>, pid: Id, positions: seq<int>): seq<Id>
    requires forall p | p in positions :: Slot(pid, p) in slots
  {
    seq(|positions|, i requires 0 <= i < |positions| => assert positions[i] in positions;
      slots[Slot(pid, positions[i])])
  }

  lemma PositionsFilled(slots: map<Slot, Id>, pid: Id)
    ensures forall p | p in Sorted(Positions(slots, pid)) :: Slot(pid, p) in slots
  {
    SortedIsSorted(Positions(slots, pid));
    assert forall p | p in Sorted(Positions(slots, pid)) :: p in Elements(Sorted(Positions(slots, pid)));
  }

  /** SELECT song_id FROM playlist_song WHERE playlist_id = ? ORDER BY position: the playlist users see. */
  function Items(slots: map<Slot, Id>, pid: Id): seq<Id> {
    PositionsFilled(slots, pid);
    SongsAt(slots, pid, Sorted(Positions(slots, pid)))
  }

  /** Positions 0, 1, ..., n - 1. */
  function UpTo(n: nat): seq<int> {
    seq(n, i => i)
  }

  predicate Contiguous(slots: map<Slot, Id>, pid: Id) {
    Sorted(Positions(slots, pid)) == UpTo(|Positions(slots, pid)|)
  }

  /* ---------------- edits seen as edits of the row set ---------------- */

  function Without(ps: seq<int>, removed: set<int>): seq<int> {
    if ps == [] then []
    else (if ps[0] in removed then [] else [ps[0]]) + Without(ps[1..], removed)
  }

  lemma {:induction false} WithoutElements(ps: seq<int>, removed: set<int>)
    ensures Elements(Without(ps, removed)) == Elements(ps) - removed
  {
    if ps != [] {
      var rest := Without(ps[1..], removed);
      WithoutElements(ps[1..], removed);
      assert ps == [ps[0]] + ps[1..];
      ElementsCons(ps[0], ps[1..]);
      ElementsCons(ps[0], rest);
      assert [] + rest == rest;
    }
  }

  lemma {:induction false} WithoutIncreasing(ps: seq<int>, removed: set<int>)
    requires Increasing(ps)
    ensures Increasing(Without(ps, removed))
  {
    if ps != [] {
      WithoutIncreasing(ps[1..], removed);
      WithoutElements(ps[1..], removed);
      var rest := Without(ps[1..], removed);
      forall y | y in Elements(rest) ensures ps[0] < y {
        assert y in ps[1..];
      }
      IncreasingCons(ps[0], rest);
      assert [] + rest == rest;
    }
  }

  /** Deleting rows by position leaves the others in their order. */
  lemma SortedWithout(s: set<int>, removed: set<int>)
    ensures Sorted(s - removed) == Without(Sorted(s), removed)
  {
    SortedIsSorted(s);
    WithoutElements(Sorted(s), removed);
    WithoutIncreasing(Sorted(s), removed);
    SortedIs(s - removed, Without(Sorted(s), removed));
  }

  /** Rows of the other playlists. */
  function Others(slots: map<Slot, Id>, pid: Id): map<Slot, Id> {
    map s | s in slots && s.playlistId != pid :: slots[s]
  }

  /** DELETE FROM playlist_song WHERE playlist_id = ? AND position = ?, for each of these positions */
  function RemoveAt(slots: map<Slot, Id>, pid: Id, removed: set<int>): map<Slot, Id> {
    map s | s in slots && !(s.playlistId == pid && s.position in removed) :: slots[s]
  }

  /** The listed songs whose position is not removed. */
  function Kept(slots: map<Slot, Id>, pid: Id, removed: set<int>): seq<Id>
  {
    var ps := Without(Sorted(Positions(slots, pid)), removed);
    KeptFilled(slots, pid, removed);
    SongsAt(slots, pid, ps)
  }

  lemma KeptFilled(slots: map<Slot, Id>, pid: Id, removed: set<int>)
    ensures forall p | p in Without(Sorted(Positions(slots, pid)), removed) :: Slot(pid, p) in slots
  {
    var all := Sorted(Positions(slots, pid));
    PositionsFilled(slots, pid);
    WithoutElements(all, removed);
    forall p | p in Without(all, removed) ensures Slot(pid, p) in slots {
      assert p in Elements(Without(all, removed));
      assert p in all;
    }
  }

  lemma RemoveAtEffect(slots: map<Slot, Id>, pid: Id, removed: set<int>)
    ensures var slots' := RemoveAt(slots, pid, removed);
      && Positions(slots', pid) == Positions(slots, pid) - removed
      && Items(slots', pid) == Kept(slots, pid, removed)
      && Others(slots', pid) == Others(slots, pid)
  {
    var slots' := RemoveAt(slots, pid, removed);
    forall p | p in Positions(slots, pid) - removed ensures p in Positions(slots', pid) {
      assert Slot(pid, p) in slots';
    }
    forall p | p in Positions(slots', pid) ensures p in Positions(slots, pid) - removed {
      assert Slot(pid, p) in slots;
    }
    assert Positions(slots', pid) == Positions(slots, pid) - removed;
    SortedWithout(Positions(slots, pid), removed);
    KeptFilled(slots, pid, removed);
    PositionsFilled(slots', pid);
  }

  lemma ElementsSnoc(r: seq<int>, x: int)
    ensures Elements(r + [x]) == Elements(r) + {x}
  {
  }

  lemma IncreasingSnoc(r: seq<int>, x: int)
    requires Increasing(r) && forall y | y in Elements(r) :: y < x
    ensures Increasing(r + [x])
  {
    assert forall i | 0 <= i < |r| :: r[i] in Elements(r);
  }

  lemma AppendPosition(s: set<int>, q: int)
    requires forall p | p in s :: p < q
    ensures Sorted(s + {q}) == Sorted(s) + [q]
  {
    hide Elements, Increasing, Sorted;
    SortedIsSorted(s);
    ElementsSnoc(Sorted(s), q);
    IncreasingSnoc(Sorted(s), q);
    SortedIs(s + {q}, Sorted(s) + [q]);
  }

  /** INSERT INTO playlist_song past the last position. */
  lemma InsertLast(slots: map<Slot, Id>, pid: Id, q: int, id: Id)
    requires forall p | p in Positions(slots, pid) :: p < q
    ensures Slot(pid, q) !in slots
    ensures var slots' := slots[Slot(pid, q) := id];
      && Positions(slots', pid) == Positions(slots, pid) + {q}
      && Sorted(Positions(slots', pid)) == Sorted(Positions(slots, pid)) + [q]
      && Items(slots', pid) == Items(slots, pid) + [id]
      && Others(slots', pid) == Others(slots, pid)
  {
    FreePosition(slots, pid, q);
    hide Positions, Sorted;
    InsertPositions(slots, pid, q, id);
    AppendPosition(Positions(slots, pid), q);
    InsertItems(slots, pid, q, id);
  }

  lemma FreePosition(slots: map<Slot, Id>, pid: Id, q: int)
    requires forall p | p in Positions(slots, pid) :: p < q
    ensures Slot(pid, q) !in slots
  {
    assert forall s | s in slots && s.playlistId == pid :: s.position in Positions(slots, pid);
  }

  lemma InsertItems(slots: map<Slot, Id>, pid: Id, q: int, id: Id)
    requires Slot(pid, q) !in slots
    requires Sorted(Positions(slots[Slot(pid, q) := id], pid)) == Sorted(Positions(slots, pid)) + [q]
    ensures Items(slots[Slot(pid, q) := id], pid) == Items(slots, pid) + [id]
  {
    hide Positions, Sorted;
    PositionsFilled(slots, pid);
    PositionsFilled(slots[Slot(pid, q) := id], pid);
  }

  lemma InsertPositions(slots: map<Slot, Id>, pid: Id, q: int, id: Id)
    ensures Positions(slots[Slot(pid, q) := id], pid) == Positions(slots, pid) + {q}
  {
    var slots' := slots[Slot(pid, q) := id];
    forall p | p in Positions(slots, pid) + {q} ensures p in Positions(slots', pid) {
      assert Slot(pid, p) in slots';
    }
  }

  /** COALESCE(MAX(position), -1) */
  function MaxPosition(slots: map<Slot, Id>, pid: Id): (m: int)
    ensures forall p | p in Positions(slots, pid) :: p <= m
  {
    var ps := Sorted(Positions(slots, pid));
    SortedIsSorted(Positions(slots, pid));
    assert forall p | p in Positions(slots, pid) :: p in Elements(ps);
    if ps == [] then -1 else ps[|ps| - 1]
  }

  function Range(start: int, n: nat): seq<int> {
    seq(n, i => start + i)
  }

  /* ---------------- the handlers ---------------- */

  /** The integers among the parsed request parameters, as a descending list. */
  function Descending(args: seq<Option<int>>): (r: seq<int>)
    ensures forall x :: x in r <==> Some(x) in args
    ensures forall i, j | 0 <= i < j < |r| :: r[i] >= r[j]
  {
    if args == [] then []
    else
      assert args == [args[0]] + args[1..];
      var rest := Descending(args[1..]);
      if args[0].None? then rest else Insert(args[0].value, rest)
  }

  function Insert(x: int, r: seq<int>): (q: seq<int>)
    requires forall i, j | 0 <= i < j < |r| :: r[i] >= r[j]
    ensures forall y :: y in q <==> y == x || y in r
    ensures forall i, j | 0 <= i < j < |q| :: q[i] >= q[j]
  {
    if r == [] then [x]
    else if x >= r[0] then [x] + r
    else
      assert r == [r[0]] + r[1..];
      var rest := Insert(x, r[1..]);
      assert forall i | 0 <= i < |rest| :: rest[i] in rest;
      [r[0]] + rest
  }

  ghost function Requested(args: seq<Option<int>>): set<int> {
    Elements(Descending(args))
  }

  /** Exactly the parameters that are integers are requested. */
  lemma RequestedIs(args: seq<Option<int>>, x: int)
    ensures x in Requested(args) <==> Some(x) in args
  {
  }

  /** What an update of one playlist does: its songs at unrequested positions keep their order, the added songs
      follow, and the positions are renumbered from 0 when a removal was asked for. */
  ghost predicate UpdatedTo(before: map<Slot, Id>, after: map<Slot, Id>, pid: Id, removeArgs: seq<Option<int>>,
                            adds: seq<Id>) {
    && Items(after, pid) == Kept(before, pid, Requested(removeArgs)) + adds
    && Others(after, pid) == Others(before, pid)
    && Sorted(Positions(after, pid)) ==
       if removeArgs != [] then UpTo(|Kept(before, pid, Requested(removeArgs))| + |adds|)
       else Sorted(Positions(before, pid)) + Range(MaxPosition(before, pid) + 1, |adds|)
  }

  lemma DescendingShort(args: seq<Option<int>>)
    ensures |Descending(args)| <= |args|
  {
    if args != [] {
      DescendingShort(args[1..]);
      if args[0].Some? {
        InsertLength(args[0].value, Descending(args[1..]));
      }
    }
  }

  lemma InsertLength(x: int, r: seq<int>)
    requires forall i, j | 0 <= i < j < |r| :: r[i] >= r[j]
    ensures |Insert(x, r)| == |r| + 1
  {
  }

  lemma RemoveNone(slots: map<Slot, Id>, pid: Id)
    ensures RemoveAt(slots, pid, {}) == slots
  {
  }

  lemma RemoveMore(slots: map<Slot, Id>, pid: Id, removed: set<int>, p: int)
    ensures RemoveAt(RemoveAt(slots, pid, removed), pid, {p}) == RemoveAt(slots, pid, removed + {p})
  {
  }

  lemma RemoveKeepsReferences(slots: map<Slot, Id>, playlists: Playlists, ids: set<Id>, pid: Id, removed: set<int>)
    requires SlotReferences(slots, playlists, ids)
    ensures SlotReferences(RemoveAt(slots, pid, removed), playlists, ids)
  {
  }

  lemma {:induction false} WithoutShort(ps: seq<int>, removed: set<int>)
    ensures |Without(ps, removed)| <= |ps|
    ensures removed == {} ==> Without(ps, removed) == ps
  {
    if ps != [] {
      WithoutShort(ps[1..], removed);
      assert removed == {} ==> [ps[0]] + ps[1..] == ps;
    }
  }

  lemma KeptShort(slots: map<Slot, Id>, pid: Id, removed: set<int>)
    ensures |Kept(slots, pid, removed)| <= |Items(slots, pid)|
  {
    WithoutShort(Sorted(Positions(slots, pid)), removed);
  }

  lemma NoRequests()
    ensures Requested([]) == {}
  {
  }

  lemma KeepAll(slots: map<Slot, Id>, pid: Id)
    ensures Kept(slots, pid, {}) == Items(slots, pid)
  {
    WithoutShort(Sorted(Positions(slots, pid)), {});
  }

  lemma ItemsReferenced(slots: map<Slot, Id>, playlists: Playlists, ids: set<Id>, pid: Id)
    requires SlotReferences(slots, playlists, ids)
    ensures forall id | id in Items(slots, pid) :: id in ids && pid in playlists
  {
    PositionsFilled(slots, pid);
    var ps := Sorted(Positions(slots, pid));
    forall i | 0 <= i < |ps| ensures Items(slots, pid)[i] in ids && pid in playlists {
      assert ps[i] in ps && Slot(pid, ps[i]) in slots;
    }
  }

  lemma OthersReferenced(slots: map<Slot, Id>, playlists: Playlists, ids: set<Id>, pid: Id)
    requires SlotReferences(slots, playlists, ids)
    ensures SlotReferences(Others(slots, pid), playlists, ids)
  {
  }

  lemma NoneLeft(slots: map<Slot, Id>, pid: Id)
    ensures Positions(Others(slots, pid), pid) == {} && Sorted(Positions(Others(slots, pid), pid)) == []
    ensures Items(Others(slots, pid), pid) == [] && Others(Others(slots, pid), pid) == Others(slots, pid)
  {
  }

  lemma InsertKeepsReferences(slots: map<Slot, Id>, playlists: Playlists, ids: set<Id>, s: Slot, id: Id)
    requires SlotReferences(slots, playlists, ids) && id in ids && s.playlistId in playlists
    ensures SlotReferences(slots[s := id], playlists, ids)
  {
  }

  lemma PositionCount(slots: map<Slot, Id>, pid: Id)
    ensures |Items(slots, pid)| == |Sorted(Positions(slots, pid))|
  {
  }

  lemma MaxOfUpTo(slots: map<Slot, Id>, pid: Id)
    requires Sorted(Positions(slots, pid)) == UpTo(|Items(slots, pid)|)
    ensures MaxPosition(slots, pid) + 1 == |Items(slots, pid)|
  {
  }

  /** Positions appended after a renumbered list continue its numbering. */
  lemma UpdatePositions(kept: map<Slot, Id>, pid: Id, n: nat)
    ensures Sorted(Positions(kept, pid)) == UpTo(|Items(kept, pid)|) ==>
      Sorted(Positions(kept, pid)) + Range(MaxPosition(kept, pid) + 1, n) == UpTo(|Items(kept, pid)| + n)
    ensures Range(MaxPosition(kept, pid) + 1, 0) == []
  {
    if Sorted(Positions(kept, pid)) == UpTo(|Items(kept, pid)|) {
      MaxOfUpTo(kept, pid);
    }
  }

  /** What becomes of a transaction at its COMMIT: carried out, or refused by the storage engine, which then rolls it
      back itself or leaves it open. */
  datatype Commit = Commits | RollsBack | StaysOpen

  /** UPDATE playlist SET name, comment, public WHERE id = ? AND user_id = ?, each column if it was asked for. */
  function WithColumns(playlists: Playlists, pid: Id, user: string, name: string, comment: Option<string>,
                       public: Option<bool>): Playlists {
    if pid in playlists && playlists[pid].userId == user then
      var row := playlists[pid];
      playlists[pid := row.(name := if name != "" then name else row.name,
                            comment := if comment.Some? then comment.value else row.comment,
                            public := if public.Some? then public.value else row.public)]
    else playlists
  }

  /** The statements that change columns. */
  function ColumnCost(name: string, comment: Option<string>, public: Option<bool>): nat {
    (if name != "" then 1 else 0) + (if comment.Some? then 1 else 0) + (if public.Some? then 1 else 0)
  }

  lemma NoColumns(playlists: Playlists, pid: Id, user: string)
    ensures WithColumns(playlists, pid, user, "", None, None) == playlists
  {
  }

  /** The owner's playlist has the name asked for unless that is empty, and the comment and visibility asked for. */
  lemma ColumnsAreSet(playlists: Playlists, pid: Id, name: string, comment: Option<string>, public: Option<bool>)
    requires pid in playlists
    ensures var before := playlists[pid];
      var after := WithColumns(playlists, pid, before.userId, name, comment, public);
      && pid in after
      && (name != "" ==> after[pid].name == name) && (name == "" ==> after[pid].name == before.name)
      && (comment.Some? ==> after[pid].comment == comment.value)
      && (comment.None? ==> after[pid].comment == before.comment)
      && (public.Some? ==> after[pid].public == public.value) && (public.None? ==> after[pid].public == before.public)
  {
  }

  /** A new playlist belongs to its creator, under the name asked for, without a comment and not public; an existing
      one gets the name from its owner only.  No other playlist changes. */
  lemma CreatedRow(playlists: Playlists, user: string, existing: bool, pid: Id, name: string)
    ensures var after := Created(playlists, user, existing, pid, name);
      && (!existing ==> pid in after && after[pid] == PlaylistRow(user, name, "", false))
      && (existing && pid in playlists && playlists[pid].userId == user && name != "" ==>
            pid in after && after[pid] == playlists[pid].(name := name))
      && (existing && !(pid in playlists && playlists[pid].userId == user && name != "") ==> after == playlists)
      && (forall q | q != pid :: q in after <==> q in playlists)
      && (forall q | q in playlists && q != pid :: after[q] == playlists[q])
  {
  }

  /** The columns of no other user's playlist and of no other playlist change, and the owner stays. */
  lemma ColumnsOfOwner(playlists: Playlists, pid: Id, user: string, name: string, comment: Option<string>,
                       public: Option<bool>)
    ensures var after := WithColumns(playlists, pid, user, name, comment, public);
      && after.Keys == playlists.Keys
      && (forall q | q in playlists && (q != pid || playlists[q].userId != user) :: after[q] == playlists[q])
      && (forall q | q in playlists :: after[q].userId == playlists[q].userId)
  {
  }

  /** The playlist rows after a create request: a row for a new playlist, the new name for its owner's old one. */
  function Created(playlists: Playlists, user: string, existing: bool, pid: Id, name: string): Playlists {
    if existing then WithColumns(playlists, pid, user, name, None, None)
    else playlists[pid := PlaylistRow(user, name, "", false)]
  }

  lemma SamePlaylists(slots: map<Slot, Id>, playlists: Playlists, playlists': Playlists, ids: set<Id>)
    requires SlotReferences(slots, playlists, ids) && playlists.Keys <= playlists'.Keys
    ensures SlotReferences(slots, playlists', ids)
  {
  }

  /** The playlist tables.  `slots` and `playlists` are what the write connection sees, `storedSlots` and
      `storedPlaylists` what was last committed and the read connections see; `open` is whether a transaction was left
      open on the write connection. */
  class Table {
    var slots: map<Slot, Id>
    var songIds: set<Id>
    var playlists: Playlists
    var storedSlots: map<Slot, Id>
    var storedPlaylists: Playlists
    var open: bool

    ghost predicate Valid()
      reads this
    {
      && SlotReferences(slots, playlists, songIds) && SlotReferences(storedSlots, storedPlaylists, songIds)
      && (!open ==> storedSlots == slots && storedPlaylists == playlists)
    }

    constructor (songIds: set<Id>, playlists: Playlists)
      ensures Valid() && slots == map[] && this.songIds == songIds && this.playlists == playlists && !open
      ensures storedSlots == map[]
    {
      this.slots, this.songIds, this.playlists := map[], songIds, playlists;
      this.storedSlots, this.storedPlaylists, this.open := map[], playlists, false;
    }

    /** INSERT INTO playlist_song: refused when the row's key is taken or a reference would dangle. */
    predicate Insertable(pid: Id, position: int, id: Id)
      reads this
    {
      Slot(pid, position) !in slots && id in songIds && pid in playlists
    }

    /** All these songs and this playlist exist. */
    ghost predicate Known(pid: Id, songs: seq<Id>)
      reads this
    {
      forall id | id in songs :: id in songIds && pid in playlists
    }

    /** COMMIT.  A failing COMMIT is answered with an error and no ROLLBACK, so where the engine leaves the
        transaction open the changes stay pending on the write connection. */
    method End(commit: Commit) returns (ok: bool)
      requires !open && SlotReferences(slots, playlists, songIds)
      requires SlotReferences(storedSlots, storedPlaylists, songIds)
      modifies this`slots, this`playlists, this`storedSlots, this`storedPlaylists, this`open
      ensures Valid() && ok == commit.Commits? && open == commit.StaysOpen?
      ensures ok || open ==> slots == old(slots) && playlists == old(playlists)
      ensures !ok ==> storedSlots == old(storedSlots) && storedPlaylists == old(storedPlaylists)
    {
      match commit {
        case Commits => storedSlots, storedPlaylists := slots, playlists;
        case RollsBack => slots, playlists := storedSlots, storedPlaylists;
        case StaysOpen => open := true;
      }
      return commit.Commits?;
    }

    /** handleUpdatePlaylist.  `okStatements` statements succeed before storage fails; `commit` is how a COMMIT ends. */
    method Update(user: string, pid: Id, name: string, comment: Option<string>, public: Option<bool>,
                  removeArgs: seq<Option<int>>, adds: seq<Id>, okStatements: nat, commit: Commit)
      returns (ok: bool)
      requires Valid()
      modifies this`slots, this`playlists, this`storedSlots, this`storedPlaylists, this`open
      ensures Valid() && (old(open) ==> !ok && open && slots == old(slots) && playlists == old(playlists))
      ensures !ok ==> storedSlots == old(storedSlots) && storedPlaylists == old(storedPlaylists)
      ensures !ok && !open ==> slots == old(slots) && playlists == old(playlists)
      ensures ok ==> !open && Known(pid, adds)
      ensures ok || open != old(open) ==>
        && UpdatedTo(old(slots), slots, pid, removeArgs, adds)
        && playlists == WithColumns(old(playlists), pid, user, name, comment, public)
      ensures !old(open) && okStatements >= |removeArgs| + |Items(old(slots), pid)| + |adds| + 7 ==>
        && (ok <==> Known(pid, adds) && commit.Commits?)
        && (open <==> Known(pid, adds) && commit.StaysOpen?)
    {
      hide UpdatedTo, SlotReferences, Items, WithColumns;
      if open || okStatements < 1 {
        return false;
      }
      var saved, savedPlaylists, left := slots, playlists, okStatements - 1;
      var failed := UpdateColumns(user, pid, name, comment, public, left);
      if !failed {
        left := left - ColumnCost(name, comment, public);
        failed := UpdateSongs(pid, removeArgs, adds, left);
      }
      if failed {
        slots, playlists := saved, savedPlaylists;
        return false;
      }
      ok := End(commit);
    }

    /** The columns of the playlist, one statement for each that was asked for. */
    method UpdateColumns(user: string, pid: Id, name: string, comment: Option<string>, public: Option<bool>,
                         okStatements: nat)
      returns (failed: bool)
      requires SlotReferences(slots, playlists, songIds)
      modifies this`playlists
      ensures SlotReferences(slots, playlists, songIds) && playlists.Keys == old(playlists).Keys
      ensures !failed ==> playlists == WithColumns(old(playlists), pid, user, name, comment, public)
      ensures failed <==> okStatements < ColumnCost(name, comment, public)
    {
      var left := okStatements;
      if name != "" {
        if left < 1 {
          return true;
        }
        playlists := WithColumns(playlists, pid, user, name, None, None);
        left := left - 1;
      }
      if comment.Some? {
        if left < 1 {
          return true;
        }
        playlists := WithColumns(playlists, pid, user, "", comment, None);
        left := left - 1;
      }
      if public.Some? {
        if left < 1 {
          return true;
        }
        playlists := WithColumns(playlists, pid, user, "", None, public);
      }
      return false;
    }

    /** Removal, renumbering and adding of songs. */
    method UpdateSongs(pid: Id, removeArgs: seq<Option<int>>, adds: seq<Id>, okStatements: int) returns (failed: bool)
      requires SlotReferences(slots, playlists, songIds)
      modifies this`slots
      ensures !failed ==> SlotReferences(slots, playlists, songIds)
      ensures !failed ==> UpdatedTo(old(slots), slots, pid, removeArgs, adds) && Known(pid, adds)
      ensures okStatements >= |removeArgs| + |Items(old(slots), pid)| + |adds| + 3 ==> (failed <==> !Known(pid, adds))
    {
      hide Sorted, Positions, Items, Kept, RemoveAt, Others, SlotReferences, MaxPosition, Descending;
      var left := okStatements;
      ghost var start, requested := slots, Requested(removeArgs);
      if |removeArgs| > 0 {
        var indices := Descending(removeArgs);
        DescendingShort(removeArgs);
        failed := RemoveRows(pid, indices, left);
        left := left - |indices|;
        RemoveAtEffect(start, pid, requested);
        RemoveKeepsReferences(start, playlists, songIds, pid, requested);
        KeptShort(start, pid, requested);
        if !failed {
          failed := Resequence(pid, left);
          left := left - 2 - |Items(slots, pid)|;
        }
        if failed {
          return true;
        }
      } else {
        KeepAll(start, pid);
        NoRequests();
      }
      ghost var kept := slots;
      if |adds| > 0 {
        failed := AppendSongs(pid, adds, left);
        if failed {
          return true;
        }
      }
      UpdatePositions(kept, pid, |adds|);
      return false;
    }

    /** DELETE by position, one statement per index. */
    method RemoveRows(pid: Id, indices: seq<int>, okStatements: int) returns (failed: bool)
      modifies this`slots
      ensures !failed ==> slots == RemoveAt(old(slots), pid, Elements(indices))
      ensures okStatements >= |indices| ==> !failed
      ensures !failed ==> okStatements >= |indices|
    {
      hide RemoveAt;
      RemoveNone(slots, pid);
      assert Elements(indices[..0]) == {};
      for i := 0 to |indices|
        invariant slots == RemoveAt(old(slots), pid, Elements(indices[..i])) && (i == 0 || i <= okStatements)
      {
        if okStatements < i + 1 {
          return true;
        }
        RemoveMore(old(slots), pid, Elements(indices[..i]), indices[i]);
        ElementsSnoc(indices[..i], indices[i]);
        assert indices[..i + 1] == indices[..i] + [indices[i]];
        slots := RemoveAt(slots, pid, {indices[i]});
      }
      assert indices[..|indices|] == indices;
      return okStatements < |indices|;
    }

    /** INSERT each song after the current last position. */
    method AppendSongs(pid: Id, adds: seq<Id>, okStatements: int) returns (failed: bool)
      requires SlotReferences(slots, playlists, songIds) && adds != []
      modifies this`slots
      ensures !failed ==> SlotReferences(slots, playlists, songIds)
      ensures !failed ==>
        Items(slots, pid) == Items(old(slots), pid) + adds && Others(slots, pid) == Others(old(slots), pid)
      ensures !failed ==>
        Sorted(Positions(slots, pid)) ==
        Sorted(Positions(old(slots), pid)) + Range(MaxPosition(old(slots), pid) + 1, |adds|)
      ensures !failed ==> Known(pid, adds)
      ensures okStatements >= 1 + |adds| ==> (failed <==> !Known(pid, adds))
    {
      hide Sorted, Positions, Items, Others, SlotReferences, MaxPosition;
      ghost var start, next := slots, MaxPosition(slots, pid) + 1;
      var maxPos := MaxPosition(slots, pid);
      for i := 0 to |adds|
        invariant SlotReferences(slots, playlists, songIds) && playlists == old(playlists) && songIds == old(songIds)
        invariant Items(slots, pid) == Items(start, pid) + adds[..i] && Others(slots, pid) == Others(start, pid)
        invariant Sorted(Positions(slots, pid)) == Sorted(Positions(start, pid)) + Range(next, i)
        invariant forall p | p in Positions(slots, pid) :: p < next + i
        invariant forall id | id in adds[..i] :: id in songIds && pid in playlists
      {
        InsertLast(slots, pid, maxPos + 1 + i, adds[i]);
        assert adds[i] in adds;
        if okStatements < 2 + i || !Insertable(pid, maxPos + 1 + i, adds[i]) {
          return true;
        }
        InsertKeepsReferences(slots, playlists, songIds, Slot(pid, maxPos + 1 + i), adds[i]);
        assert adds[..i + 1] == adds[..i] + [adds[i]];
        assert Range(next, i + 1) == Range(next, i) + [next + i];
        slots := slots[Slot(pid, maxPos + 1 + i) := adds[i]];
      }
      assert adds[..|adds|] == adds;
      return false;
    }

    /** resequencePlaylist: deletes the playlist's rows and inserts them again at 0, 1, 2, ... */
    method Resequence(pid: Id, okStatements: int) returns (failed: bool)
      requires SlotReferences(slots, playlists, songIds)
      modifies this`slots
      ensures !failed ==> SlotReferences(slots, playlists, songIds)
      ensures !failed ==> Items(slots, pid) == Items(old(slots), pid) && Others(slots, pid) == Others(old(slots), pid)
      ensures !failed ==> Sorted(Positions(slots, pid)) == UpTo(|Items(old(slots), pid)|)
      ensures okStatements >= 2 + |Items(old(slots), pid)| ==> !failed
      ensures !failed ==> okStatements >= 2 + |Items(old(slots), pid)|
    {
      hide Sorted, Positions, Items, Others, SlotReferences;
      if okStatements < 2 {
        return true;
      }
      var entries := Items(slots, pid);
      ItemsReferenced(slots, playlists, songIds, pid);
      OthersReferenced(slots, playlists, songIds, pid);
      slots := Others(slots, pid);
      NoneLeft(old(slots), pid);
      for i := 0 to |entries|
        invariant SlotReferences(slots, playlists, songIds) && playlists == old(playlists) && songIds == old(songIds)
        invariant Items(slots, pid) == entries[..i] && Others(slots, pid) == Others(old(slots), pid)
        invariant Sorted(Positions(slots, pid)) == UpTo(i)
        invariant forall p | p in Positions(slots, pid) :: p < i
        invariant i <= okStatements - 2
      {
        InsertLast(slots, pid, i, entries[i]);
        assert entries[i] in entries;
        if okStatements < 3 + i || !Insertable(pid, i, entries[i]) {
          return true;
        }
        InsertKeepsReferences(slots, playlists, songIds, Slot(pid, i), entries[i]);
        assert entries[..i + 1] == entries[..i] + [entries[i]];
        assert UpTo(i + 1) == UpTo(i) + [i];
        slots := slots[Slot(pid, i) := entries[i]];
      }
      assert entries[..|entries|] == entries;
      return false;
    }

    /** handleCreatePlaylist: a new playlist (`existing` false, `pid` drawn fresh) or the songs of one replaced. */
    method Create(user: string, existing: bool, pid: Id, name: string, songs: seq<Id>, okStatements: nat,
                  commit: Commit)
      returns (ok: bool)
      requires Valid() && (!existing ==> pid !in playlists)
      modifies this`slots, this`playlists, this`storedSlots, this`storedPlaylists, this`open
      ensures Valid() && (old(open) ==> !ok && open && slots == old(slots) && playlists == old(playlists))
      ensures !ok ==> storedSlots == old(storedSlots) && storedPlaylists == old(storedPlaylists)
      ensures !ok && !open ==> slots == old(slots) && playlists == old(playlists)
      ensures ok ==> !open
      ensures ok || open != old(open) ==>
        && Items(slots, pid) == songs && Contiguous(slots, pid) && Others(slots, pid) == Others(old(slots), pid)
        && playlists == Created(old(playlists), user, existing, pid, name)
      ensures !old(open) && okStatements >= |songs| + 3 ==>
        var accepted := |songs| <= 10000 && (existing || name != "")
          && forall id | id in songs :: id in songIds && (existing ==> pid in old(playlists));
        (ok <==> accepted && commit.Commits?) && (open <==> accepted && commit.StaysOpen?)
    {
      hide Sorted, Positions, Items, Others, SlotReferences, WithColumns;
      if |songs| > MAX_PLAYLIST_SONGS || (!existing && name == "") || open || okStatements < 1 {
        return false;
      }
      var saved, savedPlaylists := slots, playlists;
      NoneLeft(slots, pid);
      ColumnsOfOwner(playlists, pid, user, name, None, None);
      var failed := Clear(user, existing, pid, name, okStatements - 1);
      if !failed {
        failed := Fill(pid, songs, okStatements - (if existing && name != "" then 3 else 2));
      }
      if failed {
        slots, playlists := saved, savedPlaylists;
        return false;
      }
      UpToIsContiguous(slots, pid, |songs|);
      ok := End(commit);
    }

    /** The playlist's row inserted, or renamed and its songs deleted. */
    method Clear(user: string, existing: bool, pid: Id, name: string, okStatements: int) returns (failed: bool)
      requires SlotReferences(slots, playlists, songIds) && (!existing ==> pid !in playlists)
      modifies this`slots, this`playlists
      ensures !failed ==> SlotReferences(slots, playlists, songIds) && slots == Others(old(slots), pid)
      ensures !failed ==> playlists == Created(old(playlists), user, existing, pid, name)
      ensures failed <==> okStatements < if existing && name != "" then 2 else 1
    {
      hide SlotReferences, Others, WithColumns;
      if okStatements < 1 {
        return true;
      }
      if !existing {
        NoRowsYet(slots, playlists, songIds, pid);
        SamePlaylists(slots, playlists, playlists[pid := PlaylistRow(user, name, "", false)], songIds);
        playlists := playlists[pid := PlaylistRow(user, name, "", false)];
        return false;
      }
      if name != "" {
        ColumnsOfOwner(playlists, pid, user, name, None, None);
        SamePlaylists(slots, playlists, WithColumns(playlists, pid, user, name, None, None), songIds);
        playlists := WithColumns(playlists, pid, user, name, None, None);
        if okStatements < 2 {
          return true;
        }
      } else {
        NoColumns(playlists, pid, user);
      }
      OthersReferenced(slots, playlists, songIds, pid);
      slots := Others(slots, pid);
      return false;
    }

    /** INSERT the songs at 0, 1, 2, ... of a playlist without songs. */
    method Fill(pid: Id, songs: seq<Id>, okStatements: int) returns (failed: bool)
      requires SlotReferences(slots, playlists, songIds) && Others(slots, pid) == slots
      modifies this`slots
      ensures !failed ==> SlotReferences(slots, playlists, songIds) && Known(pid, songs)
      ensures !failed ==> Items(slots, pid) == songs && Others(slots, pid) == Others(old(slots), pid)
      ensures !failed ==> Sorted(Positions(slots, pid)) == UpTo(|songs|)
      ensures failed <==> !Known(pid, songs) || okStatements < |songs|
    {
      hide Sorted, Positions, Items, Others, SlotReferences;
      ghost var start := slots;
      NoneLeft(slots, pid);
      for i := 0 to |songs|
        invariant SlotReferences(slots, playlists, songIds) && (i == 0 || i <= okStatements)
        invariant Items(slots, pid) == songs[..i] && Others(slots, pid) == Others(start, pid)
        invariant Sorted(Positions(slots, pid)) == UpTo(i)
        invariant forall p | p in Positions(slots, pid) :: p < i
        invariant Known(pid, songs[..i])
      {
        InsertLast(slots, pid, i, songs[i]);
        assert songs[i] in songs;
        if okStatements < i + 1 || !Insertable(pid, i, songs[i]) {
          return true;
        }
        InsertKeepsReferences(slots, playlists, songIds, Slot(pid, i), songs[i]);
        assert songs[..i + 1] == songs[..i] + [songs[i]];
        assert UpTo(i + 1) == UpTo(i) + [i];
        slots := slots[Slot(pid, i) := songs[i]];
      }
      assert songs[..|songs|] == songs;
      return okStatements < |songs|;
    }
  }

  lemma NoRowsYet(slots: map<Slot, Id>, playlists: Playlists, ids: set<Id>, pid: Id)
    requires SlotReferences(slots, playlists, ids) && pid !in playlists
    ensures Others(slots, pid) == slots
  {
  }

  lemma UpToIsContiguous(slots: map<Slot, Id>, pid: Id, n: nat)
    requires Sorted(Positions(slots, pid)) == UpTo(n)
    ensures Contiguous(slots, pid)
  {
    SortedIsSorted(Positions(slots, pid));
  }

  /* ---------------- what users get ---------------- */

  /** The list without the entries at these indices. */
  function DropIndices(items: seq<Id>, removed: set<int>, k: nat): seq<Id>
    requires k <= |items|
    decreases |items| - k
  {
    if k == |items| then []
    else (if k in removed then [] else [items[k]]) + DropIndices(items, removed, k + 1)
  }

  lemma {:induction false} KeptFrom(slots: map<Slot, Id>, pid: Id, removed: set<int>, k: nat)
    requires Contiguous(slots, pid) && k <= |Items(slots, pid)|
    ensures forall p | p in Without(Range(k, |Items(slots, pid)| - k), removed) :: Slot(pid, p) in slots
    ensures SongsAt(slots, pid, Without(Range(k, |Items(slots, pid)| - k), removed)) ==
      DropIndices(Items(slots, pid), removed, k)
    decreases |Items(slots, pid)| - k
  {
    var n := |Items(slots, pid)|;
    if k < n {
      KeptFrom(slots, pid, removed, k + 1);
      PositionsFilled(slots, pid);
      hide Items, Sorted, Positions, Contiguous;
      ItemAt(slots, pid, k);
      assert Range(k, n - k) == [k] + Range(k + 1, n - k - 1);
    }
  }

  lemma ItemAt(slots: map<Slot, Id>, pid: Id, k: nat)
    requires Contiguous(slots, pid) && k < |Items(slots, pid)|
    ensures Slot(pid, k) in slots && slots[Slot(pid, k)] == Items(slots, pid)[k]
  {
    PositionsFilled(slots, pid);
    SortedIsSorted(Positions(slots, pid));
    assert Sorted(Positions(slots, pid))[k] == k;
    assert k in Sorted(Positions(slots, pid));
  }

  /** On a playlist numbered 0, 1, 2, ... any removal request, with duplicates and out-of-range indices, removes
      exactly the entries listed at those indices. */
  lemma ContiguousRemoval(slots: map<Slot, Id>, pid: Id, removed: set<int>)
    requires Contiguous(slots, pid)
    ensures Kept(slots, pid, removed) == DropIndices(Items(slots, pid), removed, 0)
  {
    KeptFrom(slots, pid, removed, 0);
    SortedIsSorted(Positions(slots, pid));
    assert Sorted(Positions(slots, pid)) == Range(0, |Items(slots, pid)|);
  }

  /** An update of a playlist numbered from 0 is the edit its requests describe, and leaves it numbered from 0. */
  lemma UpdateOfContiguous(before: map<Slot, Id>, after: map<Slot, Id>, pid: Id, removeArgs: seq<Option<int>>,
                           adds: seq<Id>)
    requires Contiguous(before, pid) && UpdatedTo(before, after, pid, removeArgs, adds)
    ensures Items(after, pid) == DropIndices(Items(before, pid), Requested(removeArgs), 0) + adds
    ensures Contiguous(after, pid)
  {
    ContiguousRemoval(before, pid, Requested(removeArgs));
    SortedIsSorted(Positions(before, pid));
    if removeArgs == [] {
      NoRequests();
      KeepAll(before, pid);
      UpdatePositions(before, pid, |adds|);
    }
    hide Items, Sorted, Positions, Kept, DropIndices;
    PositionCount(before, pid);
    UpToIsContiguous(after, pid, |Kept(before, pid, Requested(removeArgs))| + |adds|);
  }

  /** Any removal request, even one with no valid index, renumbers a playlist with gaps. */
  lemma RemovalRestoresContiguity(before: map<Slot, Id>, after: map<Slot, Id>, pid: Id, removeArgs: seq<Option<int>>,
                                  adds: seq<Id>)
    requires removeArgs != [] && UpdatedTo(before, after, pid, removeArgs, adds)
    ensures Contiguous(after, pid)
  {
    hide Items, Sorted, Positions, Kept;
    UpToIsContiguous(after, pid, |Kept(before, pid, Requested(removeArgs))| + |adds|);
  }

  lemma DropOne(ps: seq<int>, k: nat)
    requires Increasing(ps) && k < |ps|
    ensures Increasing(ps[..k] + ps[k + 1..]) && Elements(ps[..k] + ps[k + 1..]) == Elements(ps) - {ps[k]}
  {
    var r := ps[..k] + ps[k + 1..];
    forall x | x in Elements(ps) - {ps[k]} ensures x in Elements(r) {
      var i :| 0 <= i < |ps| && ps[i] == x;
      assert r[if i < k then i else i - 1] == x;
    }
    forall i | 0 <= i < |r| ensures r[i] in Elements(ps) - {ps[k]} {
      assert r[i] == ps[if i < k then i else i + 1];
    }
  }

  /** Removing index k removes the k-th listed entry if and only if that entry's position is k: on a playlist with a
      gap before it, another entry, or none, goes instead. */
  lemma RemovalHitsListedIff(slots: map<Slot, Id>, pid: Id, k: nat)
    requires k < |Sorted(Positions(slots, pid))|
    ensures var ps := Sorted(Positions(slots, pid));
      Sorted(Positions(RemoveAt(slots, pid, {k}), pid)) == ps[..k] + ps[k + 1..] <==> ps[k] == k
  {
    var s := Positions(slots, pid);
    var ps := Sorted(s);
    RemoveAtEffect(slots, pid, {k});
    SortedIsSorted(s);
    SortedIsSorted(s - {k});
    DropOne(ps, k);
    hide Sorted, Positions, RemoveAt, Increasing;
    assert ps[k] in Elements(ps);
    if ps[k] == k {
      IncreasingUnique(Sorted(s - {k}), ps[..k] + ps[k + 1..]);
    } else {
      assert ps[k] in s - {k} && ps[k] !in Elements(ps[..k] + ps[k + 1..]);
    }
  }

  /** The list without the songs of a set. */
  function Surviving(items: seq<Id>, gone: set<Id>): seq<Id> {
    if items == [] then []
    else (if items[0] in gone then [] else [items[0]]) + Surviving(items[1..], gone)
  }

  ghost function PositionsOfSongs(slots: map<Slot, Id>, pid: Id, gone: set<Id>): set<int> {
    set s | s in slots && s.playlistId == pid && slots[s] in gone :: s.position
  }

  lemma {:induction false} WithoutSongs(slots: map<Slot, Id>, pid: Id, gone: set<Id>, ps: seq<int>)
    requires forall p | p in ps :: Slot(pid, p) in slots
    ensures var kept := Without(ps, PositionsOfSongs(slots, pid, gone));
      && (forall p | p in kept :: Slot(pid, p) in slots)
      && SongsAt(slots, pid, kept) == Surviving(SongsAt(slots, pid, ps), gone)
  {
    if ps != [] {
      WithoutSongs(slots, pid, gone, ps[1..]);
      assert Slot(pid, ps[0]) in slots;
      assert ps[0] in PositionsOfSongs(slots, pid, gone) <==> slots[Slot(pid, ps[0])] in gone;
      assert SongsAt(slots, pid, ps)[1..] == SongsAt(slots, pid, ps[1..]);
    }
  }

  /** The scanner's deletion of songs leaves every playlist's other songs listed in the same order. */
  lemma DeletionKeepsOrder(slots: map<Slot, Id>, pid: Id, gone: set<Id>)
    ensures Items(DeleteSlots(slots, gone), pid) == Surviving(Items(slots, pid), gone)
  {
    var removed := PositionsOfSongs(slots, pid, gone);
    SamePlaylistRows(slots, pid, gone);
    RemoveAtEffect(slots, pid, removed);
    PositionsFilled(slots, pid);
    WithoutSongs(slots, pid, gone, Sorted(Positions(slots, pid)));
  }

  lemma SamePlaylistRows(slots: map<Slot, Id>, pid: Id, gone: set<Id>)
    ensures Items(DeleteSlots(slots, gone), pid) == Items(RemoveAt(slots, pid, PositionsOfSongs(slots, pid, gone)), pid)
  {
    var a, b := DeleteSlots(slots, gone), RemoveAt(slots, pid, PositionsOfSongs(slots, pid, gone));
    forall s | s in slots && s.playlistId == pid ensures s in a <==> s in b {
      assert s == Slot(pid, s.position);
      if s.position in PositionsOfSongs(slots, pid, gone) {
        var r :| r in slots && r.playlistId == pid && slots[r] in gone && r.position == s.position;
        assert r == s;
      }
    }
    assert Positions(a, pid) == Positions(b, pid);
    PositionsFilled(a, pid);
    PositionsFilled(b, pid);
  }

  /** After a scan removed the song at position 0, removing the second listed song (index 1) removes the first. */
  lemma GapShiftsRemoval()
    ensures var before := map[Slot(0, 0) := 6, Slot(0, 1) := 7, Slot(0, 2) := 8];
      var slots := DeleteSlots(before, {6});
      Items(slots, 0) == [7, 8] && Items(RemoveAt(slots, 0, {1}), 0) == [8]
  {
    var slots := map[Slot(0, 1) := 7, Slot(0, 2) := 8];
    assert DeleteSlots(map[Slot(0, 0) := 6, Slot(0, 1) := 7, Slot(0, 2) := 8], {6}) == slots;
    assert Slot(0, 1) in slots && Slot(0, 2) in slots;
    SortedIs(Positions(slots, 0), [1, 2]);
    var after := RemoveAt(slots, 0, {1});
    assert Slot(0, 2) in after;
    SortedIs(Positions(after, 0), [2]);
  }

  /** A song is added and the COMMIT fails with the transaction left open: the request is answered with an error, the
      song is in the playlist the write connection sees and in none that is stored, and the same request made again is
      refused. */
  method PendingInput() returns (t: Table, first: bool, second: bool)
    ensures !first && t.storedSlots == map[] && Items(t.slots, 0) == [6] && !second
  {
    hide UpdatedTo, SlotReferences, WithColumns;
    var none: seq<Option<int>> := [];
    t := new Table({6}, map[0 := PlaylistRow("u", "p", "", false)]);
    assert Items(t.slots, 0) == [] by {
      SortedIs(Positions(t.slots, 0), []);
    }
    first := t.Update("u", 0, "", None, None, none, [6], 8, StaysOpen);
    assert t.open;
    AppendedTo(map[], t.slots, 0, [6]);
    second := t.Update("u", 0, "", None, None, none, [6], 8, Commits);
  }

  lemma AppendedTo(before: map<Slot, Id>, after: map<Slot, Id>, pid: Id, adds: seq<Id>)
    requires UpdatedTo(before, after, pid, [], adds)
    ensures Items(after, pid) == Items(before, pid) + adds
  {
    NoRequests();
    KeepAll(before, pid);
  }
}
