/** The API-key cache over the credential table: how stale an accepted key can be. */
module KeyCache {
  import opened Options

  type Key = nat
  type Hash = nat
  type User = nat

  /** Whether a stored hash is that of a key. */
  type Matcher = (Hash, Key) -> bool

  const TTL: int := 5 * 60 * 1_000_000_000

  datatype Credential = Credential(id: nat, username: User, hash: Hash, expires: Option<int>)

  datatype Entry = Entry(username: User, expiry: int)

  datatype State = State(table: seq<Credential>, cache: map<Key, Entry>)

  /** Everything that touches the table or the cache.  A request reads the clock when it comes and again when it
      stores what it found; `rows` is whether reading the table succeeds.  Rows are deleted through the admin
      interface and through the management pages, which do not know the cache. */
  datatype Event =
    | Request(key: Key, at: int, done: int, rows: bool)
    | Insert(row: Credential, at: int)
    | Renew(id: nat, username: User, expires: int, at: int)
    | AdminDelete(id: nat, username: User, at: int)
    | PageDelete(id: nat, username: User, at: int)

  function Ends(e: Event): int {
    if e.Request? then e.done else e.at
  }

  predicate Live(c: Credential, now: int) {
    c.expires.Some? ==> c.expires.value > now
  }

  /** The first live row the key matches. */
  function FirstMatch(matches: Matcher, table: seq<Credential>, key: Key, now: int): (r: Option<User>)
    ensures r.Some? <==> exists c :: c in table && Live(c, now) && matches(c.hash, key)
    ensures r.Some? ==> exists c :: c in table && Live(c, now) && matches(c.hash, key) && c.username == r.value
  {
    if table == [] then None
    else if Live(table[0], now) && matches(table[0].hash, key) then
      assert table[0] in table;
      Some(table[0].username)
    else
      var r := FirstMatch(matches, table[1..], key, now);
      assert forall c :: c in table <==> c == table[0] || c in table[1..];
      r
  }

  /** loadAllCredentials, before the rows are filtered by expiry; a failing read finds none. */
  function Loaded(table: seq<Credential>, rows: bool): seq<Credential> {
    if rows then table else []
  }

  predicate Hit(s: State, key: Key, now: int) {
    key in s.cache && now < s.cache[key].expiry
  }

  function Answer(matches: Matcher, s: State, key: Key, at: int, rows: bool): Option<User> {
    if Hit(s, key, at) then Some(s.cache[key].username) else FirstMatch(matches, Loaded(s.table, rows), key, at)
  }

  predicate Owned(c: Credential, id: nat, username: User) {
    c.id == id && c.username == username
  }

  function Renewed(table: seq<Credential>, id: nat, username: User, expires: int): (r: seq<Credential>)
    ensures |r| == |table|
  {
    seq(|table|, i requires 0 <= i < |table| =>
      if Owned(table[i], id, username) then table[i].(expires := Some(expires)) else table[i])
  }

  function Without(table: seq<Credential>, id: nat, username: User): (r: seq<Credential>)
    ensures forall c :: c in r <==> c in table && !Owned(c, id, username)
  {
    if table == [] then []
    else if Owned(table[0], id, username) then Without(table[1..], id, username)
    else [table[0]] + Without(table[1..], id, username)
  }

  /** A delete through the admin interface that found its row: the only event that flushes. */
  predicate Flushes(s: State, e: Event) {
    e.AdminDelete? && Without(s.table, e.id, e.username) != s.table
  }

  function Looked(matches: Matcher, s: State, key: Key, at: int, done: int, rows: bool): map<Key, Entry> {
    if Hit(s, key, at) then s.cache
    else
      match FirstMatch(matches, Loaded(s.table, rows), key, at)
      case Some(u) => s.cache[key := Entry(u, done + TTL)]
      case None => s.cache - {key}
  }

  function Step(matches: Matcher, s: State, e: Event): State {
    match e
    case Request(key, at, done, rows) => State(s.table, Looked(matches, s, key, at, done, rows))
    case Insert(row, _) => State(s.table + [row], s.cache)
    case Renew(id, username, expires, _) => State(Renewed(s.table, id, username, expires), s.cache)
    case AdminDelete(id, username, _) => State(Without(s.table, id, username), if Flushes(s, e) then map[] else s.cache)
    case PageDelete(id, username, _) => State(Without(s.table, id, username), s.cache)
  }

  /* ---------------- the server ---------------- */

  class Server {
    const matches: Matcher
    var credentials: seq<Credential>
    var cache: map<Key, Entry>

    constructor (matches: Matcher, credentials: seq<Credential>)
      ensures Contents() == State(credentials, map[]) && this.matches == matches
    {
      this.matches := matches;
      this.credentials := credentials;
      cache := map[];
    }

    function Contents(): State
      reads this
    {
      State(credentials, cache)
    }

    /** authenticateAPIKey */
    method AuthenticateAPIKey(key: Key, at: int, done: int, rows: bool) returns (user: Option<User>)
      modifies `cache
      ensures user == Answer(matches, old(Contents()), key, at, rows)
      ensures Contents() == Step(matches, old(Contents()), Request(key, at, done, rows))
    {
      if key in cache {
        if at < cache[key].expiry {
          return Some(cache[key].username);
        }
        cache := cache - {key};
      }
      assert cache == old(cache) - {key};
      if !rows {
        return None;
      }
      for i := 0 to |credentials|
        invariant cache == old(cache) - {key}
        invariant FirstMatch(matches, credentials, key, at) == FirstMatch(matches, credentials[i..], key, at)
      {
        var c := credentials[i];
        assert credentials[i..][0] == c && credentials[i..][1..] == credentials[i + 1..];
        if Live(c, at) && matches(c.hash, key) {
          cache := cache[key := Entry(c.username, done + TTL)];
          assert cache == old(cache)[key := Entry(c.username, done + TTL)];
          return Some(c.username);
        }
      }
      return None;
    }

    /** flushAPIKeyCache */
    method FlushAPIKeyCache()
      modifies `cache
      ensures cache == map[]
    {
      while cache.Keys != {}
        decreases |cache.Keys|
      {
        var key :| key in cache.Keys;
        ghost var before := cache.Keys;
        cache := cache - {key};
        assert cache.Keys == before - {key};
      }
    }

    /** handleAdminDeleteCredential */
    method DeleteCredential(id: nat, username: User, at: int) returns (found: bool)
      modifies this
      ensures Contents() == Step(matches, old(Contents()), AdminDelete(id, username, at))
      ensures found == Flushes(old(Contents()), AdminDelete(id, username, at))
    {
      found := Without(credentials, id, username) != credentials;
      credentials := Without(credentials, id, username);
      if !found {
        return;
      }
      FlushAPIKeyCache();
    }
  }

  /* ---------------- runs ---------------- */

  function StateAt(matches: Matcher, table: seq<Credential>, events: seq<Event>, n: nat): State
    requires n <= |events|
  {
    if n == 0 then State(table, map[]) else Step(matches, StateAt(matches, table, events, n - 1), events[n - 1])
  }

  /** One event at a time on one clock. */
  ghost predicate InOrder(events: seq<Event>) {
    && (forall i | 0 <= i < |events| :: events[i].at <= Ends(events[i]))
    && forall i, j | 0 <= i < j < |events| :: Ends(events[i]) <= events[j].at
  }

  /** Request m scanned the table and found a live row of the user that the key matches; no flush between m and n. */
  ghost predicate Vouches(matches: Matcher, table: seq<Credential>, events: seq<Event>, m: nat, n: nat, key: Key,
                          user: User)
    requires n <= |events|
  {
    && m < |events| && m <= n && events[m].Request? && events[m].key == key
    && events[m].rows
    && FirstMatch(matches, StateAt(matches, table, events, m).table, key, events[m].at) == Some(user)
    && forall j | m < j < n :: !Flushes(StateAt(matches, table, events, j), events[j])
  }

  /** Where an entry comes from: this event looked the key up, or the entry was there and is not flushed. */
  lemma EntryComes(matches: Matcher, s: State, e: Event, key: Key)
    requires key in Step(matches, s, e).cache
    ensures var entry := Step(matches, s, e).cache[key];
      || (e.Request? && e.key == key && e.rows && FirstMatch(matches, s.table, key, e.at) == Some(entry.username)
          && entry.expiry == Ends(e) + TTL)
      || (key in s.cache && s.cache[key] == entry && !Flushes(s, e))
  {
    NoRowsNoMatch(matches, key, if e.Request? then e.at else 0);
    hide FirstMatch, Live, Without, Renewed;
  }

  lemma NoRowsNoMatch(matches: Matcher, key: Key, at: int)
    ensures FirstMatch(matches, [], key, at) == None
  {
  }

  /** Every cache entry goes back to a request that found the row, and no flush came since. */
  lemma {:induction false} EntryVouched(matches: Matcher, table: seq<Credential>, events: seq<Event>, n: nat,
                                        key: Key)
    returns (m: nat)
    requires n <= |events| && key in StateAt(matches, table, events, n).cache
    ensures m < n && Vouches(matches, table, events, m, n, key, StateAt(matches, table, events, n).cache[key].username)
    ensures StateAt(matches, table, events, n).cache[key].expiry == Ends(events[m]) + TTL
  {
    hide FirstMatch, Step, Flushes;
    var s, e := StateAt(matches, table, events, n - 1), events[n - 1];
    EntryComes(matches, s, e, key);
    if key in s.cache && s.cache[key] == StateAt(matches, table, events, n).cache[key] && !Flushes(s, e) {
      m := EntryVouched(matches, table, events, n - 1, key);
    } else {
      m := n - 1;
    }
  }

  /** Whoever is let in had a live matching row when request m scanned the table: m is this request or one that ended
      less than five minutes ago, and no flush came in between. */
  lemma AcceptedIsRecent(matches: Matcher, table: seq<Credential>, events: seq<Event>, n: nat) returns (m: nat)
    requires n < |events| && events[n].Request? && InOrder(events)
    requires Answer(matches, StateAt(matches, table, events, n), events[n].key, events[n].at, events[n].rows).Some?
    ensures var user :=
        Answer(matches, StateAt(matches, table, events, n), events[n].key, events[n].at, events[n].rows).value;
      Vouches(matches, table, events, m, n, events[n].key, user)
    ensures m == n || (m < n && Ends(events[m]) <= events[n].at < Ends(events[m]) + 300_000_000_000)
  {
    hide FirstMatch, Live;
    if Hit(StateAt(matches, table, events, n), events[n].key, events[n].at) {
      m := EntryVouched(matches, table, events, n, events[n].key);
    } else {
      m := n;
    }
  }

  /** After a flush a key is accepted only on a row seen after it. */
  lemma AfterFlush(matches: Matcher, table: seq<Credential>, events: seq<Event>, j: nat, n: nat) returns (m: nat)
    requires j < n < |events| && events[n].Request? && InOrder(events)
    requires Flushes(StateAt(matches, table, events, j), events[j])
    requires Answer(matches, StateAt(matches, table, events, n), events[n].key, events[n].at, events[n].rows).Some?
    ensures j < m <= n && events[m].Request? && events[j].at <= events[m].at
    ensures var user :=
        Answer(matches, StateAt(matches, table, events, n), events[n].key, events[n].at, events[n].rows).value;
      FirstMatch(matches, StateAt(matches, table, events, m).table, events[n].key, events[m].at) == Some(user)
  {
    hide FirstMatch, Live, Answer, StateAt;
    m := AcceptedIsRecent(matches, table, events, n);
    assert m != j;
  }

  /** Once a delete has flushed and no row matches the key any more, it is refused for as long as none is added. */
  lemma {:induction false} NoRowReturns(matches: Matcher, table: seq<Credential>, events: seq<Event>, from: nat,
                                        n: nat, key: Key)
    requires from <= n <= |events|
    requires forall c | c in StateAt(matches, table, events, from).table :: !matches(c.hash, key)
    requires forall i | from <= i < n && events[i].Insert? :: !matches(events[i].row.hash, key)
    ensures forall c | c in StateAt(matches, table, events, n).table :: !matches(c.hash, key)
    decreases n
  {
    if from < n {
      NoRowReturns(matches, table, events, from, n - 1, key);
    }
  }

  lemma DeletedKeyRefused(matches: Matcher, table: seq<Credential>, events: seq<Event>, j: nat, n: nat)
    requires j < n < |events| && events[n].Request? && InOrder(events)
    requires Flushes(StateAt(matches, table, events, j), events[j])
    requires forall c | c in StateAt(matches, table, events, j + 1).table :: !matches(c.hash, events[n].key)
    requires forall i | j < i < n && events[i].Insert? :: !matches(events[i].row.hash, events[n].key)
    ensures Answer(matches, StateAt(matches, table, events, n), events[n].key, events[n].at, events[n].rows) == None
  {
    hide Answer, StateAt, Flushes;
    if Answer(matches, StateAt(matches, table, events, n), events[n].key, events[n].at, events[n].rows).Some? {
      var m := AfterFlush(matches, table, events, j, n);
      NoRowReturns(matches, table, events, j + 1, m, events[n].key);
      assert false;
    }
  }

  /** Row i is the first that the key matches and that has not expired. */
  ghost predicate FirstRow(matches: Matcher, table: seq<Credential>, key: Key, at: int, i: nat) {
    && i < |table| && Accepts(matches, table[i], key, at)
    && forall j | 0 <= j < i :: !Accepts(matches, table[j], key, at)
  }

  ghost predicate Accepts(matches: Matcher, c: Credential, key: Key, at: int) {
    matches(c.hash, key) && (c.expires == None || c.expires.value > at)
  }

  lemma {:induction false} FirstMatchIs(matches: Matcher, table: seq<Credential>, key: Key, at: int)
    ensures FirstMatch(matches, table, key, at).None? ==> forall c | c in table :: !Accepts(matches, c, key, at)
    ensures FirstMatch(matches, table, key, at).Some? ==>
      exists i: nat ::
        FirstRow(matches, table, key, at, i) && FirstMatch(matches, table, key, at) == Some(table[i].username)
  {
    if table != [] {
      var rest := table[1..];
      FirstMatchIs(matches, rest, key, at);
      if Accepts(matches, table[0], key, at) {
        assert FirstRow(matches, table, key, at, 0);
      } else if FirstMatch(matches, rest, key, at).Some? {
        var i: nat :| FirstRow(matches, rest, key, at, i) &&
          FirstMatch(matches, rest, key, at) == Some(rest[i].username);
        assert forall j | 0 < j <= i + 1 :: table[j] == rest[j - 1];
        assert FirstRow(matches, table, key, at, i + 1);
      }
    }
  }

  /** A key with an entry that has not ended is answered from it.  Any other is accepted exactly when the table can be
      read and has a row that the key matches and that has not expired, and is then taken for the first such row's
      user. */
  lemma AnswerIs(matches: Matcher, s: State, key: Key, at: int, rows: bool)
    ensures var r := Answer(matches, s, key, at, rows);
      if key in s.cache && at < s.cache[key].expiry then r == Some(s.cache[key].username)
      else
        && (r.Some? <==> rows && exists c :: c in s.table && Accepts(matches, c, key, at))
        && (r.Some? ==> exists i: nat :: FirstRow(matches, s.table, key, at, i) && r == Some(s.table[i].username))
  {
    FirstMatchIs(matches, s.table, key, at);
    NoRowsNoMatch(matches, key, at);
    hide FirstMatch, Accepts, Live;
    if FirstMatch(matches, s.table, key, at).Some? {
      var i: nat :| FirstRow(matches, s.table, key, at, i) && FirstMatch(matches, s.table, key, at) ==
        Some(s.table[i].username);
      assert s.table[i] in s.table;
    }
  }

  /** A request answered from an entry changes nothing, so the entry ends when it did.  Any other leaves an entry
      exactly when it is accepted, for the user it was taken for and for five minutes from its end.  Other keys and
      the table stay as they were. */
  lemma RequestCaches(matches: Matcher, s: State, key: Key, at: int, done: int, rows: bool)
    ensures var s', r := Step(matches, s, Request(key, at, done, rows)), Answer(matches, s, key, at, rows);
      && s'.table == s.table
      && (forall k | k != key :: (k in s'.cache <==> k in s.cache) && (k in s.cache ==> s'.cache[k] == s.cache[k]))
      && if key in s.cache && at < s.cache[key].expiry then s'.cache == s.cache
         else
           && (key in s'.cache <==> r.Some?)
           && (r.Some? ==> key in s'.cache && s'.cache[key] == Entry(r.value, done + 300_000_000_000))
  {
    hide FirstMatch;
  }

  /** A key with a live row is refused only when the table cannot be read. */
  lemma LiveKeyAccepted(matches: Matcher, s: State, key: Key, at: int, rows: bool, c: Credential)
    requires c in s.table && (c.expires == None || c.expires.value > at) && matches(c.hash, key)
    ensures Answer(matches, s, key, at, rows).None? <==> !rows && !(key in s.cache && at < s.cache[key].expiry)
  {
    AnswerIs(matches, s, key, at, rows);
    hide Answer;
    assert Accepts(matches, c, key, at);
  }

  /** A renewed key is accepted until the new expiry, and the rows of others stay as they were. */
  lemma RenewedAccepted(matches: Matcher, s: State, c: Credential, key: Key, expires: int, at: int)
    requires c in s.table && matches(c.hash, key) && at < expires
    ensures var s' := Step(matches, s, Renew(c.id, c.username, expires, at));
      Answer(matches, s', key, at, true).Some? && s'.cache == s.cache
    ensures forall d | d in s.table && (d.id != c.id || d.username != c.username) ::
      d in Step(matches, s, Renew(c.id, c.username, expires, at)).table
  {
    var s' := Step(matches, s, Renew(c.id, c.username, expires, at));
    forall d | d in s.table && (d.id != c.id || d.username != c.username) ensures d in s'.table {
      var i :| 0 <= i < |s.table| && s.table[i] == d;
      assert s'.table[i] == d;
    }
    var k :| 0 <= k < |s.table| && s.table[k] == c;
    assert s'.table[k] == c.(expires := Some(expires));
    LiveKeyAccepted(matches, s', key, at, true, s'.table[k]);
  }

  /** Both deletes remove exactly the user's row of that id; the cache is emptied exactly by an admin delete that
      found one.  A new row changes nothing else. */
  lemma DeletesOwnRow(matches: Matcher, s: State, id: nat, username: User, at: int, row: Credential)
    ensures var admin := Step(matches, s, AdminDelete(id, username, at));
      var page := Step(matches, s, PageDelete(id, username, at));
      && (forall c :: c in admin.table <==> c in s.table && !(c.id == id && c.username == username))
      && page.table == admin.table && page.cache == s.cache
      && admin.cache == (if exists c :: c in s.table && c.id == id && c.username == username then map[] else s.cache)
    ensures Step(matches, s, Insert(row, at)) == State(s.table + [row], s.cache)
  {
    WithoutAll(s.table, id, username);
  }

  lemma {:induction false} WithoutAll(table: seq<Credential>, id: nat, username: User)
    ensures Without(table, id, username) == table <==> forall c | c in table :: !Owned(c, id, username)
    ensures |Without(table, id, username)| <= |table|
  {
    if table != [] {
      WithoutAll(table[1..], id, username);
      assert table == [table[0]] + table[1..];
      if Owned(table[0], id, username) {
        assert table[0] in table;
      }
    }
  }

  /** The bound is met: a key deleted through the management pages is still accepted just before its entry ends. */
  lemma PageDeleteStillAccepted(row: Credential)
    requires row.expires == None
    ensures var events := [Request(7, 0, 0, true), PageDelete(row.id, row.username, 1),
                           Request(7, TTL - 1, TTL - 1, true)];
      var matches := (h: Hash, k: Key) => true;
      && InOrder(events) && StateAt(matches, [row], events, 2).table == []
      && Answer(matches, StateAt(matches, [row], events, 2), 7, TTL - 1, true) == Some(row.username)
  {
    var events := [Request(7, 0, 0, true), PageDelete(row.id, row.username, 1), Request(7, TTL - 1, TTL - 1, true)];
    var matches := (h: Hash, k: Key) => true;
    var s0 := StateAt(matches, [row], events, 0);
    assert FirstMatch(matches, [row], 7, 0) == Some(row.username);
    assert Step(matches, s0, events[0]) == State([row], map[7 := Entry(row.username, TTL)]);
    var s1 := StateAt(matches, [row], events, 1);
    assert [row][1..] == [] && Without([row], row.id, row.username) == [];
    assert Step(matches, s1, events[1]) == State([], s1.cache);
  }
}
