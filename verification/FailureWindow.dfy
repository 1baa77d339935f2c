/** Counting failed logins per address in fixed windows. */
module FailureWindow {
  type Address = nat

  const LIMIT: nat := 10
  const WINDOW: int := 5 * 60 * 1_000_000_000

  datatype Entry = Entry(count: int, resetAt: int)

  /** What a map without the address stands for. */
  const UNKNOWN := Entry(0, 0)

  /** What came of a request that was let through; a failure is recorded between two readings of the clock. */
  datatype Outcome = Succeeded | Incomplete | Failed(at: int, after: int)

  /** One request: two readings of the clock at the check, then its outcome. */
  datatype Attempt = Attempt(at: int, after: int, outcome: Outcome)

  function Checked(e: Entry, at: int, after: int): Entry {
    if at > e.resetAt then Entry(0, after + WINDOW) else e
  }

  function Recorded(e: Entry, at: int, after: int): Entry {
    if at > e.resetAt then Entry(1, after + WINDOW) else e.(count := e.count + 1)
  }

  predicate Refused(e: Entry, a: Attempt) {
    Checked(e, a.at, a.after).count >= LIMIT
  }

  function After(e: Entry, a: Attempt): Entry {
    var c := Checked(e, a.at, a.after);
    if c.count >= LIMIT then c
    else
      match a.outcome
      case Succeeded => UNKNOWN
      case Incomplete => c
      case Failed(at, after) => Recorded(c, at, after)
  }

  /* ---------------- the server ---------------- */

  function Of(entries: map<Address, Entry>, ip: Address): Entry {
    if ip in entries then entries[ip] else UNKNOWN
  }

  class Limiter {
    var entries: map<Address, Entry>

    constructor ()
      ensures forall ip :: Of(entries, ip) == UNKNOWN
    {
      entries := map[];
    }

    /** checkRateLimit */
    method CheckRateLimit(ip: Address, at: int, after: int) returns (limited: bool)
      modifies this
      ensures Of(entries, ip) == Checked(Of(old(entries), ip), at, after) && limited == (Of(entries, ip).count >= LIMIT)
      ensures forall other | other != ip :: Of(entries, other) == Of(old(entries), other)
    {
      if ip !in entries {
        entries := entries[ip := Entry(0, 0)];
      }
      if at > entries[ip].resetAt {
        entries := entries[ip := entries[ip].(count := 0)];
        entries := entries[ip := entries[ip].(resetAt := after + WINDOW)];
      }
      return entries[ip].count >= LIMIT;
    }

    /** recordAuthFailure */
    method RecordAuthFailure(ip: Address, at: int, after: int)
      modifies this
      ensures Of(entries, ip) == Recorded(Of(old(entries), ip), at, after)
      ensures forall other | other != ip :: Of(entries, other) == Of(old(entries), other)
    {
      if ip !in entries {
        entries := entries[ip := Entry(0, 0)];
      }
      if at > entries[ip].resetAt {
        entries := entries[ip := entries[ip].(count := 1)];
        entries := entries[ip := entries[ip].(resetAt := after + WINDOW)];
        return;
      }
      entries := entries[ip := entries[ip].(count := entries[ip].count + 1)];
    }

    /** clearAuthFailure */
    method ClearAuthFailure(ip: Address)
      modifies this
      ensures Of(entries, ip) == UNKNOWN
      ensures forall other | other != ip :: Of(entries, other) == Of(old(entries), other)
    {
      entries := entries - {ip};
    }

    /** The middleware around one request: no other address is touched. */
    method Handle(ip: Address, a: Attempt) returns (refused: bool)
      modifies this
      ensures refused == Refused(Of(old(entries), ip), a)
      ensures Of(entries, ip) == After(Of(old(entries), ip), a)
      ensures forall other | other != ip :: Of(entries, other) == Of(old(entries), other)
    {
      refused := CheckRateLimit(ip, a.at, a.after);
      if refused {
        return;
      }
      match a.outcome
      case Succeeded => ClearAuthFailure(ip);
      case Incomplete =>
      case Failed(at, after) => RecordAuthFailure(ip, at, after);
    }
  }

  /* ---------------- runs of one address without a success ---------------- */

  /** The run so far: the entry, the times of all recorded failures, where among them the current and the window
      before it begin, and the two clock readings of the call that opened the current window. */
  datatype Run = Run(entry: Entry, failures: seq<int>, current: nat, previous: nat, since: int, from: int)

  function Opened(r: Run, at: int, after: int): Run {
    if at > r.entry.resetAt then Run(Entry(0, after + WINDOW), r.failures, |r.failures|, r.current, at, after) else r
  }

  function Noted(r: Run, at: int, after: int): Run {
    var o := Opened(r, at, after);
    Run(Recorded(r.entry, at, after), r.failures + [at], o.current, o.previous, o.since, o.from)
  }

  function Next(r: Run, a: Attempt): Run {
    var c := Opened(r, a.at, a.after);
    if Refused(r.entry, a) || !a.outcome.Failed? then c else Noted(c, a.outcome.at, a.outcome.after)
  }

  function RunOf(attempts: seq<Attempt>): Run {
    if attempts == [] then Run(UNKNOWN, [], 0, 0, -WINDOW, -WINDOW)
    else Next(RunOf(attempts[..|attempts| - 1]), attempts[|attempts| - 1])
  }

  function EntryAfter(attempts: seq<Attempt>): Entry {
    if attempts == [] then UNKNOWN else After(EntryAfter(attempts[..|attempts| - 1]), attempts[|attempts| - 1])
  }

  function Begins(a: Attempt): int {
    a.at
  }

  function Ends(a: Attempt): int {
    if a.outcome.Failed? then a.outcome.after else a.after
  }

  /** Readings of one clock, one request after the other, none of them a success. */
  ghost predicate Unsuccessful(attempts: seq<Attempt>) {
    && (forall k | 0 <= k < |attempts| :: Ordered(attempts[k]) && !attempts[k].outcome.Succeeded?)
    && forall j, k | 0 <= j < k < |attempts| :: Ends(attempts[j]) <= Begins(attempts[k])
  }

  ghost predicate Ordered(a: Attempt) {
    0 < a.at <= a.after && (a.outcome.Failed? ==> a.after <= a.outcome.at <= a.outcome.after)
  }

  ghost predicate Shape(r: Run) {
    && r.previous <= r.current <= |r.failures| && r.entry.count == |r.failures| - r.current
    && r.entry.count <= LIMIT && r.current - r.previous <= LIMIT
    && r.entry.resetAt == r.from + WINDOW && r.since <= r.from
  }

  /** Failures of earlier windows lie a window behind the end of this one, those before the last window a window
      behind the start of this one; the failures of this window lie in it. */
  ghost predicate Spaced(r: Run) {
    && (forall i | 0 <= i < r.current && i < |r.failures| :: r.failures[i] + WINDOW <= r.entry.resetAt)
    && (forall i | 0 <= i < r.previous && i < |r.failures| :: r.failures[i] + WINDOW < r.since)
    && (forall j | r.current <= j < |r.failures| :: r.since <= r.failures[j] <= r.entry.resetAt)
  }

  /** Any 21 failures in a row span more than a window. */
  ghost predicate Sparse(failures: seq<int>) {
    forall i, j | 0 <= i && i + 2 * LIMIT <= j < |failures| :: failures[j] > failures[i] + WINDOW
  }

  /** Nothing recorded or opened after the clock's last reading. */
  ghost predicate Before(r: Run, now: int) {
    r.since <= now && forall i | 0 <= i < |r.failures| :: r.failures[i] <= now
  }

  lemma OpenedKeeps(r: Run, at: int, after: int)
    requires Shape(r) && Spaced(r) && Sparse(r.failures) && Before(r, at) && at <= after
    ensures var o := Opened(r, at, after);
      Shape(o) && Spaced(o) && Sparse(o.failures) && Before(o, after) && o.entry == Checked(r.entry, at, after) &&
        at <= o.entry.resetAt
  {
  }

  lemma NotedKeeps(r: Run, at: int, after: int)
    requires Shape(r) && Spaced(r) && Sparse(r.failures) && Before(r, at) && at <= after && r.entry.count < LIMIT
    ensures var n := Noted(r, at, after); Shape(n) && Spaced(n) && Sparse(n.failures) && Before(n, after)
  {
    OpenedKeeps(r, at, after);
    var o := Opened(r, at, after);
    var n := Noted(r, at, after);
    assert n == Run(o.entry.(count := o.entry.count + 1), o.failures + [at], o.current, o.previous, o.since, o.from);
    assert o.since <= at;
  }

  lemma {:induction false} RunKeeps(attempts: seq<Attempt>, now: int)
    requires Unsuccessful(attempts) && now >= 0 && forall k | 0 <= k < |attempts| :: Ends(attempts[k]) <= now
    ensures var r := RunOf(attempts);
      Shape(r) && Spaced(r) && Sparse(r.failures) && Before(r, now) && r.entry == EntryAfter(attempts)
    decreases attempts
  {
    if attempts != [] {
      var n := |attempts| - 1;
      var a := attempts[n];
      RunKeeps(attempts[..n], a.at);
      var r := RunOf(attempts[..n]);
      assert Ordered(a);
      hide Spaced, Sparse, Shape;
      OpenedKeeps(r, a.at, a.after);
      if !Refused(r.entry, a) && a.outcome.Failed? {
        NotedKeeps(Opened(r, a.at, a.after), a.outcome.at, a.outcome.after);
      }
    }
  }

  /** Times of the failures the middleware records. */
  function Recordings(attempts: seq<Attempt>): seq<int> {
    if attempts == [] then []
    else
      var init, a := attempts[..|attempts| - 1], attempts[|attempts| - 1];
      Recordings(init) + if !Refused(EntryAfter(init), a) && a.outcome.Failed? then [a.outcome.at] else []
  }

  lemma {:induction false} RunRecords(attempts: seq<Attempt>)
    requires Unsuccessful(attempts)
    ensures RunOf(attempts).failures == Recordings(attempts)
    decreases attempts
  {
    if attempts != [] {
      var n := |attempts| - 1;
      var init, a := attempts[..n], attempts[n];
      assert Ordered(a);
      RunRecords(init);
      RunKeeps(init, a.at);
      hide Unsuccessful, Shape, Spaced, Sparse, Before;
    }
  }

  lemma EndOf(attempts: seq<Attempt>) returns (now: int)
    requires Unsuccessful(attempts)
    ensures now >= 0 && forall k | 0 <= k < |attempts| :: Ends(attempts[k]) <= now
  {
    now := 0;
    if attempts != [] {
      var n := |attempts| - 1;
      now := Ends(attempts[n]);
      assert Ordered(attempts[n]);
      forall k | 0 <= k < n ensures Ends(attempts[k]) <= now {
        assert Ends(attempts[k]) <= Begins(attempts[n]);
      }
    }
  }

  /** Without a success in between, failure number i + 20 comes more than five minutes after failure i: no five
      minutes hold more than 20. */
  lemma AtMostTwenty(attempts: seq<Attempt>, i: nat, j: nat)
    requires Unsuccessful(attempts) && i + 20 <= j < |Recordings(attempts)|
    ensures Recordings(attempts)[j] - Recordings(attempts)[i] > 300_000_000_000
  {
    var now := EndOf(attempts);
    RunKeeps(attempts, now);
    RunRecords(attempts);
  }

  /** Exactly the last n recorded failures fall in the window that ends at `end` and was opened at `since`. */
  ghost predicate InWindow(failures: seq<int>, n: int, since: int, end: int) {
    && 0 <= n <= |failures|
    && forall i | 0 <= i < |failures| ::
         (i >= |failures| - n ==> since <= failures[i] <= end) && (i < |failures| - n ==> failures[i] + WINDOW <= end)
  }

  /** A call of this request read the clock at these two times: its check, or the recording of its failure. */
  predicate Reads(a: Attempt, at: int, after: int) {
    (at == a.at && after == a.after) || a.outcome == Failed(at, after)
  }

  ghost predicate ReadBy(attempts: seq<Attempt>, at: int, after: int) {
    exists k | 0 <= k < |attempts| :: Reads(attempts[k], at, after)
  }

  /** The first check opens a window, and its two readings are always those of the call that opened it. */
  lemma {:induction false} OpenedByCall(attempts: seq<Attempt>)
    requires Unsuccessful(attempts) && attempts != []
    ensures ReadBy(attempts, RunOf(attempts).since, RunOf(attempts).from)
    decreases attempts
  {
    hide ReadBy;
    var n := |attempts| - 1;
    var before, a := attempts[..n], attempts[n];
    assert Ordered(a);
    var r := RunOf(before);
    if before != [] {
      OpenedByCall(before);
      StillRead(attempts, r.since, r.from);
    }
    LastRead(attempts);
  }

  lemma LastRead(attempts: seq<Attempt>)
    requires attempts != []
    ensures var a := attempts[|attempts| - 1];
      ReadBy(attempts, a.at, a.after) && (a.outcome.Failed? ==> ReadBy(attempts, a.outcome.at, a.outcome.after))
  {
    var a := attempts[|attempts| - 1];
    assert Reads(a, a.at, a.after);
    assert a.outcome.Failed? ==> Reads(a, a.outcome.at, a.outcome.after);
  }

  lemma StillRead(attempts: seq<Attempt>, at: int, after: int)
    requires attempts != []
    ensures ReadBy(attempts[..|attempts| - 1], at, after) ==> ReadBy(attempts, at, after)
  {
    var before := attempts[..|attempts| - 1];
    if k :| 0 <= k < |before| && Reads(before[k], at, after) {
      assert attempts[k] == before[k];
    }
  }

  /** The counter counts the failures of its window, at most 10.  The window lasts five minutes from the second of two
      consecutive clock readings of one call, and takes what was recorded since the first.  A request is refused
      exactly when it comes within that window and there are 10; being refused changes nothing, so the window ends
      where it did. */
  lemma RefusedIff(attempts: seq<Attempt>, a: Attempt)
    requires Unsuccessful(attempts)
    ensures var e, r := EntryAfter(attempts), RunOf(attempts);
      && e.count <= 10 && InWindow(Recordings(attempts), e.count, r.since, e.resetAt)
      && e.resetAt == r.from + 300_000_000_000 && r.since <= r.from
      && (attempts != [] ==> ReadBy(attempts, r.since, r.from))
      && (Refused(e, a) <==> e.count == 10 && a.at <= e.resetAt)
      && (Refused(e, a) ==> After(e, a) == e)
  {
    var now := EndOf(attempts);
    RunKeeps(attempts, now);
    RunRecords(attempts);
    if attempts != [] {
      OpenedByCall(attempts);
    }
    hide RunOf, Recordings, EntryAfter, Unsuccessful, ReadBy;
  }

  /* ---------------- any run ---------------- */

  /** Readings of one clock, one request after the other, with any outcomes. */
  ghost predicate InTime(attempts: seq<Attempt>) {
    && (forall k | 0 <= k < |attempts| :: Ordered(attempts[k]))
    && forall j, k | 0 <= j < k < |attempts| :: Ends(attempts[j]) <= Begins(attempts[k])
  }

  /** What counts of a run: the requests since the last success that was let through.  What a refused request would
      have come to does not matter. */
  function Counting(attempts: seq<Attempt>): seq<Attempt> {
    if attempts == [] then []
    else
      var init, a := attempts[..|attempts| - 1], attempts[|attempts| - 1];
      if Refused(EntryAfter(init), a) then Counting(init) + [a.(outcome := Incomplete)]
      else if a.outcome.Succeeded? then []
      else Counting(init) + [a]
  }

  /** After any run the entry is that of the requests that count, which are themselves a run without a success. */
  lemma {:induction false} CountingIs(attempts: seq<Attempt>, now: int)
    requires InTime(attempts) && forall k | 0 <= k < |attempts| :: Ends(attempts[k]) <= now
    ensures EntryAfter(attempts) == EntryAfter(Counting(attempts))
    ensures Unsuccessful(Counting(attempts))
    ensures forall k | 0 <= k < |Counting(attempts)| :: Ends(Counting(attempts)[k]) <= now
    decreases attempts
  {
    if attempts != [] {
      var n := |attempts| - 1;
      var init, a := attempts[..n], attempts[n];
      assert Ordered(a);
      CountingIs(init, Begins(a));
      CountingMore(Counting(init), a.(outcome := Incomplete), Begins(a), now);
      CountingMore(Counting(init), a, Begins(a), now);
      EntrySnoc(Counting(init), a);
      EntrySnoc(Counting(init), a.(outcome := Incomplete));
    }
  }

  lemma CountingMore(counting: seq<Attempt>, a: Attempt, at: int, now: int)
    requires Unsuccessful(counting) && forall k | 0 <= k < |counting| :: Ends(counting[k]) <= at
    ensures Ordered(a) && at <= Begins(a) && Ends(a) <= now && !a.outcome.Succeeded? ==>
      Unsuccessful(counting + [a]) && forall k | 0 <= k < |counting + [a]| :: Ends((counting + [a])[k]) <= now
  {
  }

  lemma EntrySnoc(attempts: seq<Attempt>, a: Attempt)
    ensures EntryAfter(attempts + [a]) == After(EntryAfter(attempts), a)
  {
    assert (attempts + [a])[..|attempts|] == attempts;
  }

  /** In any run a request is refused exactly when it comes in the window of the requests that count and 10 of their
      failures are in it. */
  lemma AnyRefusedIff(attempts: seq<Attempt>, a: Attempt)
    requires InTime(attempts)
    ensures var e, counting := EntryAfter(attempts), Counting(attempts);
      && Unsuccessful(counting) && e.count <= 10
      && InWindow(Recordings(counting), e.count, RunOf(counting).since, e.resetAt)
      && (Refused(e, a) <==> e.count == 10 && a.at <= e.resetAt)
      && (|Recordings(counting)| < 10 ==> !Refused(e, a))
  {
    var now := 0;
    if attempts != [] {
      var n := |attempts| - 1;
      now := Ends(attempts[n]);
      assert Ordered(attempts[n]);
      forall k | 0 <= k < n ensures Ends(attempts[k]) <= now {
        assert Ends(attempts[k]) <= Begins(attempts[n]);
      }
    }
    CountingIs(attempts, now);
    RefusedIff(Counting(attempts), a);
  }

  /** A success that is let through is a clean start: the next request is let through until 10 more failures have been
      recorded. */
  lemma {:induction false} AfterSuccess(before: seq<Attempt>, a: Attempt, more: seq<Attempt>, b: Attempt)
    requires InTime(before + [a] + more) && !Refused(EntryAfter(before), a) && a.outcome.Succeeded?
    requires forall k | 0 <= k < |more| :: !more[k].outcome.Succeeded?
    ensures EntryAfter(before + [a] + more) == EntryAfter(more)
    ensures |Recordings(more)| < 10 ==> !Refused(EntryAfter(before + [a] + more), b)
  {
    StartsOver(before, a, more);
    var all := before + [a] + more;
    forall k | 0 <= k < |more| ensures Ordered(more[k]) {
      assert more[k] == all[|before| + 1 + k];
    }
    forall j, k | 0 <= j < k < |more| ensures Ends(more[j]) <= Begins(more[k]) {
      assert more[j] == all[|before| + 1 + j] && more[k] == all[|before| + 1 + k];
    }
    RefusedIff(more, b);
  }

  lemma {:induction false} StartsOver(before: seq<Attempt>, a: Attempt, more: seq<Attempt>)
    requires !Refused(EntryAfter(before), a) && a.outcome.Succeeded?
    ensures EntryAfter(before + [a] + more) == EntryAfter(more)
  {
    if more == [] {
      EntrySnoc(before, a);
      assert before + [a] + more == before + [a];
    } else {
      var n := |more| - 1;
      StartsOver(before, a, more[..n]);
      EntrySnoc(before + [a] + more[..n], more[n]);
      assert before + [a] + more == before + [a] + more[..n] + [more[n]];
    }
  }
}
