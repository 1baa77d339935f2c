/** Goroutines competing for the scan flag and for the one write connection. */
module ScanGuard {

  /** Where a goroutine is.  Scan requests run `Run`; handlers borrow the write connection directly. */
  datatype Caller =
    | Outside
    | Rejected      // Run returned "scan already in progress"
    | Admitted      // flag taken, connection not yet
    | Scanning      // scan body
    | Releasing     // connection put back, flag still set
    | Handling      // an API handler holding the write connection

  /** `free` is whether the pool of size one holds the connection. */
  datatype State = State(flag: bool, free: bool, callers: seq<Caller>)

  datatype Action =
    | Start(i: nat)         // scanning.CompareAndSwap(false, true)
    | Leave(i: nat)         // a rejected call returns
    | Acquire(i: nat)       // WriteConn succeeds
    | AcquireFails(i: nat)  // WriteConn fails: Run returns, the deferred Store clears the flag
    | PutBack(i: nat)       // deferred put()
    | Clear(i: nat)         // deferred scanning.Store(false)
    | Borrow(i: nat)        // a handler takes the connection
    | Return(i: nat)        // and puts it back

  function Init(n: nat): State {
    State(false, true, seq(n, i => Outside))
  }

  predicate Enabled(s: State, a: Action) {
    a.i < |s.callers| &&
    var c := s.callers[a.i];
    match a
    case Start(_) => c.Outside?
    case Leave(_) => c.Rejected?
    case Acquire(_) => c.Admitted? && s.free
    case AcquireFails(_) => c.Admitted?
    case PutBack(_) => c.Scanning?
    case Clear(_) => c.Releasing?
    case Borrow(_) => c.Outside? && s.free
    case Return(_) => c.Handling?
  }

  function Apply(s: State, a: Action): State
    requires Enabled(s, a)
  {
    var i := a.i;
    match a
    case Start(_) =>
      if s.flag then s.(callers := s.callers[i := Rejected])
      else s.(flag := true, callers := s.callers[i := Admitted])
    case Leave(_) => s.(callers := s.callers[i := Outside])
    case Acquire(_) => s.(free := false, callers := s.callers[i := Scanning])
    case AcquireFails(_) => s.(flag := false, callers := s.callers[i := Outside])
    case PutBack(_) => s.(free := true, callers := s.callers[i := Releasing])
    case Clear(_) => s.(flag := false, callers := s.callers[i := Outside])
    case Borrow(_) => s.(free := false, callers := s.callers[i := Handling])
    case Return(_) => s.(free := true, callers := s.callers[i := Outside])
  }

  predicate InRun(c: Caller) {
    c.Admitted? || c.Scanning? || c.Releasing?
  }

  predicate HoldsConnection(c: Caller) {
    c.Scanning? || c.Handling?
  }

  predicate OneRun(s: State) {
    && (forall i, j | 0 <= i < |s.callers| && 0 <= j < |s.callers| && InRun(s.callers[i]) && InRun(s.callers[j]) ::
      i == j)
    && (s.flag <==> exists i | 0 <= i < |s.callers| :: InRun(s.callers[i]))
  }

  predicate OneHolder(s: State) {
    && (forall i, j | 0 <= i < |s.callers| && 0 <= j < |s.callers|
                      && HoldsConnection(s.callers[i]) && HoldsConnection(s.callers[j]) :: i == j)
    && (s.free <==> forall i | 0 <= i < |s.callers| :: !HoldsConnection(s.callers[i]))
  }

  lemma KeepsOneRun(s: State, a: Action)
    requires OneRun(s) && Enabled(s, a)
    ensures OneRun(Apply(s, a))
  {
    var s', i := Apply(s, a), a.i;
    assert InRun(s'.callers[i]) <==> (a.Start? && !s.flag) || a.Acquire? || a.PutBack?;
    assert forall j | 0 <= j < |s.callers| && j != i :: s'.callers[j] == s.callers[j];
    if j :| 0 <= j < |s.callers| && InRun(s.callers[j]) {
      assert j != i ==> InRun(s'.callers[j]);
    }
  }

  lemma KeepsOneHolder(s: State, a: Action)
    requires OneHolder(s) && Enabled(s, a)
    ensures OneHolder(Apply(s, a))
  {
    var s', i := Apply(s, a), a.i;
    assert forall j | 0 <= j < |s.callers| && j != i :: s'.callers[j] == s.callers[j];
    assert HoldsConnection(s'.callers[i]) <==> a.Acquire? || a.Borrow?;
    if j :| 0 <= j < |s.callers| && HoldsConnection(s.callers[j]) {
      assert j != i ==> HoldsConnection(s'.callers[j]);
    }
  }

  ghost predicate IsRun(n: nat, states: seq<State>, actions: seq<Action>) {
    && |states| == |actions| + 1 && states[0] == Init(n)
    && forall k | 0 <= k < |actions| :: Enabled(states[k], actions[k]) && states[k + 1] == Apply(states[k], actions[k])
  }

  /** In every reachable state at most one scan body runs and at most one goroutine holds the write connection, and
      the flag is set exactly while some call is between admission and release. */
  lemma {:induction false} Exclusive(n: nat, states: seq<State>, actions: seq<Action>, k: nat)
    requires IsRun(n, states, actions) && k <= |actions|
    ensures var s := states[k];
      && (forall i, j | 0 <= i < |s.callers| && 0 <= j < |s.callers|
            && s.callers[i].Scanning? && s.callers[j].Scanning? :: i == j)
      && (forall i, j | 0 <= i < |s.callers| && 0 <= j < |s.callers|
            && (s.callers[i].Scanning? || s.callers[i].Handling?)
            && (s.callers[j].Scanning? || s.callers[j].Handling?) :: i == j)
      && (s.flag <==> exists i | 0 <= i < |s.callers| ::
            s.callers[i].Admitted? || s.callers[i].Scanning? || s.callers[i].Releasing?)
  {
    RunKeeps(n, states, actions, k);
    var s := states[k];
    assert forall i | 0 <= i < |s.callers| :: InRun(s.callers[i]) <==>
      s.callers[i].Admitted? || s.callers[i].Scanning? || s.callers[i].Releasing?;
    assert forall i | 0 <= i < |s.callers| :: HoldsConnection(s.callers[i]) <==>
      s.callers[i].Scanning? || s.callers[i].Handling?;
  }

  lemma {:induction false} RunKeeps(n: nat, states: seq<State>, actions: seq<Action>, k: nat)
    requires IsRun(n, states, actions) && k <= |actions|
    ensures OneRun(states[k]) && OneHolder(states[k])
  {
    hide OneRun, OneHolder, Enabled, Apply;
    if k == 0 {
      InitExclusive(n);
    } else {
      RunKeeps(n, states, actions, k - 1);
      KeepsOneRun(states[k - 1], actions[k - 1]);
      KeepsOneHolder(states[k - 1], actions[k - 1]);
    }
  }

  /** No call is ever stuck: in every state every goroutine has a step, a waiting one at the latest when the
      connection is free or cannot be had. */
  lemma CallerCanMove(s: State, i: nat) returns (a: Action)
    requires i < |s.callers|
    ensures a.i == i && Enabled(s, a)
  {
    match s.callers[i]
    case Outside => a := Start(i);
    case Rejected => a := Leave(i);
    case Admitted => a := AcquireFails(i);
    case Scanning => a := PutBack(i);
    case Releasing => a := Clear(i);
    case Handling => a := Return(i);
  }

  lemma InitExclusive(n: nat)
    ensures OneRun(Init(n)) && OneHolder(Init(n))
  {
  }

  /** A call that was rejected never clears the flag of the scan that runs. */
  lemma RejectedKeepsFlag(n: nat, states: seq<State>, actions: seq<Action>, k: nat)
    requires IsRun(n, states, actions) && k < |actions| && states[k].flag && !states[k + 1].flag
    ensures InRun(states[k].callers[actions[k].i])
    ensures var after := states[k + 1].callers; forall i | 0 <= i < |after| :: !InRun(after[i])
  {
    RunKeeps(n, states, actions, k);
  }
}
