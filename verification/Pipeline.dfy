/** One scan as a transition system: the main goroutine with its walk and its statements, a bounded job channel, the
    parse workers, a bounded result channel and the batching writer, interleaved in any order.  A job and the track
    parsed from it are both represented by the file's path; `readable` holds the track that reading each readable file
    yields. */
module Pipeline {
  import opened Catalog

  /** What one call of the walk function meets.  Everything but a supported audio file that could be stat'ed
      (directories, links, other files, walk and stat errors) leaves no trace in the pipeline. */
  datatype Event = Ignored | Audio(path: string, mtime: int, size: int)

  datatype Config = Config(events: seq<Event>, known: map<string, (int, int)>, readable: map<string, Track>,
                           workers: nat, jobCap: nat, resultCap: nat, batchSize: nat, statements: nat)

  predicate ValidConfig(c: Config) {
    c.workers >= 1 && c.jobCap >= 1 && c.resultCap >= 1 && c.batchSize >= 1
  }

  datatype Worker = Idle | Reading(path: string) | Sending(path: string) | Exited

  datatype Writer = Receiving | Inserting(last: bool) | Draining | Done

  /** How a batch transaction ends; `Lost` is a COMMIT that fails unreported. */
  datatype Outcome = Committed | Refused | Lost

  /** One insertBatch call that has returned. */
  datatype Insertion = Insertion(batch: seq<string>, outcome: Outcome)

  /** Where the main goroutine is.  In `Loading` and in `Finishing` it runs a statement on the write connection: the
      query for the known files, and after the writer the sweep, the covers, the statistics, the orphans and the
      index, of which `done` have returned.  `Aborted` is the return after a failed query, before any other goroutine
      has started. */
  datatype Main = Loading | Walking | Waiting | Finishing(done: nat) | Returned | Aborted

  /** `closed` and `resultsClosed` are the channels' flags, `main`, `closer`, `workers` and `writer` where the
      goroutines are; `closer` is whether the goroutine that closes `results` still waits. */
  datatype State = State(main: Main, next: nat, seen: set<string>, closed: bool, jobs: seq<string>,
                         workers: seq<Worker>, unreadable: seq<string>,
                         results: seq<string>, resultsClosed: bool, closer: bool,
                         writer: Writer, batch: seq<string>, writerErr: bool, inserts: seq<Insertion>,
                         committed: seq<seq<string>>, lost: seq<string>, failed: seq<string>, drained: seq<string>,
                         count: nat)

  datatype Action =
    | Load                      // the query for the known files returns; the other goroutines start
    | LoadFails                 // the query, or taking the write connection for it, fails
    | Walk                      // the walk function returns for the next event
    | CloseJobs                 // the walk is over: close(jobs)
    | Take(w: nat)              // a worker receives a job
    | Read(w: nat)              // readTrack returns
    | Send(w: nat)              // the worker's result enters the channel
    | Exit(w: nat)              // the worker finds jobs closed and empty
    | CloseResults              // parseWg.Wait() returns: close(results)
    | Receive                   // the writer receives a result into its batch
    | Insert(outcome: Outcome)  // insertBatch returns
    | Drain                     // after an error the writer discards a result
    | EndResults                // the writer finds results closed and empty
    | Join                      // writerWg.Wait() returns in the main goroutine
    | Statement                 // a statement of the main goroutine returns and the next one starts
    | Return                    // the main goroutine returns, after its last statement or an error

  predicate Unchanged(c: Config, e: Event)
    requires e.Audio?
  {
    e.path in c.known && c.known[e.path] == (e.mtime, e.size)
  }

  predicate IsJob(c: Config, e: Event) {
    e.Audio? && !Unchanged(c, e)
  }

  function Init(c: Config): State {
    State(Loading, 0, {}, false, [], seq(c.workers, i => Idle), [], [], false, true,
          Receiving, [], false, [], [], [], [], [], 0)
  }

  predicate Enabled(c: Config, s: State, a: Action) {
    match a
    case Load => s.main.Loading?
    case LoadFails => s.main.Loading?
    case Walk => s.main.Walking? && s.next < |c.events| && (IsJob(c, c.events[s.next]) ==> |s.jobs| < c.jobCap)
    case CloseJobs => s.main.Walking? && s.next >= |c.events|
    case Take(w) => w < |s.workers| && s.workers[w].Idle? && |s.jobs| > 0
    case Read(w) => w < |s.workers| && s.workers[w].Reading?
    case Send(w) => w < |s.workers| && s.workers[w].Sending? && |s.results| < c.resultCap
    case Exit(w) => w < |s.workers| && s.workers[w].Idle? && s.closed && s.jobs == []
    case CloseResults => s.closer && forall w | 0 <= w < |s.workers| :: s.workers[w].Exited?
    case Receive => s.writer.Receiving? && |s.results| > 0
    case Insert(_) => s.writer.Inserting?
    case Drain => s.writer.Draining? && |s.results| > 0
    case EndResults => (s.writer.Receiving? || s.writer.Draining?) && s.resultsClosed && s.results == []
    case Join => s.main.Waiting? && s.writer.Done?
    case Statement => s.main.Finishing? && s.main.done < c.statements
    case Return => s.main.Finishing?
  }

  predicate ByWorker(a: Action) {
    a.Take? || a.Read? || a.Send? || a.Exit?
  }

  predicate ByWriter(a: Action) {
    a.Receive? || a.Insert? || a.Drain? || a.EndResults?
  }

  /** A step of a parse worker. */
  function WorkerStep(c: Config, s: State, a: Action): (r: State)
    requires Enabled(c, s, a) && ByWorker(a)
    ensures r == s.(jobs := r.jobs, workers := r.workers, unreadable := r.unreadable, results := r.results)
  {
    match a
    case Take(w) => s.(jobs := s.jobs[1..], workers := s.workers[w := Reading(s.jobs[0])])
    case Read(w) =>
      var p := s.workers[w].path;
      if p in c.readable then s.(workers := s.workers[w := Sending(p)])
      else s.(workers := s.workers[w := Idle], unreadable := s.unreadable + [p])
    case Send(w) => s.(results := s.results + [s.workers[w].path], workers := s.workers[w := Idle])
    case Exit(w) => s.(workers := s.workers[w := Exited])
  }

  /** The writer after insertBatch has returned. */
  function Inserted(s: State, outcome: Outcome): (r: State)
    requires s.writer.Inserting?
    ensures r == s.(writer := r.writer, batch := [], writerErr := r.writerErr,
                    inserts := s.inserts + [Insertion(s.batch, outcome)],
                    committed := r.committed, lost := r.lost, failed := r.failed)
  {
    var next := if s.writer.last then Done else Receiving;
    var s' := s.(batch := [], inserts := s.inserts + [Insertion(s.batch, outcome)], writer := next);
    match outcome
    case Committed => s'.(committed := s.committed + [s.batch])
    case Lost => s'.(lost := s.lost + s.batch)
    case Refused => s'.(failed := s.batch, writerErr := true, writer := if s.writer.last then Done else Draining)
  }

  /** A step of the writer. */
  function WriterStep(c: Config, s: State, a: Action): (r: State)
    requires Enabled(c, s, a) && ByWriter(a)
    ensures r == s.(results := r.results, writer := r.writer, batch := r.batch, writerErr := r.writerErr,
                    inserts := r.inserts, committed := r.committed, lost := r.lost, failed := r.failed,
                    drained := r.drained, count := r.count)
    ensures !a.Insert? ==>
      (r.inserts, r.committed, r.lost, r.failed, r.writerErr) == (s.inserts, s.committed, s.lost, s.failed, s.writerErr)
  {
    match a
    case Receive =>
      var batch := s.batch + [s.results[0]];
      s.(results := s.results[1..], batch := batch, count := s.count + 1,
         writer := if |batch| >= c.batchSize then Inserting(false) else Receiving)
    case Insert(outcome) => Inserted(s, outcome)
    case Drain => s.(results := s.results[1..], drained := s.drained + [s.results[0]])
    case EndResults => s.(writer := if s.writer.Receiving? && s.batch != [] then Inserting(true) else Done)
  }

  /** A step of the main goroutine, or of the one that closes the results. */
  function MainStep(c: Config, s: State, a: Action): (r: State)
    requires Enabled(c, s, a) && !ByWorker(a) && !ByWriter(a)
    ensures r == s.(main := r.main, next := r.next, seen := r.seen, closed := r.closed, jobs := r.jobs,
                    count := r.count, resultsClosed := r.resultsClosed, closer := r.closer)
    ensures !a.Walk? ==> (r.next, r.seen, r.jobs, r.count) == (s.next, s.seen, s.jobs, s.count)
    ensures a.Walk? ==> r.next == s.next + 1 <= |c.events|
  {
    match a
    case Load => s.(main := Walking)
    case LoadFails => s.(main := Aborted)
    case Walk =>
      var e, s' := c.events[s.next], s.(next := s.next + 1);
      if e.Ignored? then s'
      else if Unchanged(c, e) then s'.(seen := s.seen + {e.path}, count := s.count + 1)
      else s'.(seen := s.seen + {e.path}, jobs := s.jobs + [e.path])
    case CloseJobs => s.(closed := true, main := Waiting)
    case CloseResults => s.(resultsClosed := true, closer := false)
    case Join => s.(main := if s.writerErr then Returned else Finishing(0))
    case Statement => s.(main := Finishing(s.main.done + 1))
    case Return => s.(main := Returned)
  }

  function Apply(c: Config, s: State, a: Action): State
    requires Enabled(c, s, a)
  {
    if ByWorker(a) then WorkerStep(c, s, a) else if ByWriter(a) then WriterStep(c, s, a) else MainStep(c, s, a)
  }

  ghost predicate IsRun(c: Config, states: seq<State>, actions: seq<Action>) {
    && |states| == |actions| + 1 && states[0] == Init(c)
    && forall i | 0 <= i < |actions| ::
      Enabled(c, states[i], actions[i]) && states[i + 1] == Apply(c, states[i], actions[i])
  }

  /* ---------------- the inductive invariant ---------------- */

  predicate WorkersShape(c: Config, s: State) {
    && |s.workers| == c.workers
    && (forall w | 0 <= w < |s.workers| && s.workers[w].Exited? :: s.closed && s.jobs == [])
    && (s.resultsClosed ==> forall w | 0 <= w < |s.workers| :: s.workers[w].Exited?)
  }

  predicate WriterShape(c: Config, s: State) {
    && (s.writer.Receiving? ==> |s.batch| < c.batchSize && !s.writerErr)
    && (s.writer.Inserting? ==> 0 < |s.batch| <= c.batchSize && !s.writerErr)
    && (s.writer.Draining? ==> s.batch == [] && s.writerErr)
    && (s.writer.Done? ==> s.batch == [] && s.resultsClosed && s.results == [])
    && (s.writer.Inserting? && s.writer.last ==> s.resultsClosed && s.results == [])
    && (!s.writerErr ==> s.failed == [] && s.drained == [])
  }

  /** The main goroutine is past writerWg.Wait(). */
  predicate Joined(s: State) {
    s.main.Finishing? || s.main.Returned?
  }

  /** The main goroutine has returned. */
  predicate Ended(s: State) {
    s.main.Returned? || s.main.Aborted?
  }

  predicate MainShape(c: Config, s: State) {
    && (s.closed <==> !s.main.Loading? && !s.main.Walking? && !s.main.Aborted?)
    && (s.resultsClosed <==> !s.closer)
    && (Joined(s) ==> s.writer.Done?)
    && (s.main.Finishing? ==> !s.writerErr && s.main.done <= c.statements)
    && (s.main.Loading? || s.main.Aborted? ==> Untouched(s))
  }

  /** No goroutine but the main one can move. */
  predicate Untouched(s: State) {
    && s.jobs == [] && s.results == [] && s.writer.Receiving? && s.closer && s.inserts == [] && !s.writerErr
    && forall w | 0 <= w < |s.workers| :: s.workers[w].Idle?
  }

  predicate ChannelShape(c: Config, s: State) {
    && s.next <= |c.events| && (s.closed ==> s.next == |c.events|)
    && |s.jobs| <= c.jobCap && |s.results| <= c.resultCap
  }

  function CommittedIn(inserts: seq<Insertion>): seq<seq<string>> {
    if inserts == [] then []
    else
      var i := inserts[|inserts| - 1];
      CommittedIn(inserts[..|inserts| - 1]) + if i.outcome.Committed? then [i.batch] else []
  }

  function LostIn(inserts: seq<Insertion>): seq<string> {
    if inserts == [] then []
    else
      var i := inserts[|inserts| - 1];
      LostIn(inserts[..|inserts| - 1]) + if i.outcome.Lost? then i.batch else []
  }

  predicate NoneRefused(inserts: seq<Insertion>) {
    forall k | 0 <= k < |inserts| :: !inserts[k].outcome.Refused?
  }

  /** The insertions made so far account for what was committed, lost and refused. */
  predicate Logged(s: State) {
    && s.committed == CommittedIn(s.inserts) && s.lost == LostIn(s.inserts)
    && if s.writerErr then
         && s.inserts != [] && s.inserts[|s.inserts| - 1] == Insertion(s.failed, Refused)
         && NoneRefused(s.inserts[..|s.inserts| - 1])
       else NoneRefused(s.inserts)
  }

  ghost predicate AllReadable(c: Config, paths: seq<string>) {
    forall p | p in paths :: p in c.readable
  }

  ghost predicate Contents(c: Config, s: State) {
    && (forall w | 0 <= w < |s.workers| && s.workers[w].Sending? :: s.workers[w].path in c.readable)
    && AllReadable(c, s.results) && AllReadable(c, s.batch) && AllReadable(c, Flatten(s.committed))
    && AllReadable(c, s.lost) && AllReadable(c, s.failed)
    && (forall k | 0 <= k < |s.inserts| :: AllReadable(c, s.inserts[k].batch))
    && forall p | p in s.unreadable :: p !in c.readable
  }

  function Flatten(batches: seq<seq<string>>): seq<string> {
    if batches == [] then [] else Flatten(batches[..|batches| - 1]) + batches[|batches| - 1]
  }

  /** How often a path occurs in a sequence. */
  function Occ(s: seq<string>, p: string): nat {
    multiset(s)[p]
  }

  function InHand(w: Worker, p: string): nat {
    if (w.Reading? || w.Sending?) && w.path == p then 1 else 0
  }

  function InHands(workers: seq<Worker>, p: string): nat {
    if workers == [] then 0 else InHand(workers[0], p) + InHands(workers[1..], p)
  }

  /** The files the walk sends to the workers, in walk order. */
  function Jobs(c: Config, events: seq<Event>): seq<string> {
    if events == [] then []
    else Jobs(c, events[..|events| - 1]) + if IsJob(c, events[|events| - 1]) then [events[|events| - 1].path] else []
  }

  function Skips(c: Config, events: seq<Event>): nat {
    if events == [] then 0
    else
      var last := events[|events| - 1];
      Skips(c, events[..|events| - 1]) + if last.Audio? && Unchanged(c, last) then 1 else 0
  }

  function AudioPaths(events: seq<Event>): set<string> {
    set e | e in events && e.Audio? :: e.path
  }

  /** How often a path occurs in the places a job can be. */
  function Places(s: State, p: string): nat {
    Occ(s.jobs, p) + InHands(s.workers, p) + Occ(s.unreadable, p) + Occ(s.results, p) + Occ(s.batch, p)
    + Occ(Flatten(s.committed), p) + Occ(s.lost, p) + Occ(s.failed, p) + Occ(s.drained, p)
  }

  /** No job is lost or duplicated: the jobs sent so far are exactly those in some place. */
  ghost predicate Conserved(c: Config, s: State)
    requires s.next <= |c.events|
  {
    forall p :: Occ(Jobs(c, c.events[..s.next]), p) == Places(s, p)
  }

  /** The paths seen and the progress counter follow the walk and the writer. */
  ghost predicate Tallied(c: Config, s: State)
    requires s.next <= |c.events|
  {
    && s.seen == AudioPaths(c.events[..s.next])
    && s.count == Skips(c, c.events[..s.next]) + |s.batch| + |Flatten(s.committed)| + |s.lost| + |s.failed|
  }

  ghost predicate Inv(c: Config, s: State) {
    && MainShape(c, s) && WorkersShape(c, s) && WriterShape(c, s) && ChannelShape(c, s)
    && Contents(c, s) && Conserved(c, s) && Tallied(c, s) && Logged(s)
  }

  /* ---------------- preservation ---------------- */

  lemma {:induction false} InHandsUpdate(workers: seq<Worker>, w: nat, x: Worker, p: string)
    requires w < |workers|
    ensures InHands(workers[w := x], p) + InHand(workers[w], p) == InHands(workers, p) + InHand(x, p)
  {
    if w == 0 {
      assert workers[w := x][1..] == workers[1..];
    } else {
      InHandsUpdate(workers[1..], w - 1, x, p);
      assert workers[w := x][1..] == workers[1..][w - 1 := x];
    }
  }

  lemma {:induction false} IdleHands(n: nat, p: string)
    ensures InHands(seq(n, i => Idle), p) == 0
  {
    if n > 0 {
      IdleHands(n - 1, p);
      assert seq(n, i => Idle)[1..] == seq(n - 1, i => Idle);
    }
  }

  lemma OccAppend(s: seq<string>, t: seq<string>, p: string)
    ensures Occ(s + t, p) == Occ(s, p) + Occ(t, p)
  {
  }

  lemma OccOne(x: string, p: string)
    ensures Occ([x], p) == if x == p then 1 else 0
    ensures Occ([], p) == 0
  {
  }

  lemma OccHead(s: seq<string>, p: string)
    requires s != []
    ensures Occ(s, p) == Occ([s[0]], p) + Occ(s[1..], p)
  {
    assert s == [s[0]] + s[1..];
  }

  lemma FlattenSnoc(batches: seq<seq<string>>, b: seq<string>)
    ensures Flatten(batches + [b]) == Flatten(batches) + b
  {
    assert (batches + [b])[..|batches|] == batches;
  }

  lemma EventsSnoc(c: Config, i: nat)
    requires i < |c.events|
    ensures Jobs(c, c.events[..i + 1]) ==
      Jobs(c, c.events[..i]) + if IsJob(c, c.events[i]) then [c.events[i].path] else []
    ensures Skips(c, c.events[..i + 1]) ==
      Skips(c, c.events[..i]) + if c.events[i].Audio? && Unchanged(c, c.events[i]) then 1 else 0
    ensures AudioPaths(c.events[..i + 1]) == AudioPaths(c.events[..i]) +
      if c.events[i].Audio? then {c.events[i].path} else {}
  {
    assert c.events[..i + 1][..i] == c.events[..i];
    assert c.events[..i + 1] == c.events[..i] + [c.events[i]];
  }

  lemma InitInv(c: Config)
    requires ValidConfig(c)
    ensures Inv(c, Init(c))
  {
    forall p ensures Occ(Jobs(c, c.events[..0]), p) == Places(Init(c), p) {
      IdleHands(c.workers, p);
    }
  }

  lemma WorkersStepShape(c: Config, s: State, a: Action)
    requires MainShape(c, s) && WorkersShape(c, s) && Enabled(c, s, a)
    ensures WorkersShape(c, Apply(c, s, a))
  {
    if ByWorker(a) {
      WorkerStepWorkers(c, s, a);
    } else {
      OtherStepWorkers(c, s, a);
    }
  }

  lemma WorkerStepWorkers(c: Config, s: State, a: Action)
    requires WorkersShape(c, s) && Enabled(c, s, a) && ByWorker(a)
    ensures WorkersShape(c, Apply(c, s, a))
  {
    hide WriterStep, MainStep;
  }

  lemma OtherStepWorkers(c: Config, s: State, a: Action)
    requires MainShape(c, s) && WorkersShape(c, s) && Enabled(c, s, a) && !ByWorker(a)
    ensures WorkersShape(c, Apply(c, s, a))
  {
    hide WorkerStep, WriterStep;
    hide Untouched;
  }

  lemma WriterStepShape(c: Config, s: State, a: Action)
    requires ValidConfig(c) && WorkersShape(c, s) && WriterShape(c, s) && Enabled(c, s, a)
    ensures WriterShape(c, Apply(c, s, a))
  {
    if ByWriter(a) {
      WriterStepWriter(c, s, a);
    } else {
      OtherStepWriter(c, s, a);
    }
  }

  lemma WriterStepWriter(c: Config, s: State, a: Action)
    requires ValidConfig(c) && WriterShape(c, s) && Enabled(c, s, a) && ByWriter(a)
    ensures WriterShape(c, Apply(c, s, a))
  {
    hide WorkerStep, MainStep;
  }

  lemma OtherStepWriter(c: Config, s: State, a: Action)
    requires WorkersShape(c, s) && WriterShape(c, s) && Enabled(c, s, a) && !ByWriter(a)
    ensures WriterShape(c, Apply(c, s, a))
  {
    hide WriterStep;
  }

  lemma ChannelStepShape(c: Config, s: State, a: Action)
    requires MainShape(c, s) && ChannelShape(c, s) && Enabled(c, s, a)
    ensures ChannelShape(c, Apply(c, s, a))
  {
    hide Untouched;
  }

  lemma MainStepShape(c: Config, s: State, a: Action)
    requires ValidConfig(c) && MainShape(c, s) && WorkersShape(c, s) && WriterShape(c, s) && Enabled(c, s, a)
    ensures MainShape(c, Apply(c, s, a))
  {
    if ByWorker(a) || ByWriter(a) || a.CloseResults? {
      OtherStepMain(c, s, a);
    }
  }

  lemma OtherStepMain(c: Config, s: State, a: Action)
    requires ValidConfig(c) && MainShape(c, s) && WorkersShape(c, s) && WriterShape(c, s) && Enabled(c, s, a)
    requires ByWorker(a) || ByWriter(a) || a.CloseResults?
    ensures MainShape(c, Apply(c, s, a))
  {
    if s.main.Loading? || s.main.Aborted? {
      SomeIdle(c, s);
    }
  }

  lemma SomeIdle(c: Config, s: State)
    requires ValidConfig(c) && WorkersShape(c, s) && Untouched(s)
    ensures exists w | 0 <= w < |s.workers| :: s.workers[w].Idle?
  {
    assert s.workers[0].Idle?;
  }

  lemma InsertsSnoc(inserts: seq<Insertion>, i: Insertion)
    ensures CommittedIn(inserts + [i]) == CommittedIn(inserts) + if i.outcome.Committed? then [i.batch] else []
    ensures LostIn(inserts + [i]) == LostIn(inserts) + if i.outcome.Lost? then i.batch else []
  {
    assert (inserts + [i])[..|inserts|] == inserts;
  }

  lemma StepLogged(c: Config, s: State, a: Action)
    requires Logged(s) && WriterShape(c, s) && Enabled(c, s, a)
    ensures Logged(Apply(c, s, a))
  {
    hide CommittedIn, LostIn, NoneRefused;
    if a.Insert? {
      InsertLogged(c, s, a.outcome);
    } else {
      OnlyInsertLogs(c, s, a);
    }
  }

  lemma OnlyInsertLogs(c: Config, s: State, a: Action)
    requires Enabled(c, s, a) && !a.Insert?
    ensures var s' := Apply(c, s, a);
      (s'.inserts, s'.committed, s'.lost, s'.failed, s'.writerErr) ==
      (s.inserts, s.committed, s.lost, s.failed, s.writerErr)
  {
    hide WorkerStep, WriterStep, MainStep;
  }

  lemma InsertLogged(c: Config, s: State, outcome: Outcome)
    requires Logged(s) && WriterShape(c, s) && Enabled(c, s, Insert(outcome))
    ensures Logged(Apply(c, s, Insert(outcome)))
  {
    hide WorkerStep, MainStep;
    hide CommittedIn, LostIn;
    var i := Insertion(s.batch, outcome);
    InsertsSnoc(s.inserts, i);
    assert (s.inserts + [i])[..|s.inserts|] == s.inserts;
  }

  lemma WorkerStepContents(c: Config, s: State, a: Action)
    requires Contents(c, s) && Enabled(c, s, a) && ByWorker(a)
    ensures Contents(c, Apply(c, s, a))
  {
    hide WriterStep, MainStep;
    hide Flatten;
  }

  lemma ReceiveContents(c: Config, s: State)
    requires Contents(c, s) && Enabled(c, s, Receive)
    ensures Contents(c, Apply(c, s, Receive))
  {
    hide WorkerStep, MainStep;
    hide Flatten;
  }

  lemma WriterStepContents(c: Config, s: State, a: Action)
    requires Contents(c, s) && Enabled(c, s, a) && ByWriter(a) && !a.Receive?
    ensures Contents(c, Apply(c, s, a))
  {
    hide WorkerStep, MainStep;
    hide Flatten;
    if a.Insert? {
      InsertContents(c, s, a.outcome);
    }
  }

  lemma InsertContents(c: Config, s: State, outcome: Outcome)
    requires Contents(c, s) && Enabled(c, s, Insert(outcome))
    ensures Contents(c, Apply(c, s, Insert(outcome)))
  {
    hide WorkerStep, MainStep;
    hide Flatten;
    FlattenSnoc(s.committed, s.batch);
  }

  lemma StepContents(c: Config, s: State, a: Action)
    requires Contents(c, s) && Enabled(c, s, a)
    ensures Contents(c, Apply(c, s, a))
  {
    hide WorkerStep, WriterStep, MainStep, Flatten, AllReadable;
    if ByWorker(a) {
      WorkerStepContents(c, s, a);
    } else if a.Receive? {
      ReceiveContents(c, s);
    } else if ByWriter(a) {
      WriterStepContents(c, s, a);
    }
  }

  lemma WorkerStepConserved(c: Config, s: State, a: Action, p: string)
    requires Enabled(c, s, a) && ByWorker(a)
    ensures Places(Apply(c, s, a), p) == Places(s, p)
  {
    hide WriterStep, MainStep;
    hide InHands, Flatten, Occ;
    var s' := Apply(c, s, a);
    InHandsUpdate(s.workers, a.w, s'.workers[a.w], p);
    match a {
      case Take(w) => OccHead(s.jobs, p); OccOne(s.jobs[0], p);
      case Read(w) => OccAppend(s.unreadable, [s.workers[w].path], p); OccOne(s.workers[w].path, p);
      case Send(w) => OccAppend(s.results, [s.workers[w].path], p); OccOne(s.workers[w].path, p);
      case _ =>
    }
  }

  lemma WriterStepConserved(c: Config, s: State, a: Action, p: string)
    requires Enabled(c, s, a) && ByWriter(a) && WriterShape(c, s)
    ensures Places(Apply(c, s, a), p) == Places(s, p)
  {
    hide WorkerStep, MainStep;
    hide InHands, Flatten, Occ;
    OccOne("", p);
    match a {
      case Receive => OccHead(s.results, p); OccAppend(s.batch, [s.results[0]], p);
      case Drain => OccHead(s.results, p); OccAppend(s.drained, [s.results[0]], p);
      case Insert(_) =>
        FlattenSnoc(s.committed, s.batch);
        OccAppend(Flatten(s.committed), s.batch, p);
        OccAppend(s.lost, s.batch, p);
      case _ =>
    }
  }

  lemma WalkStepConserved(c: Config, s: State, p: string)
    requires s.next <= |c.events| && Enabled(c, s, Walk)
    requires Occ(Jobs(c, c.events[..s.next]), p) == Places(s, p)
    ensures Occ(Jobs(c, c.events[..s.next + 1]), p) == Places(Apply(c, s, Walk), p)
  {
    hide WorkerStep, WriterStep;
    hide InHands, Flatten, Jobs, Occ;
    EventsSnoc(c, s.next);
    var e := c.events[s.next];
    if e.Audio? {
      OccAppend(Jobs(c, c.events[..s.next]), [e.path], p);
      OccAppend(s.jobs, [e.path], p);
    }
    assert Jobs(c, c.events[..s.next]) + [] == Jobs(c, c.events[..s.next]);
  }

  lemma OtherStepConserved(c: Config, s: State, a: Action, p: string)
    requires Enabled(c, s, a) && !ByWorker(a) && !ByWriter(a) && !a.Walk?
    ensures Places(Apply(c, s, a), p) == Places(s, p)
  {
    hide WorkerStep, WriterStep, MainStep;
    hide InHands, Flatten, Occ;
  }

  lemma OnlyWalkAdvances(c: Config, s: State, a: Action)
    requires Enabled(c, s, a)
    ensures Apply(c, s, a).next == if a.Walk? then s.next + 1 else s.next
    ensures a.Walk? ==> s.next < |c.events|
  {
    hide WorkerStep, WriterStep, MainStep;
  }

  lemma StepConservedAt(c: Config, s: State, a: Action, p: string)
    requires s.next <= |c.events| && Enabled(c, s, a) && WriterShape(c, s)
    requires Occ(Jobs(c, c.events[..s.next]), p) == Places(s, p)
    ensures Apply(c, s, a).next <= |c.events|
    ensures Occ(Jobs(c, c.events[..Apply(c, s, a).next]), p) == Places(Apply(c, s, a), p)
  {
    hide Jobs, Occ, Places, Enabled, Apply, WriterShape;
    OnlyWalkAdvances(c, s, a);
    if ByWorker(a) {
      WorkerStepConserved(c, s, a, p);
    } else if ByWriter(a) {
      WriterStepConserved(c, s, a, p);
    } else if a.Walk? {
      WalkStepConserved(c, s, p);
    } else {
      OtherStepConserved(c, s, a, p);
    }
  }

  lemma StepConserved(c: Config, s: State, a: Action)
    requires s.next <= |c.events| && Conserved(c, s) && Enabled(c, s, a) && WriterShape(c, s)
    ensures Apply(c, s, a).next <= |c.events| && Conserved(c, Apply(c, s, a))
  {
    hide Jobs, Occ, Places, Enabled, Apply, WriterShape;
    OnlyWalkAdvances(c, s, a);
    forall p ensures Occ(Jobs(c, c.events[..Apply(c, s, a).next]), p) == Places(Apply(c, s, a), p) {
      StepConservedAt(c, s, a, p);
    }
  }

  lemma StepTallied(c: Config, s: State, a: Action)
    requires s.next <= |c.events| && Tallied(c, s) && Enabled(c, s, a) && WriterShape(c, s)
    ensures Apply(c, s, a).next <= |c.events| && Tallied(c, Apply(c, s, a))
  {
    hide WorkerStep, WriterStep, MainStep, Jobs, Skips, AudioPaths, Flatten;
    if a.Walk? {
      WalkTallied(c, s);
    } else if ByWriter(a) {
      WriterTallied(c, s, a);
    }
  }

  lemma WalkTallied(c: Config, s: State)
    requires s.next <= |c.events| && Tallied(c, s) && Enabled(c, s, Walk)
    ensures Apply(c, s, Walk).next <= |c.events| && Tallied(c, Apply(c, s, Walk))
  {
    hide WorkerStep, WriterStep, Jobs, Skips, AudioPaths, Flatten;
    EventsSnoc(c, s.next);
  }

  lemma WriterTallied(c: Config, s: State, a: Action)
    requires s.next <= |c.events| && Tallied(c, s) && Enabled(c, s, a) && WriterShape(c, s) && ByWriter(a)
    ensures Apply(c, s, a).next <= |c.events| && Tallied(c, Apply(c, s, a))
  {
    hide WorkerStep, MainStep, Jobs, Skips, AudioPaths, Flatten, Inserted;
    if a.Insert? {
      InsertTallied(c, s, a.outcome);
    }
  }

  lemma InsertTallied(c: Config, s: State, outcome: Outcome)
    requires s.writer.Inserting? && WriterShape(c, s)
    ensures var r := Inserted(s, outcome);
      |Flatten(r.committed)| + |r.lost| + |r.failed| == |s.batch| + |Flatten(s.committed)| + |s.lost| + |s.failed|
  {
    hide Flatten;
    FlattenSnoc(s.committed, s.batch);
  }

  lemma StepInv(c: Config, s: State, a: Action)
    requires ValidConfig(c) && Inv(c, s) && Enabled(c, s, a)
    ensures Inv(c, Apply(c, s, a))
  {
    hide Enabled, Apply, MainShape, WorkersShape, WriterShape, Contents, Conserved, Tallied, Logged;
    MainStepShape(c, s, a);
    WorkersStepShape(c, s, a);
    WriterStepShape(c, s, a);
    ChannelStepShape(c, s, a);
    StepContents(c, s, a);
    StepConserved(c, s, a);
    StepTallied(c, s, a);
    StepLogged(c, s, a);
  }

  /** Every state of every run satisfies the invariant. */
  lemma {:induction false} RunInv(c: Config, states: seq<State>, actions: seq<Action>, i: nat)
    requires ValidConfig(c) && IsRun(c, states, actions) && i <= |actions|
    ensures Inv(c, states[i])
  {
    hide Inv, Enabled, Apply, Init;
    if i == 0 {
      InitInv(c);
    } else {
      RunInv(c, states, actions, i - 1);
      StepInv(c, states[i - 1], actions[i - 1]);
    }
  }

  ghost predicate Reachable(c: Config, s: State) {
    exists states, actions :: IsRun(c, states, actions) && s == states[|actions|]
  }

  lemma ReachableInv(c: Config, s: State)
    requires ValidConfig(c) && Reachable(c, s)
    ensures Inv(c, s)
  {
    hide Inv;
    var states, actions :| IsRun(c, states, actions) && s == states[|actions|];
    RunInv(c, states, actions, |actions|);
  }

  /* ---------------- safety ---------------- */

  /** Whatever a goroutine may do next, it sends on no closed channel and closes none twice. */
  lemma NoSendOnClosedChannel(c: Config, s: State, a: Action)
    requires ValidConfig(c) && Reachable(c, s) && Enabled(c, s, a)
    ensures a.Walk? || a.CloseJobs? ==> !s.closed
    ensures a.Send? || a.CloseResults? ==> !s.resultsClosed
  {
    ReachableInv(c, s);
    hide Contents, Conserved, Tallied, Logged;
  }

  /** A statement of the main goroutine is running on the write connection. */
  predicate MainOnConnection(s: State) {
    s.main.Loading? || s.main.Finishing?
  }

  /** A batch transaction is running on the write connection. */
  predicate WriterOnConnection(s: State) {
    s.writer.Inserting?
  }

  /** The main goroutine and the writer never use the write connection at the same time: neither before nor after any
      step; and once the main goroutine has returned nothing happens. */
  lemma OneConnectionUser(c: Config, s: State, a: Action)
    requires ValidConfig(c) && Reachable(c, s)
    ensures !((s.main.Loading? || s.main.Finishing?) && s.writer.Inserting?)
    ensures Enabled(c, s, a) ==> !(MainOnConnection(Apply(c, s, a)) && WriterOnConnection(Apply(c, s, a)))
    ensures Ended(s) ==> !Enabled(c, s, a)
  {
    hide Contents, Conserved, Tallied, Logged, Apply, ChannelShape, Reachable;
    ReachableInv(c, s);
    if Enabled(c, s, a) {
      StepInv(c, s, a);
    }
    if s.main.Aborted? {
      SomeIdle(c, s);
    }
  }

  lemma {:induction false} JobsAppend(c: Config, a: seq<Event>, b: seq<Event>)
    ensures Jobs(c, a + b) == Jobs(c, a) + Jobs(c, b)
  {
    if b == [] {
      assert a + b == a;
    } else {
      JobsAppend(c, a, b[..|b| - 1]);
      assert (a + b)[..|a + b| - 1] == a + b[..|b| - 1];
    }
  }

  /** In every reachable state each changed file, as often as the walk meets it, is in exactly one place: not walked
      yet, queued, with a worker, unreadable, a result, batched, committed, lost, failed or drained. */
  lemma JobsConserved(c: Config, s: State, p: string)
    requires ValidConfig(c) && Reachable(c, s)
    ensures s.next <= |c.events|
    ensures Occ(Jobs(c, c.events), p) == Occ(Jobs(c, c.events[s.next..]), p) + Places(s, p)
  {
    ReachableInv(c, s);
    hide Places, Occ, Jobs, Reachable;
    assert c.events == c.events[..s.next] + c.events[s.next..];
    JobsAppend(c, c.events[..s.next], c.events[s.next..]);
    OccAppend(Jobs(c, c.events[..s.next]), Jobs(c, c.events[s.next..]), p);
  }

  /* ---------------- batches ---------------- */

  ghost predicate FullButLast(c: Config, inserts: seq<Insertion>, last: bool) {
    && (forall k | 0 <= k < |inserts| :: 0 < |inserts[k].batch| <= c.batchSize)
    && forall k | 0 <= k < |inserts| - (if last then 1 else 0) :: |inserts[k].batch| == c.batchSize
  }

  ghost predicate Batched(c: Config, s: State) {
    && FullButLast(c, s.inserts, s.writer.Done?)
    && (s.writer.Inserting? && !s.writer.last ==> |s.batch| == c.batchSize)
  }

  lemma StepBatched(c: Config, s: State, a: Action)
    requires ValidConfig(c) && WriterShape(c, s) && Batched(c, s) && Enabled(c, s, a)
    ensures Batched(c, Apply(c, s, a))
  {
    if a.Insert? {
      InsertBatched(c, s, a.outcome);
    } else if ByWriter(a) {
      WriterStepBatched(c, s, a);
    } else {
      OtherStepBatched(c, s, a);
    }
  }

  lemma InsertBatched(c: Config, s: State, outcome: Outcome)
    requires WriterShape(c, s) && Batched(c, s) && Enabled(c, s, Insert(outcome))
    ensures Batched(c, Apply(c, s, Insert(outcome)))
  {
    hide WorkerStep, MainStep;
  }

  lemma WriterStepBatched(c: Config, s: State, a: Action)
    requires ValidConfig(c) && WriterShape(c, s) && Batched(c, s) && Enabled(c, s, a) && ByWriter(a) && !a.Insert?
    ensures Batched(c, Apply(c, s, a))
  {
    hide WorkerStep, MainStep, Inserted;
  }

  lemma OtherStepBatched(c: Config, s: State, a: Action)
    requires Batched(c, s) && Enabled(c, s, a) && !ByWriter(a)
    ensures Batched(c, Apply(c, s, a))
  {
    hide WorkerStep, WriterStep, MainStep;
  }

  lemma {:induction false} RunBatched(c: Config, states: seq<State>, actions: seq<Action>, i: nat)
    requires ValidConfig(c) && IsRun(c, states, actions) && i <= |actions|
    ensures Batched(c, states[i])
  {
    hide Enabled, Apply, Batched, MainShape, WorkersShape, WriterShape, ChannelShape, Contents, Conserved, Tallied,
         Logged;
    if i == 0 {
      InitBatched(c);
    } else {
      RunBatched(c, states, actions, i - 1);
      RunInv(c, states, actions, i - 1);
      StepBatched(c, states[i - 1], actions[i - 1]);
    }
  }

  lemma InitBatched(c: Config)
    ensures Batched(c, Init(c))
  {
  }

  /** The writer inserts full batches, and at most one that is not: the last one, when the results have ended. */
  lemma BatchesAreFull(c: Config, s: State)
    requires ValidConfig(c) && Reachable(c, s)
    ensures FullButLast(c, s.inserts, s.writer.Done?)
  {
    hide Batched;
    var states, actions :| IsRun(c, states, actions) && s == states[|actions|];
    RunBatched(c, states, actions, |actions|);
    BatchedLog(c, s);
  }

  lemma BatchedLog(c: Config, s: State)
    requires Batched(c, s)
    ensures FullButLast(c, s.inserts, s.writer.Done?)
  {
  }

  /* ---------------- no deadlock ---------------- */

  lemma WorkerCanMove(c: Config, s: State, w: nat) returns (a: Action)
    requires ValidConfig(c) && WorkersShape(c, s) && ChannelShape(c, s) && w < |s.workers| && !s.workers[w].Exited?
    ensures Enabled(c, s, a) || (s.workers[w].Sending? && |s.results| == c.resultCap)
         || (s.workers[w].Idle? && s.jobs == [] && !s.closed)
  {
    a := if s.workers[w].Reading? then Read(w)
         else if s.workers[w].Sending? then Send(w)
         else if s.jobs != [] then Take(w) else Exit(w);
  }

  /** Results waiting in the channel can always be consumed. */
  lemma WriterCanMove(c: Config, s: State) returns (a: Action)
    requires WriterShape(c, s) && (s.results != [] || s.writer.Inserting?)
    ensures Enabled(c, s, a)
  {
    a := if s.writer.Inserting? then Insert(Committed) else if s.writer.Draining? then Drain else Receive;
  }

  /** Every reachable state whose main goroutine has not returned has an enabled step. */
  lemma NeverStuck(c: Config, s: State) returns (a: Action)
    requires ValidConfig(c) && Reachable(c, s) && !Ended(s)
    ensures Enabled(c, s, a)
  {
    ReachableInv(c, s);
    hide Contents, Conserved, Tallied, Logged;
    if s.main.Loading? || s.main.Finishing? {
      a := if s.main.Loading? then Load else Return;
    } else if s.results != [] || s.writer.Inserting? {
      a := WriterCanMove(c, s);
    } else if w :| 0 <= w < |s.workers| && !s.workers[w].Exited? && !(s.workers[w].Idle? && s.jobs == [] && !s.closed) {
      a := WorkerCanMove(c, s, w);
    } else if !s.closed {
      assert s.workers[0].Idle? && s.jobs == [];
      a := if s.next < |c.events| then Walk else CloseJobs;
    } else if !s.resultsClosed {
      a := CloseResults;
    } else {
      a := if s.writer.Done? then Join else EndResults;
    }
  }

  /* ---------------- termination ---------------- */

  function WorkerCost(w: Worker): nat {
    match w
    case Exited => 0
    case Idle => 1
    case Reading(_) => 6
    case Sending(_) => 5
  }

  function WorkersCost(workers: seq<Worker>): nat {
    if workers == [] then 0 else WorkerCost(workers[0]) + WorkersCost(workers[1..])
  }

  function WriterCost(w: Writer): nat {
    match w
    case Done => 0
    case Draining => 1
    case Receiving => 3
    case Inserting(last) => if last then 2 else 3
  }

  function MainCost(c: Config, m: Main): int {
    match m
    case Returned => 0
    case Aborted => 0
    case Finishing(done) => 1 + c.statements - done
    case Waiting => 2 + c.statements
    case Walking => 3 + c.statements
    case Loading => 4 + c.statements
  }

  /** Work left: every queue weighted by the number of stages still ahead of its items. */
  function Measure(c: Config, s: State): int {
    7 * (|c.events| - s.next) + 6 * |s.jobs| + WorkersCost(s.workers) + 3 * |s.results| + 2 * |s.batch|
    + WriterCost(s.writer) + MainCost(c, s.main) + (if s.closer then 1 else 0)
  }

  lemma {:induction false} CostUpdate(workers: seq<Worker>, w: nat, x: Worker)
    requires w < |workers|
    ensures WorkersCost(workers[w := x]) == WorkersCost(workers) - WorkerCost(workers[w]) + WorkerCost(x)
  {
    if w == 0 {
      assert workers[w := x][1..] == workers[1..];
    } else {
      CostUpdate(workers[1..], w - 1, x);
      assert workers[w := x][1..] == workers[1..][w - 1 := x];
    }
  }

  lemma WorkerStepFalls(c: Config, s: State, a: Action)
    requires Enabled(c, s, a) && ByWorker(a)
    ensures Measure(c, Apply(c, s, a)) < Measure(c, s)
  {
    hide WriterStep, MainStep;
    hide WorkersCost;
    CostUpdate(s.workers, a.w, Apply(c, s, a).workers[a.w]);
  }

  lemma WriterStepFalls(c: Config, s: State, a: Action)
    requires Enabled(c, s, a) && ByWriter(a) && WriterShape(c, s)
    ensures Measure(c, Apply(c, s, a)) < Measure(c, s)
  {
    hide WorkerStep, MainStep;
    hide WorkersCost;
  }

  lemma OtherStepFalls(c: Config, s: State, a: Action)
    requires Enabled(c, s, a) && !ByWorker(a) && !ByWriter(a) && MainShape(c, s)
    ensures Measure(c, Apply(c, s, a)) < Measure(c, s)
  {
    hide WorkerStep, WriterStep;
    hide WorkersCost;
  }

  /** Every step of any goroutine uses up some of the work left. */
  lemma StepFalls(c: Config, s: State, a: Action)
    requires Enabled(c, s, a) && WriterShape(c, s) && MainShape(c, s)
    ensures Measure(c, Apply(c, s, a)) < Measure(c, s)
  {
    hide Enabled, Apply, Measure, WriterShape, MainShape;
    if ByWorker(a) {
      WorkerStepFalls(c, s, a);
    } else if ByWriter(a) {
      WriterStepFalls(c, s, a);
    } else {
      OtherStepFalls(c, s, a);
    }
  }

  lemma {:induction false} IdleCost(n: nat)
    ensures WorkersCost(seq(n, i => Idle)) == n
  {
    if n > 0 {
      IdleCost(n - 1);
      assert seq(n, i => Idle)[1..] == seq(n - 1, i => Idle);
    }
  }

  lemma {:induction false} RunBounded(c: Config, states: seq<State>, actions: seq<Action>, i: nat)
    requires ValidConfig(c) && IsRun(c, states, actions) && i <= |actions|
    ensures 0 <= Measure(c, states[i]) <= Measure(c, Init(c)) - i
  {
    hide Enabled, Apply, Init, Measure, MainShape, WorkersShape, WriterShape, Contents, Conserved, Tallied, Logged;
    RunInv(c, states, actions, i);
    MeasureNonnegative(c, states[i]);
    if i > 0 {
      RunInv(c, states, actions, i - 1);
      RunBounded(c, states, actions, i - 1);
      StepFalls(c, states[i - 1], actions[i - 1]);
    }
  }

  lemma MeasureNonnegative(c: Config, s: State)
    requires ChannelShape(c, s) && MainShape(c, s)
    ensures 0 <= Measure(c, s)
  {
  }

  /** Every interleaving ends: no run is longer than this, whatever fails. */
  lemma AlwaysTerminates(c: Config, states: seq<State>, actions: seq<Action>)
    requires ValidConfig(c) && IsRun(c, states, actions)
    ensures |actions| <= 7 * |c.events| + c.workers + c.statements + 8
  {
    hide IsRun;
    RunBounded(c, states, actions, |actions|);
    IdleCost(c.workers);
  }

  /* ---------------- how a scan ends ---------------- */

  lemma {:induction false} ExitedHands(workers: seq<Worker>, p: string)
    requires forall w | 0 <= w < |workers| :: workers[w].Exited?
    ensures InHands(workers, p) == 0
  {
    if workers != [] {
      ExitedHands(workers[1..], p);
    }
  }

  lemma OccIn(s: seq<string>, p: string)
    ensures p in s <==> Occ(s, p) > 0
  {
  }

  /** The pipeline has ended and the writer has reported no error. */
  predicate Succeeded(s: State) {
    Joined(s) && !s.writerErr
  }

  /** A successful pipeline has committed or, at an unreported COMMIT failure, lost every changed readable file as
      often as the walk met it, and nothing else; it has seen every audio file, and has counted all of them but the
      unreadable ones. */
  lemma SuccessAccountsForAll(c: Config, s: State)
    requires ValidConfig(c) && Reachable(c, s) && Succeeded(s)
    ensures forall p | p in c.readable :: Occ(Flatten(s.committed), p) + Occ(s.lost, p) == Occ(Jobs(c, c.events), p)
    ensures AllReadable(c, Flatten(s.committed)) && AllReadable(c, s.lost)
    ensures s.seen == AudioPaths(c.events)
    ensures s.count == Skips(c, c.events) + |Flatten(s.committed)| + |s.lost|
  {
    ReachableInv(c, s);
    hide Jobs, Flatten, Skips, AudioPaths, Reachable, Logged;
    assert c.events[..s.next] == c.events;
    forall p | p in c.readable ensures Occ(Flatten(s.committed), p) + Occ(s.lost, p) == Occ(Jobs(c, c.events), p) {
      ExitedHands(s.workers, p);
      OccIn(s.unreadable, p);
      assert s.workers[0].Exited?;
    }
  }

  /** Every changed readable file is committed as often as the walk met it. */
  ghost predicate CommitsAll(c: Config, s: State) {
    forall p | p in c.readable :: Occ(Flatten(s.committed), p) == Occ(Jobs(c, c.events), p)
  }

  /** A successful pipeline has committed every changed readable file if and only if no COMMIT failed unreported. */
  lemma SuccessCommitsAllIff(c: Config, s: State)
    requires ValidConfig(c) && Reachable(c, s) && Succeeded(s)
    ensures CommitsAll(c, s) <==> s.lost == []
  {
    SuccessAccountsForAll(c, s);
    hide Jobs, Flatten, Reachable, ValidConfig;
    if s.lost != [] {
      assert s.lost[0] in s.lost;
      OccIn(s.lost, s.lost[0]);
    }
  }

  lemma ReachableInit(c: Config)
    ensures Reachable(c, Init(c))
  {
    var states, actions: seq<Action> := [Init(c)], [];
    assert IsRun(c, states, actions) && states[|actions|] == Init(c);
  }

  lemma ReachableStep(c: Config, s: State, a: Action)
    requires Reachable(c, s) && Enabled(c, s, a)
    ensures Reachable(c, Apply(c, s, a))
  {
    var states, actions :| IsRun(c, states, actions) && s == states[|actions|];
    RunSnoc(c, states, actions, a);
    var states', actions' := states + [Apply(c, s, a)], actions + [a];
    hide IsRun;
    assert states'[|actions'|] == Apply(c, s, a);
  }

  lemma RunSnoc(c: Config, states: seq<State>, actions: seq<Action>, a: Action)
    requires IsRun(c, states, actions) && Enabled(c, states[|actions|], a)
    ensures IsRun(c, states + [Apply(c, states[|actions|], a)], actions + [a])
  {
    hide Enabled, Apply, Init;
  }

  const PATH := "/a.mp3"

  function OneFile(t: Track): Config {
    Config([Audio(PATH, 2, 1)], map[], map[PATH := t], 1, 1, 1, 1, 0)
  }

  lemma Perform(c: Config, s: State, a: Action, r: State)
    requires Reachable(c, s) && Enabled(c, s, a) && r == Apply(c, s, a)
    ensures Reachable(c, r)
  {
    ReachableStep(c, s, a);
  }

  lemma OneWalk(t: Track) returns (s: State)
    ensures s == State(Walking, 1, {PATH}, false, [PATH], [Idle], [], [], false, true,
                       Receiving, [], false, [], [], [], [], [], 0)
    ensures Reachable(OneFile(t), s)
  {
    hide Reachable, WorkerStep, WriterStep;
    var c := OneFile(t);
    var s0 := Init(c);
    ReachableInit(c);
    var s1 := s0.(main := Walking);
    Perform(c, s0, Load, s1);
    s := s1.(next := 1, seen := {PATH}, jobs := [PATH]);
    Perform(c, s1, Walk, s);
    assert s.workers == [Idle];
  }

  lemma OneSend(t: Track, s: State) returns (r: State)
    requires s.jobs == [PATH] && s.workers == [Idle] && s.results == [] && Reachable(OneFile(t), s)
    ensures r == s.(jobs := [], results := [PATH]) && Reachable(OneFile(t), r)
  {
    hide Reachable, WriterStep, MainStep;
    var c := OneFile(t);
    var s1 := s.(jobs := [], workers := [Reading(PATH)]);
    Perform(c, s, Take(0), s1);
    var s2 := s1.(workers := [Sending(PATH)]);
    Perform(c, s1, Read(0), s2);
    r := s2.(workers := [Idle], results := [PATH]);
    Perform(c, s2, Send(0), r);
    assert r.workers == s.workers;
  }

  lemma OneInsert(t: Track, s: State, outcome: Outcome) returns (r: State)
    requires s.results == [PATH] && s.batch == [] && s.writer.Receiving? && s.inserts == []
    requires s.lost == [] && s.committed == [] && !outcome.Refused? && Reachable(OneFile(t), s)
    ensures r == s.(results := [], inserts := [Insertion([PATH], outcome)], count := s.count + 1,
                    lost := if outcome.Lost? then [PATH] else [], committed := if outcome.Lost? then [] else [[PATH]])
    ensures Reachable(OneFile(t), r)
  {
    hide Reachable, WorkerStep, MainStep;
    var c := OneFile(t);
    var s1 := s.(results := [], batch := [PATH], count := s.count + 1, writer := Inserting(false));
    Perform(c, s, Receive, s1);
    r := s1.(batch := [], writer := Receiving, inserts := [Insertion([PATH], outcome)],
             lost := if outcome.Lost? then [PATH] else [], committed := if outcome.Lost? then [] else [[PATH]]);
    Perform(c, s1, Insert(outcome), r);
  }

  lemma OneClose(t: Track, s: State) returns (r: State)
    requires s.main.Walking? && s.next == 1 && s.jobs == [] && s.workers == [Idle] && s.closer
    requires Reachable(OneFile(t), s)
    ensures r == s.(main := Waiting, closed := true, workers := [Exited], resultsClosed := true, closer := false)
    ensures Reachable(OneFile(t), r)
  {
    hide Reachable, WriterStep;
    var c := OneFile(t);
    var s1 := s.(main := Waiting, closed := true);
    Perform(c, s, CloseJobs, s1);
    var s2 := s1.(workers := [Exited]);
    Perform(c, s1, Exit(0), s2);
    r := s2.(resultsClosed := true, closer := false);
    Perform(c, s2, CloseResults, r);
  }

  /** One new file, stored or lost. */
  lemma OneBatch(t: Track, outcome: Outcome) returns (s: State)
    requires !outcome.Refused?
    ensures ValidConfig(OneFile(t)) && Reachable(OneFile(t), s) && Succeeded(s)
    ensures s.lost == (if outcome.Lost? then [PATH] else []) && s.committed == if outcome.Lost? then [] else [[PATH]]
    ensures s.seen == {PATH}
  {
    hide Reachable;
    var c := OneFile(t);
    s := OneWalk(t);
    s := OneSend(t, s);
    s := OneInsert(t, s, outcome);
    s := OneClose(t, s);
    var s1 := s.(writer := Done);
    Perform(c, s, EndResults, s1);
    s := s1.(main := Finishing(0));
    Perform(c, s1, Join, s);
  }

  /** One new file, and a COMMIT that fails unreported: the scan succeeds and the file is lost. */
  lemma LostBatch(t: Track) returns (s: State)
    ensures ValidConfig(OneFile(t)) && Reachable(OneFile(t), s) && Succeeded(s) && s.lost == [PATH] && s.committed == []
  {
    s := OneBatch(t, Lost);
  }

  /** A failed insert is reported, and everything after it is discarded: what was committed before stays. */
  lemma FailureKeepsWholeBatches(c: Config, s: State, a: Action)
    requires ValidConfig(c) && Reachable(c, s) && Enabled(c, s, a)
    ensures s.writerErr ==> Apply(c, s, a).writerErr && Apply(c, s, a).committed == s.committed
    ensures s.committed <= Apply(c, s, a).committed
    ensures s.committed != Apply(c, s, a).committed ==>
      Apply(c, s, a).committed == s.committed + [s.batch] && s.batch != []
  {
    hide WorkerStep, MainStep, WriterStep, Contents, Conserved, Tallied, MainShape, WorkersShape, ChannelShape,
         Logged;
    ReachableInv(c, s);
    if a.Insert? {
      InsertCommits(c, s, a.outcome);
    } else {
      OnlyInsertLogs(c, s, a);
    }
  }

  lemma InsertCommits(c: Config, s: State, outcome: Outcome)
    requires Enabled(c, s, Insert(outcome))
    ensures var s' := Apply(c, s, Insert(outcome));
      s'.committed == if outcome.Committed? then s.committed + [s.batch] else s.committed
  {
    hide WorkerStep, MainStep;
  }
}
