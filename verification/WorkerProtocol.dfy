/** On-demand start and stop of the port worker thread
    (socket/nearlink_socket_manager.cpp, class WorkerThread): any number of connect
    handlers and destroy calls interleave with the worker, one shared access per step. */
module WorkerProtocol {
  import opened Common

  /** Where a calling thread is. Connect handlers carry the descriptor they registered. */
  datatype Pc =
    | Idle
    | Registered(fd: nat)      // SetSocket done, RunThread not entered
    | RunLocked(fd: nat)       // RunThread holds the control mutex
    | StartFlag(fd: nat)       // saw running == false, will set it
    | StartJoin(fd: nat)       // will join an earlier thread if there is one
    | StartSpawn(fd: nat)      // will create the thread
    | RunUnlock(fd: nat)
    | Deregistered             // entry erased, StopThread not entered
    | StopLocked               // StopThread holds the control mutex
    | StopCheck                // saw the table empty, will read running
    | StopFlag                 // will clear running
    | StopWrite                // will write the wake byte
    | StopJoin(wrote: bool)    // will join the worker
    | StopClear(wrote: bool)   // will drain the wake socket
    | StopUnlock

  /** A worker thread: inside its loop, past the last read of `running`, or ended. */
  datatype Worker = Looping | Leaving | Done

  datatype State = State(
    threads: map<nat, Pc>,
    owner: Option<nat>,        // holder of controlMutex_
    table: set<nat>,           // keys of the worker's callback map
    running: bool,
    workers: seq<Worker>,      // every worker ever created
    handle: Option<nat>,       // the thread thread_ refers to, if joinable
    wake: nat,                 // bytes in the wake socket
    lastRun: bool)             // the last call to take controlMutex_ was RunThread

  const INIT := State(map[], None, {}, false, [], None, 0, false)

  const PIPE_BUFFER_SIZE := 1024

  datatype Move =
    | Connect(t: nat, fd: nat)
    | Destroy(t: nat, fd: nat)
    | Go(t: nat, ok: bool)     // next step of a call; `ok` is the result of the wake write
    | Poll(w: nat)             // the worker reads the wake socket
    | SeeStop(w: nat)          // the worker reads running == false
    | Return(w: nat)

  function At(s: State, t: nat): Pc {
    if t in s.threads then s.threads[t] else Idle
  }

  predicate Joined(s: State) {
    s.handle.Some? ==> s.handle.value < |s.workers| && s.workers[s.handle.value] == Done
  }

  predicate Enabled(s: State, m: Move) {
    match m
    case Connect(t, _) => At(s, t) == Idle
    case Destroy(t, _) => At(s, t) == Idle
    case Go(t, _) =>
      (match At(s, t)
       case Idle => false
       case Registered(_) => s.owner == None
       case Deregistered => s.owner == None
       case StartJoin(_) => Joined(s)
       case StopJoin(_) => Joined(s)
       case _ => true)
    case Poll(w) => w < |s.workers| && s.workers[w] == Looping && s.wake > 0
    case SeeStop(w) => w < |s.workers| && s.workers[w] == Looping && !s.running
    case Return(w) => w < |s.workers| && s.workers[w] == Leaving
  }

  function Put(s: State, t: nat, pc: Pc): State {
    s.(threads := s.threads[t := pc])
  }

  /** One step of a call in progress. */
  function Advance(s: State, t: nat, ok: bool): State {
    match At(s, t)
    case Idle => s
    // RunThread and Start
    case Registered(fd) => Put(s, t, RunLocked(fd)).(owner := Some(t), lastRun := true)
    case RunLocked(fd) => Put(s, t, if s.running then RunUnlock(fd) else StartFlag(fd))
    case StartFlag(fd) => Put(s, t, StartJoin(fd)).(running := true)
    case StartJoin(fd) => Put(s, t, StartSpawn(fd)).(handle := None)
    case StartSpawn(fd) => Put(s, t, RunUnlock(fd)).(handle := Some(|s.workers|), workers := s.workers + [Looping])
    case RunUnlock(_) => Put(s, t, Idle).(owner := None)
    // StopThread and Stop
    case Deregistered => Put(s, t, StopLocked).(owner := Some(t), lastRun := false)
    case StopLocked => Put(s, t, if s.table == {} then StopCheck else StopUnlock)
    case StopCheck => Put(s, t, if s.running then StopFlag else StopUnlock)
    case StopFlag => Put(s, t, StopWrite).(running := false)
    case StopWrite => Put(s, t, StopJoin(ok)).(wake := if ok then s.wake + 1 else s.wake)
    case StopJoin(wrote) => Put(s, t, StopClear(wrote)).(handle := None)
    case StopClear(wrote) => Put(s, t, StopUnlock).(wake := if wrote then 0 else s.wake)
    case StopUnlock => Put(s, t, Idle).(owner := None)
  }

  function Apply(s: State, m: Move): State
    requires Enabled(s, m)
  {
    match m
    case Connect(t, fd) => Put(s, t, Registered(fd)).(table := s.table + {fd})
    case Destroy(t, fd) => Put(s, t, Deregistered).(table := s.table - {fd})
    case Go(t, ok) => Advance(s, t, ok)
    case Poll(_) => s.(wake := if s.wake <= PIPE_BUFFER_SIZE then 0 else s.wake - PIPE_BUFFER_SIZE)
    case SeeStop(w) => s.(workers := s.workers[w := Leaving])
    case Return(w) => s.(workers := s.workers[w := Done])
  }

  /** A run, as the moves taken from a start state. */
  predicate Legal(s: State, ms: seq<Move>)
    decreases |ms|
  {
    ms == [] || (Enabled(s, ms[0]) && Legal(Apply(s, ms[0]), ms[1..]))
  }

  function Final(s: State, ms: seq<Move>): State
    requires Legal(s, ms)
    decreases |ms|
  {
    if ms == [] then s else Final(Apply(s, ms[0]), ms[1..])
  }

  ghost predicate Quiescent(s: State) {
    forall t: nat :: At(s, t) == Idle
  }

  // ------------------------------------------------------------------ invariants

  predicate Holds(pc: Pc) {
    !pc.Idle? && !pc.Registered? && !pc.Deregistered?
  }

  /** What the holder of the control mutex is doing; `Idle` when it is free. */
  function Phase(s: State): Pc {
    if s.owner == None then Idle else At(s, s.owner.value)
  }

  ghost predicate Mutex(s: State) {
    forall t: nat :: Holds(At(s, t)) <==> s.owner == Some(t)
  }

  /** At most the thread behind the handle is not ended. */
  ghost predicate OthersDone(s: State) {
    && (s.handle.Some? ==> s.handle.value < |s.workers|)
    && (forall i :: 0 <= i < |s.workers| && s.handle != Some(i) ==> s.workers[i] == Done)
  }

  predicate WorkerUp(s: State) {
    s.handle.Some? && s.handle.value < |s.workers| && s.workers[s.handle.value] == Looping
  }

  ghost predicate Lifecycle(s: State) {
    match Phase(s)
    case StartFlag(_) => !s.running && s.handle == None
    case StartJoin(_) => s.running && s.handle == None
    case StartSpawn(_) => s.running && s.handle == None
    case RunUnlock(_) => s.running && WorkerUp(s)
    case StopFlag => s.running && WorkerUp(s)
    case StopWrite => !s.running && s.handle.Some?
    case StopJoin(_) => !s.running && s.handle.Some?
    case StopClear(_) => !s.running && s.handle == None
    case _ => if s.running then WorkerUp(s) else s.handle == None
  }

  predicate WakeClean(s: State) {
    match Phase(s)
    case StopJoin(wrote) => s.wake <= if wrote then 1 else 0
    case StopClear(wrote) => s.wake <= if wrote then 1 else 0
    case _ => s.wake == 0
  }

  /** A connect handler that registered `fd` has not finished RunThread. */
  predicate PendingAt(pc: Pc, fd: nat) {
    match pc
    case Registered(f) => f == fd
    case RunLocked(f) => f == fd
    case StartFlag(f) => f == fd
    case StartJoin(f) => f == fd
    case StartSpawn(f) => f == fd
    case _ => false
  }

  ghost predicate Pending(s: State, fd: nat) {
    exists t: nat :: PendingAt(At(s, t), fd)
  }

  /** The flag is set, and nobody is about to clear it. */
  predicate Firm(s: State) {
    s.running && !Phase(s).StopCheck? && !Phase(s).StopFlag?
  }

  ghost predicate NoLostStart(s: State) {
    forall fd :: fd in s.table ==> Pending(s, fd) || Firm(s)
  }

  ghost predicate Inv(s: State) {
    Mutex(s) && OthersDone(s) && Lifecycle(s) && WakeClean(s) && NoLostStart(s)
  }

  lemma StepMutex(s: State, m: Move)
    requires Mutex(s) && Enabled(s, m)
    ensures Mutex(Apply(s, m))
  {
  }

  lemma StepWorkers(s: State, m: Move)
    requires Mutex(s) && OthersDone(s) && Lifecycle(s) && Enabled(s, m)
    ensures OthersDone(Apply(s, m))
  {
  }

  lemma StepLifecycle(s: State, m: Move)
    requires Mutex(s) && OthersDone(s) && Lifecycle(s) && Enabled(s, m)
    ensures Lifecycle(Apply(s, m))
  {
    if m.Go? {
      AdvanceLifecycle(s, m.t, m.ok);
    } else {
      hide Advance;
      assert Phase(Apply(s, m)) == Phase(s);
    }
  }

  lemma AdvanceLifecycle(s: State, t: nat, ok: bool)
    requires Mutex(s) && OthersDone(s) && Lifecycle(s) && Enabled(s, Go(t, ok))
    ensures Lifecycle(Advance(s, t, ok))
  {
    hide Lifecycle, OthersDone, Advance;
    assert Holds(At(s, t)) ==> s.owner == Some(t);
    if At(s, t).Registered? || InRunThread(At(s, t)) {
      AdvanceRun(s, t, ok);
    } else {
      AdvanceStop(s, t, ok);
    }
  }

  lemma AdvanceRun(s: State, t: nat, ok: bool)
    requires OthersDone(s) && Lifecycle(s) && Enabled(s, Go(t, ok))
    requires (At(s, t).Registered? && s.owner == None) || (InRunThread(At(s, t)) && s.owner == Some(t))
    ensures Lifecycle(Advance(s, t, ok))
  {
  }

  lemma AdvanceStop(s: State, t: nat, ok: bool)
    requires OthersDone(s) && Lifecycle(s) && Enabled(s, Go(t, ok))
    requires !At(s, t).Registered? && !InRunThread(At(s, t))
    requires s.owner == if At(s, t).Deregistered? then None else Some(t)
    ensures Lifecycle(Advance(s, t, ok))
  {
  }

  lemma StepWake(s: State, m: Move)
    requires Mutex(s) && WakeClean(s) && Enabled(s, m)
    ensures WakeClean(Apply(s, m))
  {
  }

  lemma TableComesFrom(s: State, m: Move, fd: nat)
    requires Enabled(s, m) && fd in Apply(s, m).table
    ensures fd in s.table || Pending(Apply(s, m), fd)
  {
    if m.Connect? && fd == m.fd {
      assert PendingAt(At(Apply(s, m), m.t), fd);
    }
  }

  /** A pending handler stays pending until it has made sure of the flag. */
  lemma StepPending(s: State, m: Move, fd: nat)
    requires Mutex(s) && Lifecycle(s) && Enabled(s, m) && Pending(s, fd)
    ensures Pending(Apply(s, m), fd) || Firm(Apply(s, m))
  {
    var s' := Apply(s, m);
    var t: nat :| PendingAt(At(s, t), fd);
    if m.Go? && m.t == t {
      AdvancePending(s, t, m.ok, fd);
    } else {
      assert PendingAt(At(s', t), fd);
    }
  }

  lemma AdvancePending(s: State, t: nat, ok: bool, fd: nat)
    requires Mutex(s) && Lifecycle(s) && Enabled(s, Go(t, ok)) && PendingAt(At(s, t), fd)
    ensures Pending(Advance(s, t, ok), fd) || Firm(Advance(s, t, ok))
  {
    var s' := Advance(s, t, ok);
    if PendingAt(At(s', t), fd) {
      assert Pending(s', fd);
    }
  }

  lemma StepFirm(s: State, m: Move)
    requires Mutex(s) && Firm(s) && s.table != {} && Enabled(s, m)
    ensures Firm(Apply(s, m))
  {
  }

  lemma StepNoLostStart(s: State, m: Move)
    requires Mutex(s) && Lifecycle(s) && NoLostStart(s) && Enabled(s, m)
    ensures NoLostStart(Apply(s, m))
  {
    hide Apply, Enabled, Mutex, Lifecycle, Firm, Pending;
    var s' := Apply(s, m);
    forall fd | fd in s'.table ensures Pending(s', fd) || Firm(s') {
      TableComesFrom(s, m, fd);
      if fd in s.table {
        if Pending(s, fd) {
          StepPending(s, m, fd);
        } else {
          StepFirm(s, m);
        }
      }
    }
  }

  lemma StepInv(s: State, m: Move)
    requires Inv(s) && Enabled(s, m)
    ensures Inv(Apply(s, m))
  {
    hide Mutex, OthersDone, Lifecycle, WakeClean, NoLostStart, Apply, Enabled;
    StepMutex(s, m);
    StepWorkers(s, m);
    StepLifecycle(s, m);
    StepWake(s, m);
    StepNoLostStart(s, m);
  }

  lemma {:induction false} RunInv(s: State, ms: seq<Move>)
    requires Inv(s) && Legal(s, ms)
    ensures Inv(Final(s, ms))
    decreases |ms|
  {
    hide Inv, Apply, Enabled;
    if ms == [] {
    } else {
      StepInv(s, ms[0]);
      RunInv(Apply(s, ms[0]), ms[1..]);
    }
  }

  lemma InitInv()
    ensures Inv(INIT)
  {
  }

  // ---------------------------------------------------------------- main results

  /** No start is lost: in every run, once all calls have returned, a non-empty
      callback table means the flag is set and a worker is inside its loop. */
  lemma NoStartIsLost(ms: seq<Move>)
    requires Legal(INIT, ms)
    ensures var s := Final(INIT, ms);
            Quiescent(s) && s.table != {} ==> s.running && WorkerUp(s)
  {
    hide Legal, Final;
    InitInv();
    RunInv(INIT, ms);
    QuietState(Final(INIT, ms));
  }

  lemma Member(fds: set<nat>) returns (fd: nat)
    requires fds != {}
    ensures fd in fds
  {
    fd :| fd in fds;
  }

  lemma QuietState(s: State)
    requires Inv(s)
    ensures Quiescent(s) && s.table != {} ==> s.running && WorkerUp(s)
  {
    if Quiescent(s) && s.table != {} {
      var fd := Member(s.table);
      assert !Pending(s, fd);
      assert forall t: nat :: !Holds(At(s, t));
    }
  }

  /** In every reachable state at most one worker is not ended, `Start` never has a
      thread to join, and the wake socket holds a byte only while a stop is
      between its write and its drain, in which case it holds exactly one: what a
      worker reads there is always a valid end tag. */
  lemma OneWorkerCleanWake(ms: seq<Move>)
    requires Legal(INIT, ms)
    ensures var s := Final(INIT, ms);
            && (forall v, w :: 0 <= v < w < |s.workers| ==> s.workers[v] == Done || s.workers[w] == Done)
            && (Phase(s).StartJoin? ==> s.handle == None)
            && (s.wake > 0 ==> s.wake == 1 && !s.running && (Phase(s).StopJoin? || Phase(s).StopClear?))
            && (Phase(s).StartSpawn? || Phase(s).StopUnlock? ==> s.wake == 0)
  {
    hide Legal, Final;
    InitInv();
    RunInv(INIT, ms);
  }

  // ------------------------------------------------ when flag and table agree

  predicate Checking(pc: Pc) {
    pc.Deregistered? || pc.StopLocked? || pc.StopCheck? || pc.StopFlag?
  }

  predicate InRunThread(pc: Pc) {
    pc.RunLocked? || pc.StartFlag? || pc.StartJoin? || pc.StartSpawn? || pc.RunUnlock?
  }

  /** The holder of the mutex is the last caller recorded. A RunThread that got past its
      test leaves the flag set; after a StopThread a worker without descriptors is about to
      be stopped by somebody. */
  ghost predicate LastCaller(s: State) {
    && (InRunThread(Phase(s)) ==> s.lastRun)
    && (Holds(Phase(s)) && !InRunThread(Phase(s)) ==> !s.lastRun)
    && (s.lastRun ==> s.running || Phase(s).RunLocked? || Phase(s).StartFlag?)
    && (!s.lastRun && s.running && s.table == {} ==> exists t: nat :: Checking(At(s, t)))
  }

  lemma StepLastCaller(s: State, m: Move)
    requires Mutex(s) && LastCaller(s) && Enabled(s, m)
    ensures LastCaller(Apply(s, m))
  {
    var s' := Apply(s, m);
    if !s'.lastRun && s'.running && s'.table == {} {
      if m.Destroy? || (m.Go? && At(s, m.t).Deregistered?) {
        assert Checking(At(s', m.t));
      } else {
        var t: nat :| Checking(At(s, t));
        assert Checking(At(s', t));
      }
    }
  }

  lemma {:induction false} RunLastCaller(s: State, ms: seq<Move>)
    requires Inv(s) && LastCaller(s) && Legal(s, ms)
    ensures Inv(Final(s, ms)) && LastCaller(Final(s, ms))
    decreases |ms|
  {
    hide Inv, LastCaller, Apply, Enabled;
    if ms == [] {
    } else {
      StepInv(s, ms[0]);
      assert Mutex(s) by { InvMutex(s); }
      StepLastCaller(s, ms[0]);
      RunLastCaller(Apply(s, ms[0]), ms[1..]);
    }
  }

  lemma InvMutex(s: State)
    requires Inv(s)
    ensures Mutex(s)
  {
  }

  /** In every run, once all calls have returned, the flag is set exactly when the table is
      not empty or the last call to take the control mutex was a RunThread. So flag and
      table disagree exactly when a RunThread came last and found an empty table. */
  lemma RunningExactly(ms: seq<Move>)
    requires Legal(INIT, ms)
    ensures var s := Final(INIT, ms);
            Quiescent(s) ==>
              && (s.running <==> s.table != {} || s.lastRun)
              && ((s.running <==> s.table != {}) <==> !(s.table == {} && s.lastRun))
  {
    hide Legal, Final;
    InitInv();
    RunLastCaller(INIT, ms);
    var s := Final(INIT, ms);
    QuietState(s);
    if Quiescent(s) {
      assert Phase(s) == Idle;
      assert forall t: nat :: !Checking(At(s, t));
    }
  }

  /** A run in which no descriptor is destroyed while its connect handler is still
      on its way through RunThread. */
  ghost predicate Disciplined(s: State, m: Move) {
    m.Destroy? ==> !Pending(s, m.fd)
  }

  ghost predicate DisciplinedRun(s: State, ms: seq<Move>)
    requires Legal(s, ms)
    decreases |ms|
  {
    ms == [] || (Disciplined(s, ms[0]) && DisciplinedRun(Apply(s, ms[0]), ms[1..]))
  }

  /** Pending descriptors stay registered, and once a RunThread came last an empty table is
      about to be noticed. */
  ghost predicate StopFollows(s: State) {
    && (forall t: nat, fd: nat :: PendingAt(At(s, t), fd) ==> fd in s.table)
    && (s.lastRun && s.table == {} ==> exists t: nat :: Checking(At(s, t)))
  }

  lemma StepStopFollows(s: State, m: Move)
    requires Mutex(s) && LastCaller(s) && StopFollows(s) && Enabled(s, m) && Disciplined(s, m)
    ensures StopFollows(Apply(s, m))
  {
    var s' := Apply(s, m);
    forall t: nat, fd: nat | PendingAt(At(s', t), fd) ensures fd in s'.table {
      if !(m.Connect? && t == m.t) {
        assert PendingAt(At(s, t), fd);
      }
    }
    if m.Go? && At(s, m.t).Registered? {
      var fd := At(s, m.t).fd;
      assert PendingAt(At(s, m.t), fd);
      assert fd in s'.table;
    } else if s'.lastRun && s'.table == {} {
      if m.Destroy? {
        assert Checking(At(s', m.t));
      } else {
        var t: nat :| Checking(At(s, t));
        assert Checking(At(s', t));
      }
    }
  }

  lemma {:induction false} DisciplinedRunInv(s: State, ms: seq<Move>)
    requires Inv(s) && LastCaller(s) && StopFollows(s) && Legal(s, ms) && DisciplinedRun(s, ms)
    ensures StopFollows(Final(s, ms))
    decreases |ms|
  {
    hide Inv, LastCaller, StopFollows, Apply, Enabled, Disciplined;
    if ms == [] {
    } else {
      StepInv(s, ms[0]);
      assert Mutex(s) by { InvMutex(s); }
      StepLastCaller(s, ms[0]);
      StepStopFollows(s, ms[0]);
      DisciplinedRunInv(Apply(s, ms[0]), ms[1..]);
    }
  }

  /** With that discipline a RunThread never comes last on an empty table, so flag and
      table agree whenever no call is in progress. */
  lemma RunningExactlyWhenNeeded(ms: seq<Move>)
    requires Legal(INIT, ms) && DisciplinedRun(INIT, ms)
    ensures var s := Final(INIT, ms);
            Quiescent(s) ==> (s.running <==> s.table != {})
  {
    hide Legal, Final, DisciplinedRun;
    InitInv();
    DisciplinedRunInv(INIT, ms);
    RunningExactly(ms);
    var s := Final(INIT, ms);
    if Quiescent(s) {
      assert forall t: nat :: !Checking(At(s, t));
    }
  }

  lemma {:induction false} Extend(s: State, ms: seq<Move>, m: Move)
    requires Legal(s, ms) && Enabled(Final(s, ms), m)
    ensures Legal(s, ms + [m]) && Final(s, ms + [m]) == Apply(Final(s, ms), m)
    decreases |ms|
  {
    if ms == [] {
    } else {
      Extend(Apply(s, ms[0]), ms[1..], m);
      assert (ms + [m])[1..] == ms[1..] + [m];
    }
  }

  /** Without it the disagreement happens: a destroy that overtakes RunThread leaves a worker
      running for an empty table. */
  lemma IdleWorkerIsReachable() returns (ms: seq<Move>)
    ensures Legal(INIT, ms)
    ensures var s := Final(INIT, ms); Quiescent(s) && s.running && s.table == {}
  {
    hide Legal, Final;
    var s;
    ms, s := DestroyOvertakes();
    ms, s := Take(ms, s, Go(1, true));
    ms, s := Take(ms, s, Go(1, true));
    ms, s := Take(ms, s, Go(1, true));
    assert At(s, 1) == StartJoin(7) && s.running;
    ms, s := Take(ms, s, Go(1, true));
    ms, s := Take(ms, s, Go(1, true));
    ms, s := Take(ms, s, Go(1, true));
  }

  lemma DestroyOvertakes() returns (ms: seq<Move>, s: State)
    ensures Legal(INIT, ms) && s == Final(INIT, ms)
    ensures s == State(map[1 := Registered(7), 2 := Idle], None, {}, false, [], None, 0, false)
  {
    hide Legal, Final;
    ms, s := Overtaking();
    ms, s := Take(ms, s, Go(2, true));
    ms, s := Take(ms, s, Go(2, true));
    ms, s := Take(ms, s, Go(2, true));
    assert s.threads == map[1 := Registered(7), 2 := Idle];
  }

  lemma Overtaking() returns (ms: seq<Move>, s: State)
    ensures Legal(INIT, ms) && s == Final(INIT, ms)
    ensures s == State(map[1 := Registered(7), 2 := StopLocked], Some(2), {}, false, [], None, 0, false)
  {
    hide Legal, Final;
    ms, s := [], INIT;
    assert Legal(INIT, []) && Final(INIT, []) == INIT by { RunNothing(); }
    ms, s := Take(ms, s, Connect(1, 7));
    ms, s := Take(ms, s, Destroy(2, 7));
    assert s.table == {} && At(s, 2) == Deregistered;
    ms, s := Take(ms, s, Go(2, true));
    assert s.threads == map[1 := Registered(7), 2 := StopLocked];
  }

  lemma RunNothing()
    ensures Legal(INIT, []) && Final(INIT, []) == INIT
  {
  }

  lemma Take(ms: seq<Move>, s: State, m: Move) returns (ms': seq<Move>, s': State)
    requires Legal(INIT, ms) && Final(INIT, ms) == s && Enabled(s, m)
    ensures ms' == ms + [m] && s' == Apply(s, m)
    ensures Legal(INIT, ms') && Final(INIT, ms') == s'
  {
    Extend(INIT, ms, m);
    ms', s' := ms + [m], Apply(s, m);
  }

  // ------------------------------------------------------------------ the wake byte

  /** A stop that wrote its byte finds it unread. */
  ghost predicate Unread(s: State) {
    forall t: nat :: At(s, t) == StopJoin(true) ==> s.wake == 1
  }

  predicate NoPolls(ms: seq<Move>) {
    forall i :: 0 <= i < |ms| ==> !ms[i].Poll?
  }

  lemma StepUnread(s: State, m: Move)
    requires Mutex(s) && WakeClean(s) && Unread(s) && Enabled(s, m) && !m.Poll?
    ensures Unread(Apply(s, m))
  {
    var s' := Apply(s, m);
    forall t: nat | At(s', t) == StopJoin(true) ensures s'.wake == 1 {
      assert Holds(At(s, t)) ==> s.owner == Some(t);
      if m.Go? && m.t != t {
        assert Holds(At(s, m.t)) ==> s.owner == Some(m.t);
        assert At(s, t) == StopJoin(true);
      }
    }
  }

  lemma InvWake(s: State)
    requires Inv(s)
    ensures Mutex(s) && WakeClean(s)
  {
  }

  /** The byte that a stop writes stays for the worker until the worker reads it, and then it is
      gone: while nobody polls, a stop waiting for the worker after a successful write has its
      byte in the wake socket, and a poll leaves none. */
  lemma {:induction false} WakeByteWaits(s: State, ms: seq<Move>)
    requires Inv(s) && Unread(s) && Legal(s, ms) && NoPolls(ms)
    ensures Unread(Final(s, ms))
    ensures forall w :: Enabled(Final(s, ms), Poll(w)) ==> Apply(Final(s, ms), Poll(w)).wake == 0
    decreases |ms|
  {
    hide Inv, Unread, Mutex, WakeClean;
    if ms == [] {
      PollTakesAll(s);
    } else {
      hide Apply, Enabled;
      assert !ms[0].Poll?;
      InvWake(s);
      StepUnread(s, ms[0]);
      StepInv(s, ms[0]);
      assert NoPolls(ms[1..]);
      WakeByteWaits(Apply(s, ms[0]), ms[1..]);
    }
  }

  lemma PollTakesAll(s: State)
    requires Inv(s)
    ensures forall w :: Enabled(s, Poll(w)) ==> Apply(s, Poll(w)).wake == 0
  {
    InvWake(s);
  }

  // ----------------------------------------------------------- the callback table

  /** The last connect handler or destroy call for this descriptor was a connect handler. */
  predicate LastConnect(ms: seq<Move>, fd: nat) {
    if ms == [] then false
    else
      var before, m := ms[..|ms| - 1], ms[|ms| - 1];
      match m
      case Connect(_, f) => f == fd || LastConnect(before, fd)
      case Destroy(_, f) => f != fd && LastConnect(before, fd)
      case _ => LastConnect(before, fd)
  }

  /** The worker's callback table holds exactly the descriptors that were registered last. */
  lemma {:induction false} TableIsHistory(ms: seq<Move>, fd: nat)
    requires Legal(INIT, ms)
    ensures fd in Final(INIT, ms).table <==> LastConnect(ms, fd)
    decreases |ms|
  {
    hide Legal, Final, Enabled;
    if ms == [] {
      RunNothing();
    } else {
      var before, m := ms[..|ms| - 1], ms[|ms| - 1];
      assert ms == before + [m];
      LegalSnoc(INIT, before, m);
      TableIsHistory(before, fd);
      Extend(INIT, before, m);
    }
  }

  lemma {:induction false} LegalSnoc(s: State, ms: seq<Move>, m: Move)
    requires Legal(s, ms + [m])
    ensures Legal(s, ms) && Enabled(Final(s, ms), m)
    decreases |ms|
  {
    hide Apply, Enabled;
    if ms == [] {
      assert ms + [m] == [m];
    } else {
      assert (ms + [m])[1..] == ms[1..] + [m];
      LegalSnoc(Apply(s, ms[0]), ms[1..], m);
    }
  }

  // --------------------------------------------------------------- every call returns

  /** A bound on what a call still has to do, counting the work it gives the worker. */
  function Rank(pc: Pc): nat {
    match pc
    case Idle => 0
    case Registered(_) => 9
    case RunLocked(_) => 8
    case StartFlag(_) => 7
    case StartJoin(_) => 6
    case StartSpawn(_) => 5
    case RunUnlock(_) => 1
    case Deregistered => 9
    case StopLocked => 8
    case StopCheck => 7
    case StopFlag => 6
    case StopWrite => 5
    case StopJoin(_) => 3
    case StopClear(_) => 2
    case StopUnlock => 1
  }

  function WorkerRank(w: Worker): nat {
    match w
    case Looping => 2
    case Leaving => 1
    case Done => 0
  }

  ghost function PickThread(m: map<nat, Pc>): (t: nat)
    requires m != map[]
    ensures t in m
  {
    var t :| t in m; t
  }

  ghost function Calls(m: map<nat, Pc>): nat {
    if m == map[] then 0 else Rank(m[PickThread(m)]) + Calls(m - {PickThread(m)})
  }

  function Workers(ws: seq<Worker>): nat {
    if ws == [] then 0 else WorkerRank(ws[0]) + Workers(ws[1..])
  }

  ghost function Work(s: State): nat {
    Calls(s.threads) + Workers(s.workers) + s.wake
  }

  lemma CallsPick(m: map<nat, Pc>)
    requires m != map[]
    ensures Calls(m) == Rank(m[PickThread(m)]) + Calls(m - {PickThread(m)})
  {
  }

  lemma {:induction false} CallsRemove(m: map<nat, Pc>, t: nat)
    requires t in m
    ensures Calls(m) == Rank(m[t]) + Calls(m - {t})
    decreases |m|
  {
    hide Calls, Rank;
    CallsPick(m);
    var u := PickThread(m);
    if u == t {
    } else {
      assert t in m - {u} && u in m - {t};
      CallsRemove(m - {u}, t);
      CallsRemove(m - {t}, u);
      assert m - {u} - {t} == m - {t} - {u};
    }
  }

  lemma CallsPut(s: State, t: nat, pc: Pc)
    ensures Calls(s.threads[t := pc]) + Rank(At(s, t)) == Calls(s.threads) + Rank(pc)
  {
    hide Calls;
    var m := s.threads[t := pc];
    CallsRemove(m, t);
    assert m - {t} == s.threads - {t};
    if t in s.threads {
      CallsRemove(s.threads, t);
    } else {
      assert s.threads - {t} == s.threads;
    }
  }

  lemma {:induction false} WorkersPut(ws: seq<Worker>, i: nat, w: Worker)
    requires i < |ws|
    ensures Workers(ws[i := w]) + WorkerRank(ws[i]) == Workers(ws) + WorkerRank(w)
  {
    hide WorkerRank;
    if i == 0 {
      assert ws[0 := w][1..] == ws[1..];
    } else {
      assert ws[i := w][1..] == ws[1..][i - 1 := w];
      WorkersPut(ws[1..], i - 1, w);
    }
  }

  lemma {:induction false} WorkersAppend(ws: seq<Worker>, w: Worker)
    ensures Workers(ws + [w]) == Workers(ws) + WorkerRank(w)
  {
    hide WorkerRank;
    if ws == [] {
      assert ws + [w] == [w] && [w][1..] == [];
    } else {
      assert (ws + [w])[1..] == ws[1..] + [w];
      WorkersAppend(ws[1..], w);
    }
  }

  predicate NewCall(m: Move) {
    m.Connect? || m.Destroy?
  }

  /** What one step of a call gives up, and what it adds. */
  ghost predicate Pays(s: State, s': State, t: nat) {
    && s'.threads == s.threads[t := At(s', t)]
    && (if At(s, t).StartSpawn?
        then s'.workers == s.workers + [Looping] && s'.wake == s.wake && Rank(At(s, t)) >= Rank(At(s', t)) + 3
        else s'.workers == s.workers && s'.wake <= s.wake + 1
             && Rank(At(s, t)) >= Rank(At(s', t)) + if s'.wake > s.wake then 2 else 1)
  }

  lemma AdvanceEffect(s: State, t: nat, ok: bool)
    requires Enabled(s, Go(t, ok))
    ensures Pays(s, Advance(s, t, ok), t)
  {
    hide Pays, Advance;
    if At(s, t).Registered? || InRunThread(At(s, t)) {
      RunPays(s, t, ok);
    } else {
      StopPays(s, t, ok);
    }
  }

  lemma RunPays(s: State, t: nat, ok: bool)
    requires At(s, t).Registered? || InRunThread(At(s, t))
    ensures Pays(s, Advance(s, t, ok), t)
  {
  }

  lemma StopPays(s: State, t: nat, ok: bool)
    requires At(s, t) != Idle && !At(s, t).Registered? && !InRunThread(At(s, t))
    ensures Pays(s, Advance(s, t, ok), t)
  {
  }

  lemma AdvanceWork(s: State, t: nat, ok: bool)
    requires Enabled(s, Go(t, ok))
    ensures Work(Advance(s, t, ok)) < Work(s)
  {
    hide Calls, Workers, Advance, Rank, Enabled;
    var s' := Advance(s, t, ok);
    AdvanceEffect(s, t, ok);
    CallsPut(s, t, At(s', t));
    WorkersAppend(s.workers, Looping);
  }

  /** Every step of a call and of the worker leaves less to do. */
  lemma StepWork(s: State, m: Move)
    requires Enabled(s, m) && !NewCall(m)
    ensures Work(Apply(s, m)) < Work(s)
  {
    hide Calls, Workers, Advance;
    match m {
      case Go(t, ok) => AdvanceWork(s, t, ok);
      case Poll(_) =>
      case SeeStop(w) => WorkersPut(s.workers, w, Leaving);
      case Return(w) => WorkersPut(s.workers, w, Done);
      case _ =>
    }
  }

  /** While some call is in progress, a call or the worker it waits for can go on. */
  lemma NoDeadlock(s: State)
    requires Inv(s) && !Quiescent(s)
    ensures exists m :: Enabled(s, m) && !NewCall(m)
  {
    var t: nat :| At(s, t) != Idle;
    if s.owner == None {
      assert !Holds(At(s, t));
      assert Enabled(s, Go(t, true)) && !NewCall(Go(t, true));
    } else {
      HolderGoesOn(s, s.owner.value);
    }
  }

  lemma HolderGoesOn(s: State, t: nat)
    requires Inv(s) && s.owner == Some(t)
    ensures exists m :: Enabled(s, m) && !NewCall(m)
  {
    hide NoLostStart, WakeClean;
    assert Holds(At(s, t));
    if At(s, t).StopJoin? && !Joined(s) {
      var w := s.handle.value;
      var m := if s.workers[w] == Looping then SeeStop(w) else Return(w);
      assert Enabled(s, m) && !NewCall(m);
    } else {
      assert Enabled(s, Go(t, true)) && !NewCall(Go(t, true));
    }
  }

  predicate NoNewCalls(ms: seq<Move>) {
    forall i :: 0 <= i < |ms| ==> !NewCall(ms[i])
  }

  lemma {:induction false} RunWork(s: State, ms: seq<Move>)
    requires Legal(s, ms) && NoNewCalls(ms)
    ensures Work(Final(s, ms)) + |ms| <= Work(s)
    decreases |ms|
  {
    hide Apply, Enabled, Work;
    if ms == [] {
    } else {
      assert !NewCall(ms[0]);
      StepWork(s, ms[0]);
      assert NoNewCalls(ms[1..]);
      RunWork(Apply(s, ms[0]), ms[1..]);
    }
  }

  /** From every reachable state, whatever the schedule: without new calls only a bounded number
      of steps is possible, and when none is left every call has returned. So no call waits for
      ever, the join of a stop included. */
  lemma EveryCallReturns(ms: seq<Move>, more: seq<Move>)
    requires Legal(INIT, ms) && Legal(Final(INIT, ms), more) && NoNewCalls(more)
    ensures |more| <= Work(Final(INIT, ms))
    ensures var s := Final(Final(INIT, ms), more);
            (forall m :: Enabled(s, m) ==> NewCall(m)) ==> Quiescent(s)
  {
    hide Legal, Final, Work, Enabled, Quiescent, NewCall, Inv, NoNewCalls;
    InitInv();
    RunInv(INIT, ms);
    RunInv(Final(INIT, ms), more);
    RunWork(Final(INIT, ms), more);
    var s := Final(Final(INIT, ms), more);
    if !Quiescent(s) {
      NoDeadlock(s);
    }
  }
}
