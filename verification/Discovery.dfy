/** The discovery monitor of the SSAP client (frameworks/native/nearlink_ssap_client.cpp):
    `isFinding`, `isGetServiceYet_` and the service cache, used by any number of threads.
    Each section under `clientMutex` is one step, except that `GetServices` keeps the mutex
    from clearing the cache to filling it, while lookups, which do not hold it, may store. */
module Discovery {
  import opened Common
  import opened ServiceParcel
  import opened ServiceLinking

  /** The monitor's fields, with history: discoveries opened, completions claimed,
      completions reported to the user callback, the claim count and handles of the last
      fetch, whether the service answered it, and for each cache entry the claim count when
      its answer was obtained. */
  datatype Shared = Shared(
    isFinding: bool, isGetServiceYet: bool, registered: bool, cache: Cache,
    starts: nat, claims: nat, reports: nat,
    fetchedAt: nat, fetchedHandles: set<Handle>, answered: bool, born: map<Handle, nat>,
    serviceOwes: bool)

  datatype Code = NoError | InternalError | UnavailableProxy

  const SSAP_CLIENT_READ_DATA_SIZE_MAX_LEN := 0xFF

  /** What comes back from the service for a fetch: whether the transaction went through, the
      service's code, the announced number of services, and what each read of one gives. */
  datatype Reply = Reply(sent: bool, code: int, count: int, parcels: seq<Option<Service>>)

  /** The number of services is plausible and as many can be read. */
  predicate Answered(r: Reply) {
    && r.sent && r.code == 0 && 0 <= r.count <= SSAP_CLIENT_READ_DATA_SIZE_MAX_LEN
    && r.count <= |r.parcels| && forall i :: 0 <= i < r.count ==> r.parcels[i].Some?
  }

  function ReadUntilBad(parcels: seq<Option<Service>>, n: nat): (services: seq<Service>)
    ensures |services| <= n && |services| <= |parcels|
    ensures forall i :: 0 <= i < |services| ==> parcels[i] == Some(services[i])
    ensures |services| < n ==> |services| == |parcels| || parcels[|services|] == None
  {
    if n == 0 || parcels == [] || parcels[0] == None then []
    else [parcels[0].value] + ReadUntilBad(parcels[1..], n - 1)
  }

  /** The services the proxy leaves in its result, whatever code it returns: those in front of
      the first unreadable one. */
  function Received(r: Reply): (services: seq<Service>) {
    if r.sent && r.code == 0 && 0 <= r.count <= SSAP_CLIENT_READ_DATA_SIZE_MAX_LEN
    then ReadUntilBad(r.parcels, r.count)
    else []
  }

  /** A fetch is answered exactly when the service agreed and all announced services are
      there; a failed one leaves fewer or none of them. */
  lemma AnsweredIsComplete(r: Reply)
    ensures Answered(r) <==>
            r.sent && r.code == 0 && r.count <= SSAP_CLIENT_READ_DATA_SIZE_MAX_LEN && |Received(r)| == r.count
    ensures Received(r) != [] ==> |Received(r)| <= r.count
  {
    hide ReadUntilBad;
  }

  /** Where a thread is; `number` is that of the discovery it opened. */
  datatype Pc =
    | Idle
    | WaitStart | Requesting(number: nat) | Completing(number: nat) | Reporting
    | WaitGet | Filling
    | WaitLook | Looking | Holding(services: seq<Service>, at: nat)

  /** `owner` is the thread that holds `clientMutex` between two steps. */
  datatype State = State(sh: Shared, threads: map<nat, Pc>, owner: Option<nat>)

  const FRESH := Shared(false, false, false, map[], 0, 0, 0, 0, {}, false, map[], false)
  const INIT := State(FRESH, map[], None)

  datatype Move =
    | Start(t: nat)                                          // FindStructure[ByUuid]Start, gate
    | Request(t: nat, proxy: bool, accepted: bool)           // ... and the call to the service
    | Complete(t: nat)                                       // either completion, or a disconnect
    | Report(t: nat)
    | GetServices(t: nat, proxy: bool)                       // GetServices up to the service call
    | Fill(t: nat, reply: Reply)                             // ... and its reply, failed or not
    | Lookup(t: nat)                                         // GetService[sByUuid], gate
    | Query(t: nat, answer: seq<Service>)
    | Store(t: nat)
    | Timeout(t: nat)
    | Register(registered: bool)

  function At(s: State, t: nat): Pc {
    if t in s.threads then s.threads[t] else Idle
  }

  // ------------------------------------------------------------ critical sections

  function Opened(sh: Shared): Shared {
    sh.(isFinding := true, starts := sh.starts + 1)
  }

  function Claimed(sh: Shared): Shared {
    sh.(isFinding := false, isGetServiceYet := false, claims := sh.claims + 1, serviceOwes := false)
  }

  function Cleared(sh: Shared): Shared {
    sh.(cache := map[], born := map[])
  }

  /** Whatever came back goes into the cache, and the cache counts as fetched. */
  function Filled(sh: Shared, reply: Reply): Shared {
    var answer := Received(reply);
    var cache := BuildList(sh.cache, answer);
    sh.(cache := cache, isGetServiceYet := true, fetchedAt := sh.claims, fetchedHandles := Handles(answer),
        answered := Answered(reply),
        born := map h | h in cache :: if h in Handles(answer) || h !in sh.born then sh.claims else sh.born[h])
  }

  /** `GetServices` once no discovery is open: the new state, and the code it returns unless
      it goes on to ask the service. */
  function Got(sh: Shared, proxy: bool): (Shared, Option<Code>) {
    if sh.isGetServiceYet then (sh, Some(NoError))
    else if !sh.registered then (sh, Some(InternalError))
    else if !proxy then (Cleared(sh), Some(UnavailableProxy))
    else (Cleared(sh), None)
  }

  function Stored(sh: Shared, s: Service, at: nat): Shared {
    sh.(cache := sh.cache[s.handle := BuildService(s)], born := sh.born[s.handle := at])
  }

  // ----------------------------------------------------------------------- moves

  predicate Enabled(s: State, m: Move) {
    match m
    case Start(t) => s.owner == None && (At(s, t) == Idle || At(s, t) == WaitStart)
    case Request(t, _, _) => At(s, t).Requesting?
    case Complete(t) => s.owner == None && (At(s, t) == Idle || At(s, t).Completing?)
    case Report(t) => At(s, t) == Reporting
    case GetServices(t, _) => s.owner == None && (At(s, t) == Idle || At(s, t) == WaitGet)
    case Fill(t, _) => At(s, t) == Filling
    case Lookup(t) => s.owner == None && (At(s, t) == Idle || At(s, t) == WaitLook)
    case Query(t, _) => At(s, t) == Looking
    case Store(t) => At(s, t).Holding?
    case Timeout(t) => At(s, t) == WaitStart || At(s, t) == WaitGet || At(s, t) == WaitLook
    case Register(_) => true
  }

  function Put(s: State, t: nat, pc: Pc): State {
    s.(threads := s.threads[t := pc])
  }

  function Apply(s: State, m: Move): State
    requires Enabled(s, m)
  {
    var sh := s.sh;
    match m
    case Start(t) =>
      if sh.isFinding then Put(s, t, WaitStart) else Put(s, t, Requesting(sh.starts + 1)).(sh := Opened(sh))
    case Request(t, proxy, accepted) =>
      if !sh.registered || !proxy then Put(s, t, Idle)
      else if accepted then Put(s, t, Idle).(sh := sh.(serviceOwes := true))
      else Put(s, t, Completing(At(s, t).number))
    case Complete(t) =>
      if sh.isFinding then Put(s, t, Reporting).(sh := Claimed(sh)) else Put(s, t, Idle)
    case Report(t) => Put(s, t, Idle).(sh := sh.(reports := sh.reports + 1))
    case GetServices(t, proxy) =>
      if sh.isFinding then Put(s, t, WaitGet)
      else
        var (sh', code) := Got(sh, proxy);
        if code.Some? then Put(s, t, Idle).(sh := sh') else Put(s, t, Filling).(sh := sh', owner := Some(t))
    case Fill(t, reply) => Put(s, t, Idle).(sh := Filled(sh, reply), owner := None)
    case Lookup(t) => Put(s, t, if sh.isFinding then WaitLook else Looking)
    case Query(t, answer) => Put(s, t, Holding(answer, sh.claims))
    case Store(t) =>
      var held := At(s, t);
      if held.services == [] then Put(s, t, Idle)
      else Put(s, t, Holding(held.services[1..], held.at)).(sh := Stored(sh, held.services[0], held.at))
    case Timeout(t) => Put(s, t, Idle)
    case Register(b) => s.(sh := sh.(registered := b))
  }

  predicate Legal(s: State, ms: seq<Move>)
    decreases |ms|
  {
    ms == [] || (Enabled(s, ms[0]) && Legal(Apply(s, ms[0]), ms[1..]))
  }

  function Final(s: State, ms: seq<Move>): State
    requires Legal(s, ms)
    decreases |ms|
  {
    if ms == [] then s else Final(Apply(s, ms[0]), ms[1..])
  }

  // ------------------------------------------------------------------ invariants

  function Reporters(s: State): set<nat> {
    set t | t in s.threads && s.threads[t] == Reporting
  }

  /** Opened discoveries are the claimed ones plus the one in flight. */
  predicate Counted(sh: Shared) {
    sh.starts == sh.claims + (if sh.isFinding then 1 else 0)
  }

  /** Besides, claimed ones are the reported ones plus those about to be reported. */
  ghost predicate Balanced(s: State) {
    && Counted(s.sh)
    && s.sh.claims == s.sh.reports + |Reporters(s)|
  }

  /** A fetched cache postdates every claimed completion and has lost none of its handles. */
  ghost predicate Current(sh: Shared) {
    && sh.born.Keys == sh.cache.Keys
    && (sh.isGetServiceYet ==> sh.fetchedAt == sh.claims && sh.fetchedHandles <= sh.cache.Keys)
  }

  /** A thread between clearing and filling holds the mutex, so nothing opens meanwhile. */
  ghost predicate Locked(s: State) {
    && (forall t: nat :: At(s, t) == Filling <==> s.owner == Some(t))
    && (s.owner.Some? ==> !s.sh.isFinding && !s.sh.isGetServiceYet)
  }

  lemma ReportersPut(s: State, t: nat, pc: Pc)
    ensures Reporters(Put(s, t, pc)) == if pc == Reporting then Reporters(s) + {t} else Reporters(s) - {t}
    ensures t in Reporters(s) <==> At(s, t) == Reporting
  {
  }

  lemma GotKeeps(sh: Shared, proxy: bool)
    ensures var (r, code) := Got(sh, proxy);
            && r.isFinding == sh.isFinding && r.isGetServiceYet == sh.isGetServiceYet
            && r.starts == sh.starts && r.claims == sh.claims && r.reports == sh.reports
            && r.answered == sh.answered
            && ((r.cache == sh.cache && r.born == sh.born) || (r.cache == map[] && r.born == map[]))
            && (code == None ==> r.cache == map[] && !sh.isGetServiceYet)
  {
  }

  lemma FilledKeeps(sh: Shared, reply: Reply)
    ensures var r := Filled(sh, reply);
            && r.isFinding == sh.isFinding && r.starts == sh.starts && r.claims == sh.claims && r.reports == sh.reports
            && r.isGetServiceYet && r.answered == Answered(reply)
  {
    hide BuildList, Handles, Received;
  }

  /** What a move does to the counters and to the calling thread. */
  lemma StepHistory(s: State, m: Move)
    requires Enabled(s, m)
    ensures var s' := Apply(s, m);
            var claim, report := m.Complete? && s.sh.isFinding, m.Report?;
            && s'.sh.claims == s.sh.claims + (if claim then 1 else 0)
            && s'.sh.reports == s.sh.reports + (if report then 1 else 0)
            && s'.sh.starts - s.sh.starts ==
               (if s'.sh.isFinding then 1 else 0) - (if s.sh.isFinding then 1 else 0) + (if claim then 1 else 0)
            && (m.Register? ==> s'.threads == s.threads)
            && (!m.Register? ==>
                  && s'.threads == Put(s, m.t, At(s', m.t)).threads
                  && (At(s', m.t) == Reporting <==> claim)
                  && (At(s, m.t) == Reporting <==> report))
  {
    hide Got, Filled, BuildService;
    if m.Fill? {
      FilledKeeps(s.sh, m.reply);
    } else if m.GetServices? {
      GotKeeps(s.sh, m.proxy);
    }
  }

  lemma StepBalanced(s: State, m: Move)
    requires Balanced(s) && Enabled(s, m)
    ensures Balanced(Apply(s, m))
  {
    hide Apply, Enabled, Reporters;
    var s' := Apply(s, m);
    StepHistory(s, m);
    if m.Register? {
      SameThreads(s, s');
    } else {
      var put := Put(s, m.t, At(s', m.t));
      ReportersPut(s, m.t, At(s', m.t));
      SameThreads(put, s');
    }
  }

  lemma SameThreads(s: State, r: State)
    requires s.threads == r.threads
    ensures Reporters(s) == Reporters(r)
  {
  }

  lemma BuildListKeys(cache: Cache, answer: seq<Service>)
    ensures BuildList(cache, answer).Keys == cache.Keys + Handles(answer)
  {
    InsertedKeys(cache, answer);
    LinksKeep(Inserted(cache, answer), answer);
  }

  lemma StepCurrent(s: State, m: Move)
    requires Current(s.sh) && Enabled(s, m)
    ensures Current(Apply(s, m).sh)
  {
    hide BuildList, BuildService, Received, Answered;
    if m.Fill? {
      BuildListKeys(s.sh.cache, Received(m.reply));
    }
  }

  lemma StepLocked(s: State, m: Move)
    requires Locked(s) && Enabled(s, m)
    ensures Locked(Apply(s, m))
  {
    hide Got, Filled, BuildService, Answered;
    if m.Fill? {
      FilledKeeps(s.sh, m.reply);
    } else if m.GetServices? {
      GotKeeps(s.sh, m.proxy);
    }
  }

  lemma {:induction false} RunInv(s: State, ms: seq<Move>)
    requires Balanced(s) && Current(s.sh) && Locked(s) && Legal(s, ms)
    ensures Balanced(Final(s, ms)) && Current(Final(s, ms).sh) && Locked(Final(s, ms))
    decreases |ms|
  {
    hide Balanced, Current, Locked, Apply, Enabled;
    if ms == [] {
    } else {
      StepBalanced(s, ms[0]);
      StepCurrent(s, ms[0]);
      StepLocked(s, ms[0]);
      RunInv(Apply(s, ms[0]), ms[1..]);
    }
  }

  lemma InitInv()
    ensures Balanced(INIT) && Current(INIT.sh) && Locked(INIT)
  {
    assert Reporters(INIT) == {};
  }

  // ---------------------------------------------------------------- main results

  /** In every run with any number of threads, discoveries never overlap and each is
      claimed once: opened == claimed + (1 if one is in flight), reported <= claimed. */
  lemma DiscoveryConservation(ms: seq<Move>)
    requires Legal(INIT, ms)
    ensures var s := Final(INIT, ms);
            && s.sh.starts == s.sh.claims + (if s.sh.isFinding then 1 else 0)
            && s.sh.claims == s.sh.reports + |Reporters(s)|
  {
    hide Legal, Final;
    InitInv();
    RunInv(INIT, ms);
  }

  /** A disconnect, like any completion, leaves nothing open, and claims exactly what was. */
  lemma DisconnectCloses(s: State, t: nat)
    requires At(s, t) == Idle && s.owner == None
    ensures var s' := Apply(s, Complete(t));
            && !s'.sh.isFinding
            && s'.sh.claims == s.sh.claims + (if s.sh.isFinding then 1 else 0)
            && (At(s', t) == Reporting <==> s.sh.isFinding)
  {
  }

  /** The moves with which `GetServices` returns NL_NO_ERROR. */
  predicate ReturnsServices(s: State, m: Move) {
    m.Fill? || (m.GetServices? && !s.sh.isFinding && Got(s.sh, m.proxy).1 == Some(NoError))
  }

  /** Whether the last fetch of a run was answered; `before` is for a run without any. */
  predicate LastAnswer(before: bool, ms: seq<Move>)
    decreases |ms|
  {
    if ms == [] then before
    else LastAnswer(if ms[0].Fill? then Answered(ms[0].reply) else before, ms[1..])
  }

  lemma StepAnswered(s: State, m: Move)
    requires Enabled(s, m)
    ensures Apply(s, m).sh.answered == if m.Fill? then Answered(m.reply) else s.sh.answered
  {
    hide Got, Filled, BuildService, Answered;
    if m.Fill? {
      FilledKeeps(s.sh, m.reply);
    } else if m.GetServices? {
      GotKeeps(s.sh, m.proxy);
    }
  }

  lemma {:induction false} RunAnswered(s: State, ms: seq<Move>)
    requires Legal(s, ms)
    ensures Final(s, ms).sh.answered == LastAnswer(s.sh.answered, ms)
    decreases |ms|
  {
    hide Apply, Enabled, Answered;
    if ms == [] {
    } else {
      StepAnswered(s, ms[0]);
      RunAnswered(Apply(s, ms[0]), ms[1..]);
    }
  }

  /** Whenever `GetServices` returns NL_NO_ERROR in any run, no discovery is in flight, and
      the cache was requested after the last completed discovery of either kind and still
      holds every handle received then. Whether that request was answered at all is another
      matter: it is exactly if the last fetch of the run was. */
  lemma GetServicesIsFresh(ms: seq<Move>, m: Move)
    requires Legal(INIT, ms) && Enabled(Final(INIT, ms), m) && ReturnsServices(Final(INIT, ms), m)
    ensures var sh := Apply(Final(INIT, ms), m).sh;
            && !sh.isFinding && sh.isGetServiceYet && sh.fetchedAt == sh.claims
            && sh.fetchedHandles <= sh.cache.Keys
            && (sh.answered <==> LastAnswer(false, ms + [m]))
  {
    InitInv();
    RunInv(INIT, ms);
    StepCurrent(Final(INIT, ms), m);
    Extend(INIT, ms, m);
    RunAnswered(INIT, ms + [m]);
    SuccessIsFetched(Final(INIT, ms), m);
  }

  lemma SuccessIsFetched(s: State, m: Move)
    requires Locked(s) && Enabled(s, m) && ReturnsServices(s, m)
    ensures !Apply(s, m).sh.isFinding && Apply(s, m).sh.isGetServiceYet
  {
    hide Got, Filled;
    if m.Fill? {
      assert s.owner == Some(m.t);
      FilledKeeps(s.sh, m.reply);
    } else {
      GotKeeps(s.sh, m.proxy);
      GotFetched(s.sh, m.proxy);
    }
  }

  lemma GotFetched(sh: Shared, proxy: bool)
    ensures Got(sh, proxy).1 == Some(NoError) <==> sh.isGetServiceYet
  {
  }

  // ---------------------------------------------------------------- failed fetches

  /** A cache that counts as fetched holds an answer of the service. */
  predicate Backed(sh: Shared) {
    sh.isGetServiceYet ==> sh.answered
  }

  /** `GetServices` does not look at the code of the fetch. */
  predicate FailedFetch(m: Move) {
    m.Fill? && !Answered(m.reply)
  }

  /** Every move keeps the cache backed, with the one exception of a failed fetch. */
  lemma StepBacked(s: State, m: Move)
    requires Backed(s.sh) && Locked(s) && Enabled(s, m)
    ensures Backed(Apply(s, m).sh) <==> !FailedFetch(m)
  {
    hide Got, Filled, BuildService, Answered;
    StepAnswered(s, m);
    if m.Fill? {
      FilledKeeps(s.sh, m.reply);
    } else if m.GetServices? {
      GotKeeps(s.sh, m.proxy);
    }
  }

  ghost predicate AlwaysBacked(s: State, ms: seq<Move>)
    requires Legal(s, ms)
    decreases |ms|
  {
    Backed(s.sh) && (ms == [] || AlwaysBacked(Apply(s, ms[0]), ms[1..]))
  }

  predicate NoFailedFetch(ms: seq<Move>) {
    forall i :: 0 <= i < |ms| ==> !FailedFetch(ms[i])
  }

  lemma {:induction false} RunBacked(s: State, ms: seq<Move>)
    requires Backed(s.sh) && Locked(s) && Legal(s, ms)
    ensures AlwaysBacked(s, ms) <==> NoFailedFetch(ms)
    decreases |ms|
  {
    hide Backed, Locked, Apply, Enabled, FailedFetch;
    if ms == [] {
    } else {
      StepBacked(s, ms[0]);
      StepLocked(s, ms[0]);
      assert ms == [ms[0]] + ms[1..];
      if !FailedFetch(ms[0]) {
        RunBacked(Apply(s, ms[0]), ms[1..]);
      } else {
        NotBackedNow(Apply(s, ms[0]), ms[1..]);
      }
    }
  }

  lemma NotBackedNow(s: State, ms: seq<Move>)
    requires Legal(s, ms) && !Backed(s.sh)
    ensures !AlwaysBacked(s, ms)
  {
  }

  /** For every run: a cache that counts as fetched holds an answer of the service in all of its
      states exactly when no fetch of the run failed. */
  lemma FetchedIsAnswered(ms: seq<Move>)
    requires Legal(INIT, ms)
    ensures AlwaysBacked(INIT, ms) <==> NoFailedFetch(ms)
  {
    hide Legal, AlwaysBacked, NoFailedFetch;
    InitInv();
    RunBacked(INIT, ms);
  }

  predicate Unbacked(s: State) {
    s.sh.isGetServiceYet && !s.sh.answered
  }

  ghost predicate AlwaysUnbacked(s: State, ms: seq<Move>)
    requires Legal(s, ms)
    decreases |ms|
  {
    Unbacked(s) && (ms == [] || AlwaysUnbacked(Apply(s, ms[0]), ms[1..]))
  }

  lemma StepUnbacked(s: State, m: Move)
    requires Unbacked(s) && Locked(s) && Enabled(s, m)
    ensures Unbacked(Apply(s, m)) <==> !(m.Complete? && s.sh.isFinding)
  {
    hide Got, Filled, BuildService, Answered;
    StepAnswered(s, m);
    if m.GetServices? {
      GotKeeps(s.sh, m.proxy);
    }
  }

  /** After a failed fetch the cache goes on counting as fetched, and every `GetServices`
      returns NL_NO_ERROR at once, exactly until the next completion is claimed. */
  lemma {:induction false} FailedFetchSticks(s: State, ms: seq<Move>)
    requires Unbacked(s) && Locked(s) && Legal(s, ms)
    ensures AlwaysUnbacked(s, ms) <==> ClaimsIn(s, ms) == 0
    ensures ClaimsIn(s, ms) == 0 ==>
              Unbacked(Final(s, ms)) && forall proxy :: Got(Final(s, ms).sh, proxy).1 == Some(NoError)
    decreases |ms|
  {
    hide Unbacked, Locked, Apply, Enabled;
    if ms == [] {
      UnbackedSucceeds(s);
    } else {
      StepUnbacked(s, ms[0]);
      StepLocked(s, ms[0]);
      if Unbacked(Apply(s, ms[0])) {
        FailedFetchSticks(Apply(s, ms[0]), ms[1..]);
      } else {
        NotUnbackedNow(Apply(s, ms[0]), ms[1..]);
      }
    }
  }

  lemma UnbackedSucceeds(s: State)
    requires Unbacked(s)
    ensures forall proxy :: Got(s.sh, proxy).1 == Some(NoError)
  {
  }

  lemma NotUnbackedNow(s: State, ms: seq<Move>)
    requires Legal(s, ms) && !Unbacked(s)
    ensures !AlwaysUnbacked(s, ms)
  {
  }

  /** Such a state is reached whenever the first fetch fails, in whatever way. */
  lemma FailedFetchIsReachable(reply: Reply) returns (ms: seq<Move>)
    requires !Answered(reply)
    ensures Legal(INIT, ms) && Unbacked(Final(INIT, ms)) && Locked(Final(INIT, ms))
    ensures Final(INIT, ms).sh.cache == BuildList(map[], Received(reply))
  {
    hide Legal, Final, BuildList, Received, Answered, Handles;
    var s;
    ms, s := Nothing();
    ms, s := Take(ms, s, Register(true));
    ms, s := Take(ms, s, GetServices(1, true));
    ms, s := Take(ms, s, Fill(1, reply));
    InitInv();
    RunInv(INIT, ms);
  }

  // -------------------------------------------------- lookups across a completion

  /** While the cache counts as fetched, or is being filled, every entry comes from an answer
      given after the last completed discovery. */
  ghost predicate AllFresh(s: State) {
    && s.sh.born.Keys == s.sh.cache.Keys
    && (s.sh.isGetServiceYet || s.owner.Some? ==> forall h :: h in s.sh.cache ==> s.sh.born[h] == s.sh.claims)
  }

  /** A lookup stores an answer obtained before the last completion into such a cache. */
  predicate StaleStore(s: State, m: Move) {
    && m.Store? && At(s, m.t).Holding? && At(s, m.t).services != []
    && At(s, m.t).at != s.sh.claims
    && (s.sh.isGetServiceYet || s.owner.Some?)
  }

  /** Every move keeps the cache fresh, with the one exception of a stale store. */
  lemma StepFreshness(s: State, m: Move)
    requires AllFresh(s) && Locked(s) && Enabled(s, m)
    ensures AllFresh(Apply(s, m)) <==> !StaleStore(s, m)
  {
    hide BuildService, Filled, Got;
    if m.Fill? {
      assert s.owner == Some(m.t);
      FilledIsCurrent(s.sh, m.reply);
    } else if m.GetServices? {
      GotKeeps(s.sh, m.proxy);
    } else if StaleStore(s, m) {
      var h := At(s, m.t).services[0].handle;
      assert Apply(s, m).sh.born[h] == At(s, m.t).at;
      assert h in Apply(s, m).sh.cache;
    }
  }

  lemma FilledIsCurrent(sh: Shared, reply: Reply)
    requires sh.born.Keys == sh.cache.Keys && forall h :: h in sh.cache ==> sh.born[h] == sh.claims
    ensures var r := Filled(sh, reply);
            && r.claims == sh.claims && r.born.Keys == r.cache.Keys
            && forall h :: h in r.cache ==> r.born[h] == r.claims
  {
    hide BuildList, Handles, Received, Answered;
    BuildListKeys(sh.cache, Received(reply));
  }

  predicate NoStaleStore(s: State, ms: seq<Move>)
    requires Legal(s, ms)
    decreases |ms|
  {
    ms == [] || (!StaleStore(s, ms[0]) && NoStaleStore(Apply(s, ms[0]), ms[1..]))
  }

  ghost predicate AlwaysFresh(s: State, ms: seq<Move>)
    requires Legal(s, ms)
    decreases |ms|
  {
    AllFresh(s) && (ms == [] || AlwaysFresh(Apply(s, ms[0]), ms[1..]))
  }

  lemma {:induction false} RunFreshness(s: State, ms: seq<Move>)
    requires AllFresh(s) && Locked(s) && Legal(s, ms)
    ensures AlwaysFresh(s, ms) <==> NoStaleStore(s, ms)
    ensures AlwaysFresh(s, ms) ==> AllFresh(Final(s, ms))
    decreases |ms|
  {
    hide AllFresh, Locked, Apply, Enabled, StaleStore;
    if ms == [] {
    } else {
      StepFreshness(s, ms[0]);
      StepLocked(s, ms[0]);
      if !StaleStore(s, ms[0]) {
        RunFreshness(Apply(s, ms[0]), ms[1..]);
      } else {
        NotFreshNow(Apply(s, ms[0]), ms[1..]);
      }
    }
  }

  lemma NotFreshNow(s: State, ms: seq<Move>)
    requires Legal(s, ms) && !AllFresh(s)
    ensures !AlwaysFresh(s, ms)
  {
  }

  /** For every run: the cache is fresh in all of its states exactly when the run has no stale
      store, and then every entry of a fetched cache, looked up or fetched, comes from an
      answer given after the last completed discovery. */
  lemma WholeCacheIsFresh(ms: seq<Move>)
    requires Legal(INIT, ms)
    ensures AlwaysFresh(INIT, ms) <==> NoStaleStore(INIT, ms)
    ensures var sh := Final(INIT, ms).sh;
            NoStaleStore(INIT, ms) && sh.isGetServiceYet ==>
              forall h :: h in sh.cache ==> h in sh.born && sh.born[h] == sh.claims
  {
    hide Legal, Final, AlwaysFresh, NoStaleStore;
    InitInv();
    RunFreshness(INIT, ms);
  }

  lemma {:induction false} Extend(s: State, ms: seq<Move>, m: Move)
    requires Legal(s, ms) && Enabled(Final(s, ms), m)
    ensures Legal(s, ms + [m]) && Final(s, ms + [m]) == Apply(Final(s, ms), m)
    decreases |ms|
  {
    hide Apply, Enabled;
    if ms != [] {
      Extend(Apply(s, ms[0]), ms[1..], m);
      assert (ms + [m])[1..] == ms[1..] + [m];
    } else {
      assert ms + [m] == [m] && [m][1..] == [];
      assert Legal(Apply(s, m), []);
    }
  }

  lemma Take(ms: seq<Move>, s: State, m: Move) returns (ms': seq<Move>, s': State)
    requires Legal(INIT, ms) && Final(INIT, ms) == s && Enabled(s, m)
    ensures ms' == ms + [m] && s' == Apply(s, m)
    ensures Legal(INIT, ms') && Final(INIT, ms') == s'
  {
    hide Apply, Enabled;
    Extend(INIT, ms, m);
    ms', s' := ms + [m], Apply(s, m);
  }

  lemma Nothing() returns (ms: seq<Move>, s: State)
    ensures ms == [] && s == INIT && Legal(INIT, ms) && Final(INIT, ms) == s
  {
    ms, s := [], INIT;
  }

  /** A lookup holds an answer from before a completion that has been claimed since. */
  lemma LookupOverlaps(svc: Service) returns (ms: seq<Move>, s: State)
    ensures Legal(INIT, ms) && s == Final(INIT, ms)
    ensures At(s, 2) == Holding([svc], 0) && At(s, 4) == Idle && s.owner == None
    ensures !s.sh.isFinding && !s.sh.isGetServiceYet && s.sh.registered && s.sh.claims == 1
  {
    hide Legal, Final, BuildList, BuildService, Got, Filled;
    ms, s := Nothing();
    ms, s := Take(ms, s, Register(true));
    ms, s := Take(ms, s, Lookup(2));
    ms, s := Take(ms, s, Query(2, [svc]));
    ms, s := Take(ms, s, Start(1));
    ms, s := Take(ms, s, Request(1, true, true));
    ms, s := Take(ms, s, Complete(3));
  }

  /** Such a store happens: a lookup that overlaps a discovery can put an answer from before its
      completion into the cache that `GetServices` reports as valid. */
  lemma StaleLookupIsReachable(svc: Service) returns (ms: seq<Move>)
    ensures Legal(INIT, ms)
    ensures var sh := Final(INIT, ms).sh;
            && !sh.isFinding && sh.isGetServiceYet && sh.answered && sh.fetchedAt == sh.claims == 1
            && svc.handle in sh.cache && svc.handle in sh.born && sh.born[svc.handle] == 0
  {
    hide Legal, Final, BuildList, BuildService, Handles, Received;
    var s;
    ms, s := LookupOverlaps(svc);
    ms, s := Take(ms, s, GetServices(4, true));
    ms, s := Take(ms, s, Fill(4, Reply(true, 0, 0, [])));
    ms, s := Take(ms, s, Store(2));
  }

  // ------------------------------------------------------------ the monitor as history

  /** A start leaves a discovery open, a completion none. */
  predicate OpenIn(ms: seq<Move>) {
    if ms == [] then false
    else
      match ms[|ms| - 1]
      case Start(_) => true
      case Complete(_) => false
      case _ => OpenIn(ms[..|ms| - 1])
  }

  /** Starts that found none open, and completions that found one. */
  function OpenedIn(ms: seq<Move>): nat {
    if ms == [] then 0
    else
      var before, m := ms[..|ms| - 1], ms[|ms| - 1];
      OpenedIn(before) + if m.Start? && !OpenIn(before) then 1 else 0
  }

  function ClaimedIn(ms: seq<Move>): nat {
    if ms == [] then 0
    else
      var before, m := ms[..|ms| - 1], ms[|ms| - 1];
      ClaimedIn(before) + if m.Complete? && OpenIn(before) then 1 else 0
  }

  function ReportedIn(ms: seq<Move>): nat {
    if ms == [] then 0 else ReportedIn(ms[..|ms| - 1]) + if ms[|ms| - 1].Report? then 1 else 0
  }

  /** A fill came after the last claimed completion. */
  predicate FetchedIn(ms: seq<Move>) {
    if ms == [] then false
    else
      var before, m := ms[..|ms| - 1], ms[|ms| - 1];
      match m
      case Fill(_, _) => true
      case Complete(_) => FetchedIn(before) && !OpenIn(before)
      case _ => FetchedIn(before)
  }

  predicate RegisteredIn(ms: seq<Move>) {
    if ms == [] then false
    else
      match ms[|ms| - 1]
      case Register(b) => b
      case _ => RegisteredIn(ms[..|ms| - 1])
  }

  /** Where a thread is, told from its own moves and what the monitor looked like then. */
  function PcOf(ms: seq<Move>, t: nat): Pc {
    if ms == [] then Idle
    else
      var past, m := ms[..|ms| - 1], ms[|ms| - 1];
      var before := PcOf(past, t);
      if m.Register? || m.t != t then before
      else
        match m
        case Start(_) => if OpenIn(past) then WaitStart else Requesting(OpenedIn(past) + 1)
        case Request(_, proxy, accepted) =>
          if RegisteredIn(past) && proxy && !accepted && before.Requesting? then Completing(before.number) else Idle
        case Complete(_) => if OpenIn(past) then Reporting else Idle
        case GetServices(_, proxy) =>
          if OpenIn(past) then WaitGet
          else if !FetchedIn(past) && RegisteredIn(past) && proxy then Filling
          else Idle
        case Lookup(_) => if OpenIn(past) then WaitLook else Looking
        case Query(_, answer) => Holding(answer, ClaimedIn(past))
        case Store(_) =>
          if before.Holding? && before.services != [] then Holding(before.services[1..], before.at) else Idle
        case _ => Idle
  }

  ghost predicate MonitorTold(ms: seq<Move>, s: State) {
    && s.sh.isFinding == OpenIn(ms) && s.sh.isGetServiceYet == FetchedIn(ms) && s.sh.registered == RegisteredIn(ms)
    && s.sh.starts == OpenedIn(ms) && s.sh.claims == ClaimedIn(ms) && s.sh.reports == ReportedIn(ms)
    && (forall t: nat :: At(s, t) == PcOf(ms, t))
    && (forall t: nat :: s.owner == Some(t) <==> PcOf(ms, t) == Filling)
  }

  lemma LastMove(ms: seq<Move>, m: Move)
    ensures (ms + [m])[..|ms + [m]| - 1] == ms && (ms + [m])[|ms + [m]| - 1] == m
  {
  }

  lemma StepFlags(ms: seq<Move>, s: State, m: Move)
    requires MonitorTold(ms, s) && Locked(s) && Enabled(s, m)
    ensures var sh := Apply(s, m).sh;
            && sh.isFinding == OpenIn(ms + [m]) && sh.isGetServiceYet == FetchedIn(ms + [m])
            && sh.registered == RegisteredIn(ms + [m])
            && sh.starts == OpenedIn(ms + [m]) && sh.claims == ClaimedIn(ms + [m]) && sh.reports == ReportedIn(ms + [m])
  {
    hide BuildList, BuildService, Handles, Received, Answered, PcOf, Locked;
    LastMove(ms, m);
  }

  lemma StepPlace(ms: seq<Move>, s: State, m: Move, t: nat)
    requires MonitorTold(ms, s) && Enabled(s, m)
    ensures At(Apply(s, m), t) == PcOf(ms + [m], t)
  {
    hide BuildList, BuildService, Handles, Received, Answered, OpenIn, FetchedIn, RegisteredIn, OpenedIn, ClaimedIn;
    hide ReportedIn, Filled;
    LastMove(ms, m);
    assert At(s, t) == PcOf(ms, t);
  }

  /** After every run the flags, the counters and every thread are where the history of moves
      tells: who waits, who may go on, and what a lookup still has to store. */
  lemma {:induction false} MonitorIsHistory(ms: seq<Move>)
    requires Legal(INIT, ms)
    ensures MonitorTold(ms, Final(INIT, ms)) && Locked(Final(INIT, ms))
    decreases |ms|
  {
    hide Legal, Final, Apply, Enabled, Locked, OpenIn, FetchedIn, RegisteredIn, OpenedIn, ClaimedIn, ReportedIn, PcOf;
    if ms == [] {
      NothingTold();
    } else {
      var before, m := ms[..|ms| - 1], ms[|ms| - 1];
      assert ms == before + [m];
      LegalSnoc(INIT, before, m);
      MonitorIsHistory(before);
      var s := Final(INIT, before);
      Extend(INIT, before, m);
      StepLocked(s, m);
      StepFlags(before, s, m);
      forall t: nat
        ensures At(Apply(s, m), t) == PcOf(ms, t)
        ensures Apply(s, m).owner == Some(t) <==> PcOf(ms, t) == Filling
      {
        StepPlace(before, s, m, t);
        LockedOwner(Apply(s, m), t);
      }
    }
  }

  lemma LockedOwner(s: State, t: nat)
    requires Locked(s)
    ensures s.owner == Some(t) <==> At(s, t) == Filling
  {
  }

  lemma NothingTold()
    ensures Legal(INIT, []) && MonitorTold([], Final(INIT, [])) && Locked(Final(INIT, []))
  {
  }

  lemma {:induction false} LegalSnoc(s: State, ms: seq<Move>, m: Move)
    requires Legal(s, ms + [m])
    ensures Legal(s, ms) && Enabled(Final(s, ms), m)
    decreases |ms|
  {
    hide Apply, Enabled;
    if ms == [] {
      assert ms + [m] == [m];
    } else {
      assert (ms + [m])[1..] == ms[1..] + [m];
      LegalSnoc(Apply(s, ms[0]), ms[1..], m);
    }
  }

  // ------------------------------------------------------- what goes into the cache

  /** A fresh object for the service: its fields, and stubs for its includes. */
  ghost predicate NewEntry(node: Node, s: Service) {
    BuiltFrom(node, s) && IncludesOf(node.includes, s.includes, {})
  }

  lemma BuiltIsNew(s: Service)
    ensures NewEntry(BuildService(s), s)
  {
    hide Resolvable;
    NothingResolvable(s.includes, |s.includes|);
  }

  lemma {:induction false} NothingResolvable(incl: seq<Service>, n: nat)
    requires n <= |incl|
    ensures Resolvable(incl, {}, n) == 0
  {
    if n == 0 {
    } else {
      NothingResolvable(incl, n - 1);
    }
  }

  /** What a move does to the cached entry of a handle: a store of a service with this handle
      replaces it by a new object; a fetch that brought services with this handle leaves their
      last one with the resolved includes of all; starting a fetch removes it; nothing else
      touches it. */
  lemma StepCache(s: State, m: Move, h: Handle)
    requires Enabled(s, m)
    ensures var c, c' := s.sh.cache, Apply(s, m).sh.cache;
            var stores := m.Store? && At(s, m.t).services != [] && At(s, m.t).services[0].handle == h;
            var fills := m.Fill? && h in Handles(Received(m.reply));
            var clears := m.GetServices? && !s.sh.isFinding && !s.sh.isGetServiceYet && s.sh.registered;
            && (stores ==> h in c' && NewEntry(c'[h], At(s, m.t).services[0]))
            && (fills ==>
                  var group := Of(Received(m.reply), h);
                  h in c' && group != [] && EntryOf(c'[h], group, c.Keys + Handles(Received(m.reply))))
            && (clears ==> c' == map[])
            && (!stores && !fills && !clears ==> (h in c' <==> h in c) && (h in c ==> c'[h] == c[h]))
  {
    hide BuildService, BuildList, Received, Answered, NewEntry, EntryOf, Handles, Of;
    if m.Fill? {
      BuildListAt(s.sh.cache, Received(m.reply), h);
    } else if m.Store? && At(s, m.t).services != [] {
      BuiltIsNew(At(s, m.t).services[0]);
    }
  }

  /** The services that a thread's stores put into the cache during a run. */
  function StoredBy(s: State, ms: seq<Move>, t: nat): seq<Service>
    requires Legal(s, ms)
    decreases |ms|
  {
    if ms == [] then []
    else
      (if ms[0] == Store(t) && At(s, t).Holding? && At(s, t).services != [] then [At(s, t).services[0]] else [])
      + StoredBy(Apply(s, ms[0]), ms[1..], t)
  }

  /** The thread makes no other moves than stores. */
  predicate OnlyStores(t: nat, ms: seq<Move>) {
    forall i :: 0 <= i < |ms| ==> ms[i].Register? || ms[i].t != t || ms[i].Store?
  }

  /** What a thread still has to store. */
  function ToStore(pc: Pc): seq<Service> {
    if pc.Holding? then pc.services else []
  }

  lemma StepStores(s: State, m: Move, t: nat)
    requires Enabled(s, m) && (At(s, t) == Idle || At(s, t).Holding?) && (m.Register? || m.t != t || m.Store?)
    ensures var pc := At(Apply(s, m), t);
            && (pc == Idle || pc.Holding?)
            && (m == Store(t) ==> At(s, t).Holding?)
            && (m != Store(t) ==> pc == At(s, t))
            && (m == Store(t) && At(s, t).services != [] ==> pc.Holding? && pc.services == At(s, t).services[1..])
            && (m == Store(t) && At(s, t).services == [] ==> pc == Idle)
            && (At(s, t).Holding? && At(s, t).services != [] ==> pc.Holding?)
  {
    hide BuildService, BuildList, Received, Answered, Handles, Got, Filled;
  }

  function Head(pc: Pc, stores: bool): seq<Service> {
    if stores && ToStore(pc) != [] then [ToStore(pc)[0]] else []
  }

  lemma StoredStep(s: State, ms: seq<Move>, t: nat)
    requires Legal(s, ms) && ms != []
    ensures StoredBy(s, ms, t) ==
            Head(At(s, t), ms[0] == Store(t)) + StoredBy(Apply(s, ms[0]), ms[1..], t)
  {
    hide Apply, Enabled;
  }

  lemma Regroup(a: seq<Service>, b: seq<Service>, c: seq<Service>)
    ensures a + (b + c) == (a + b) + c
  {
  }

  lemma {:induction false} RunStores(s: State, ms: seq<Move>, t: nat)
    requires Legal(s, ms) && OnlyStores(t, ms) && (At(s, t) == Idle || At(s, t).Holding?)
    ensures ToStore(At(s, t)) == StoredBy(s, ms, t) + ToStore(At(Final(s, ms), t))
    decreases |ms|
  {
    if ms == [] {
    } else {
      hide Apply, Enabled, StoredBy;
      var s' := Apply(s, ms[0]);
      assert ms[0].Register? || ms[0].t != t || ms[0].Store?;
      StepStores(s, ms[0], t);
      var head := Head(At(s, t), ms[0] == Store(t));
      assert ToStore(At(s, t)) == head + ToStore(At(s', t));
      StoredStep(s, ms, t);
      assert OnlyStores(t, ms[1..]);
      RunStores(s', ms[1..], t);
      Regroup(head, StoredBy(s', ms[1..], t), ToStore(At(Final(s, ms), t)));
    }
  }

  /** A lookup stores every service of its answer, in order, whatever other threads do
      meanwhile: when it is done, nothing is missing. */
  lemma LookupStoresEverything(s: State, t: nat, answer: seq<Service>, ms: seq<Move>)
    requires At(s, t) == Looking && Legal(Apply(s, Query(t, answer)), ms) && OnlyStores(t, ms)
    requires At(Final(Apply(s, Query(t, answer)), ms), t) == Idle
    ensures StoredBy(Apply(s, Query(t, answer)), ms, t) == answer
  {
    hide Legal, Final, StoredBy, OnlyStores;
    RunStores(Apply(s, Query(t, answer)), ms, t);
  }

  // ------------------------------------------------------ discoveries nobody closes

  predicate Serving(pc: Pc) {
    pc.Requesting? || pc.Completing?
  }

  /** An open discovery is in the hands of some caller or of the service. */
  ghost predicate Attended(s: State) {
    s.sh.isFinding ==> s.sh.serviceOwes || exists t: nat :: Serving(At(s, t))
  }

  /** `FindStructureStart` returned between setting the flag and asking the service. */
  predicate Abandons(s: State, m: Move) {
    m.Request? && (!s.sh.registered || !m.proxy)
  }

  lemma StepAttended(s: State, m: Move)
    requires Attended(s) && Enabled(s, m) && !Abandons(s, m)
    ensures Attended(Apply(s, m))
  {
    hide BuildList, BuildService;
    var s' := Apply(s, m);
    if s'.sh.isFinding && !s'.sh.serviceOwes {
      if m.Start? && !s.sh.isFinding {
        assert Serving(At(s', m.t));
      } else {
        var t: nat :| Serving(At(s, t));
        assert Serving(At(s', t));
      }
    }
  }

  predicate NoneAbandoned(s: State, ms: seq<Move>)
    requires Legal(s, ms)
    decreases |ms|
  {
    ms == [] || (!Abandons(s, ms[0]) && NoneAbandoned(Apply(s, ms[0]), ms[1..]))
  }

  lemma {:induction false} RunAttended(s: State, ms: seq<Move>)
    requires Attended(s) && Legal(s, ms) && NoneAbandoned(s, ms)
    ensures Attended(Final(s, ms))
    decreases |ms|
  {
    hide Attended, Apply, Enabled, Abandons;
    if ms == [] {
    } else {
      StepAttended(s, ms[0]);
      RunAttended(Apply(s, ms[0]), ms[1..]);
    }
  }

  /** If no start is abandoned, an open discovery always has someone who will close it. */
  lemma OpenDiscoveriesAreAttended(ms: seq<Move>)
    requires Legal(INIT, ms) && NoneAbandoned(INIT, ms)
    ensures Attended(Final(INIT, ms))
  {
    RunAttended(INIT, ms);
  }

  /** The call that opened the only discovery leaves it attended exactly when the client is
      registered and the proxy is there. */
  lemma AbandonedExactly(s: State, t: nat, proxy: bool, accepted: bool)
    requires At(s, t).Requesting? && s.sh.isFinding && !s.sh.serviceOwes
    requires forall u: nat :: u != t ==> !Serving(At(s, u))
    ensures Attended(Apply(s, Request(t, proxy, accepted))) <==> s.sh.registered && proxy
  {
    var s' := Apply(s, Request(t, proxy, accepted));
    assert forall u: nat :: u != t ==> At(s', u) == At(s, u);
    if s.sh.registered && proxy && !accepted {
      assert Serving(At(s', t));
    }
  }

  // -------------------------------------------------- which discovery is claimed

  /** The number of the discovery in flight, which is the one a completion claims. */
  function InFlight(s: State): Option<nat> {
    if s.sh.isFinding then Some(s.sh.starts) else None
  }

  ghost predicate Numbered(s: State) {
    forall t: nat :: Serving(At(s, t)) ==> 0 < At(s, t).number <= s.sh.starts
  }

  lemma StepNumbered(s: State, m: Move)
    requires Numbered(s) && Enabled(s, m)
    ensures Numbered(Apply(s, m))
  {
    hide BuildList, BuildService, Handles;
    var s' := Apply(s, m);
    forall t: nat | Serving(At(s', t)) ensures 0 < At(s', t).number <= s'.sh.starts {
      if At(s', t) != At(s, t) && m.Request? {
        assert Serving(At(s, m.t));
      }
    }
  }

  lemma {:induction false} RunNumbered(s: State, ms: seq<Move>)
    requires Numbered(s) && Legal(s, ms)
    ensures Numbered(Final(s, ms))
    decreases |ms|
  {
    hide Numbered, Apply, Enabled;
    if ms == [] {
    } else {
      StepNumbered(s, ms[0]);
      RunNumbered(Apply(s, ms[0]), ms[1..]);
    }
  }

  /** How many completions a run claims. */
  function ClaimsIn(s: State, ms: seq<Move>): nat
    requires Legal(s, ms)
    decreases |ms|
  {
    if ms == [] then 0
    else (if ms[0].Complete? && s.sh.isFinding then 1 else 0) + ClaimsIn(Apply(s, ms[0]), ms[1..])
  }

  predicate NoStartOf(t: nat, ms: seq<Move>) {
    forall i :: 0 <= i < |ms| ==> ms[i] != Start(t)
  }

  lemma StepServing(s: State, m: Move, t: nat)
    requires Enabled(s, m) && m != Start(t)
    ensures Serving(At(Apply(s, m), t)) ==> Serving(At(s, t)) && At(Apply(s, m), t).number == At(s, t).number
  {
    hide BuildList, BuildService, Handles, Got, Filled;
  }

  lemma {:induction false} RunServing(s: State, ms: seq<Move>, t: nat)
    requires Legal(s, ms) && NoStartOf(t, ms)
    ensures Serving(At(Final(s, ms), t)) ==> Serving(At(s, t)) && At(Final(s, ms), t).number == At(s, t).number
    ensures Final(s, ms).sh.claims == s.sh.claims + ClaimsIn(s, ms)
    decreases |ms|
  {
    hide Apply, Enabled, Serving;
    if ms == [] {
    } else {
      assert ms[0] != Start(t);
      StepServing(s, ms[0], t);
      StepHistory(s, ms[0]);
      RunServing(Apply(s, ms[0]), ms[1..], t);
    }
  }

  /** In every run, a refused request that completes claims the discovery it opened itself
      exactly if as many completions were claimed as discoveries were opened before its own;
      otherwise it claims a later one, or nothing if none is in flight. */
  lemma RefusalClaims(ms: seq<Move>, t: nat)
    requires Legal(INIT, ms) && At(Final(INIT, ms), t).Completing?
    ensures var s := Final(INIT, ms);
            var own := At(s, t).number;
            && (InFlight(s) == Some(own) <==> s.sh.claims == own - 1)
            && (InFlight(s) != Some(own) ==> InFlight(s) == None || InFlight(s).value > own)
  {
    hide Legal, Final;
    InitInv();
    RunInv(INIT, ms);
    RunNumbered(INIT, ms);
    assert Serving(At(Final(INIT, ms), t));
  }

  /** The same over the history of the call: let thread `t` open a discovery after the run
      `pre` and be refused by the end of the run `post`. Its completion then claims that very
      discovery if and only if nobody claimed a completion during `post`. */
  lemma OwnDiscoveryExactly(pre: seq<Move>, t: nat, post: seq<Move>)
    requires Legal(INIT, pre) && Enabled(Final(INIT, pre), Start(t)) && !Final(INIT, pre).sh.isFinding
    requires Legal(Apply(Final(INIT, pre), Start(t)), post) && NoStartOf(t, post)
    requires At(Final(Apply(Final(INIT, pre), Start(t)), post), t).Completing?
    ensures var start := Apply(Final(INIT, pre), Start(t));
            InFlight(Final(start, post)) == InFlight(start) <==> ClaimsIn(start, post) == 0
  {
    hide Legal, Final, ClaimsIn, NoStartOf;
    var start := Apply(Final(INIT, pre), Start(t));
    InitInv();
    RunInv(INIT, pre);
    RunNumbered(INIT, pre);
    StepBalanced(Final(INIT, pre), Start(t));
    StepCurrent(Final(INIT, pre), Start(t));
    StepLocked(Final(INIT, pre), Start(t));
    StepNumbered(Final(INIT, pre), Start(t));
    RunInv(start, post);
    RunNumbered(start, post);
    RunServing(start, post, t);
    assert Serving(At(Final(start, post), t));
  }

  /** Completions are not matched with starts: a refused request of one thread can claim the
      discovery that another thread opened after a disconnect and that the service has
      accepted and still works on. */
  lemma RefusalClaimsAnotherDiscovery() returns (ms: seq<Move>)
    ensures Legal(INIT, ms) && Enabled(Final(INIT, ms), Complete(1))
    ensures var s := Final(INIT, ms);
            && s.sh.serviceOwes && At(s, 1) == Completing(1) && At(s, 2) == Idle && InFlight(s) == Some(2)
            && !Apply(s, Complete(1)).sh.isFinding && At(Apply(s, Complete(1)), 1) == Reporting
  {
    hide Legal, Final, BuildList, BuildService, Got;
    var s;
    ms, s := Nothing();
    ms, s := Take(ms, s, Register(true));
    ms, s := Take(ms, s, Start(1));
    ms, s := Take(ms, s, Complete(3));
    ms, s := Take(ms, s, Start(2));
    ms, s := Take(ms, s, Request(2, true, true));
    ms, s := Take(ms, s, Request(1, true, false));
  }

  /** The flag is still set, and no start, fetch or lookup got through since `s`. */
  ghost predicate Blocked(s: State, r: State) {
    && r.sh.isFinding && r.sh.starts == s.sh.starts && r.sh.claims == s.sh.claims
    && r.sh.isGetServiceYet == s.sh.isGetServiceYet && r.sh.fetchedAt == s.sh.fetchedAt
    && (forall t: nat :: At(r, t).Requesting? ==> At(s, t) == At(r, t))
    && (forall t: nat :: At(r, t) == Looking ==> At(s, t) == Looking)
  }

  lemma StepBlocked(s: State, m: Move)
    requires Locked(s) && s.sh.isFinding && Enabled(s, m) && !m.Complete?
    ensures Blocked(s, Apply(s, m))
  {
    hide BuildService, BuildList, Got, Handles;
  }

  /** Until some completion or disconnect arrives, an open discovery blocks everything. */
  lemma {:induction false} StuckUntilCompletion(s: State, ms: seq<Move>)
    requires Locked(s) && s.sh.isFinding && Legal(s, ms)
    requires forall i :: 0 <= i < |ms| ==> !ms[i].Complete?
    ensures Blocked(s, Final(s, ms))
    decreases |ms|
  {
    hide Apply, Enabled, Locked;
    if ms == [] {
    } else {
      StepBlocked(s, ms[0]);
      StepLocked(s, ms[0]);
      StuckUntilCompletion(Apply(s, ms[0]), ms[1..]);
    }
  }

  // ------------------------------------------------------------------- the code

  /** The proxy's side of the fetch: its code, and the services it pushed into the result
      before it found something wrong. */
  method ReadServices(reply: Reply) returns (failed: bool, result: seq<Service>)
    ensures failed <==> !Answered(reply)
    ensures result == Received(reply)
  {
    hide ReadUntilBad;
    AnsweredIsComplete(reply);
    result := [];
    if !reply.sent || reply.code != 0 {
      return true, [];
    }
    if !(0 <= reply.count <= SSAP_CLIENT_READ_DATA_SIZE_MAX_LEN) {
      return true, [];
    }
    ghost var goal := ReadUntilBad(reply.parcels, reply.count);
    var i := 0;
    while i < reply.count
      invariant 0 <= i <= reply.count && i <= |goal| && result == goal[..i]
    {
      if i == |reply.parcels| || reply.parcels[i] == None {
        assert i == |goal|;
        return true, result;
      }
      assert i < |goal|;
      result := result + [reply.parcels[i].value];
      i := i + 1;
    }
    return false, result;
  }

  lemma FilledFromEmpty(sh: Shared, reply: Reply)
    requires sh.cache == map[] && sh.born == map[]
    ensures var answer := Received(reply);
            var cache := BuildList(map[], answer);
            Filled(sh, reply) ==
            sh.(cache := cache, isGetServiceYet := true, fetchedAt := sh.claims, fetchedHandles := Handles(answer),
                answered := Answered(reply), born := map h | h in cache :: sh.claims)
    ensures var r := Filled(sh, reply); r.fetchedHandles <= r.cache.Keys && r.born.Keys == r.cache.Keys
  {
    hide BuildList, Handles, Answered, Received;
    BuildListKeys(sh.cache, Received(reply));
  }

  lemma ClearedIs(sh: Shared)
    ensures Cleared(sh) == sh.(cache := map[], born := map[])
  {
  }

  class SsapClient {
    var isFinding: bool
    var isGetServiceYet: bool
    var registered: bool
    var services: ServiceCache
    ghost var starts: nat
    ghost var claims: nat
    ghost var reports: nat
    ghost var fetchedAt: nat
    ghost var fetchedHandles: set<Handle>
    ghost var answered: bool
    ghost var born: map<Handle, nat>
    ghost var serviceOwes: bool

    ghost function Abs(): Shared
      reads this, services
    {
      Shared(isFinding, isGetServiceYet, registered, services.services, starts, claims, reports,
             fetchedAt, fetchedHandles, answered, born, serviceOwes)
    }

    constructor ()
      ensures Abs() == FRESH && Valid() && fresh(services)
    {
      isFinding, isGetServiceYet, registered := false, false, false;
      services := new ServiceCache();
      starts, claims, reports, fetchedAt := 0, 0, 0, 0;
      fetchedHandles, answered, born, serviceOwes := {}, false, map[], false;
    }

    /** Every discovery opened was claimed or is the one in flight, and a fetched cache
        postdates the last claim and has lost none of its handles. */
    ghost predicate Valid()
      reads this, services
    {
      Counted(Abs()) && Current(Abs())
    }

    /** The gate of both start functions, after the wait loop's test: whoever passes found
        no discovery in flight, and in either case exactly one is in flight afterwards. */
    method TryStart() returns (started: bool)
      requires Valid()
      modifies this
      ensures Valid() && services == old(services)
      ensures isFinding && starts == claims + 1
      ensures started <==> old(starts) == old(claims)
      ensures Abs() == if started then Opened(old(Abs())) else old(Abs())
    {
      if isFinding {
        return false;
      }
      isFinding := true;
      starts := starts + 1;
      return true;
    }

    /** The locked part of `FindStructureComplete` and `FindStructureByUuidComplete`: of all
        completions of one discovery exactly the first is claimed, nothing is in flight
        afterwards, and a claim outdates the last fetch. */
    method FindComplete() returns (claimed: bool)
      requires Valid()
      modifies this
      ensures Valid() && services == old(services)
      ensures starts == claims == old(starts)
      ensures claimed <==> old(claims) < claims
      ensures claimed ==> !isGetServiceYet && fetchedHandles == old(fetchedHandles)
      ensures Abs() == if claimed then Claimed(old(Abs())) else old(Abs())
    {
      claimed := false;
      if isFinding {
        isFinding := false;
        isGetServiceYet := false;
        claims := claims + 1;
        serviceOwes := false;
        claimed := true;
      }
    }

    /** The locked part of `GetServices` after its wait loop, with no lookup in between. The
        code of the fetch is dropped: success without an answer behind it is returned exactly
        if an earlier fetch failed and still counts, or this one fails. */
    method GetServicesBody(proxy: bool, reply: Reply) returns (code: Code)
      requires Valid() && !isFinding
      modifies this, services
      ensures Valid() && services == old(services)
      ensures code == NoError <==> old(isGetServiceYet) || (registered && proxy)
      ensures code == InternalError <==> !old(isGetServiceYet) && !registered
      ensures code == UnavailableProxy ==> services.services == map[]
      ensures old(isGetServiceYet) || !registered ==> services.services == old(services.services)
      ensures code == NoError && !answered <==>
              if old(isGetServiceYet) then !old(answered) else registered && proxy && !Answered(reply)
      ensures code == NoError ==> isGetServiceYet && fetchedAt == claims && fetchedHandles <= services.services.Keys
      ensures var (sh, early) := Got(old(Abs()), proxy);
              if early.Some? then Abs() == sh && code == early.value
              else Abs() == Filled(sh, reply) && code == NoError
    {
      hide BuildList, Handles, Received, Answered, Cleared;
      if isGetServiceYet {
        return NoError;
      }
      if !registered {
        return InternalError;
      }
      ghost var start := Abs();
      services.services := map[];
      born := map[];
      assert Abs() == Cleared(start) by { ClearedIs(start); }
      if !proxy {
        return UnavailableProxy;
      }
      FilledFromEmpty(Abs(), reply);
      Fetch(reply);
      return NoError;
    }

    /** The call to the service and what `GetServices` makes of its result. */
    method Fetch(reply: Reply)
      requires services.services == map[] && born == map[]
      modifies this, services
      ensures services == old(services) && Abs() == Filled(old(Abs()), reply)
    {
      hide BuildList, Handles, Answered, Received, Filled, LinkedCache, Distinct, Linked, BuildService;
      ghost var filled := Filled(Abs(), reply);
      FilledFromEmpty(Abs(), reply);
      var failed, result := ReadServices(reply);
      services.BuildServiceList(result);
      isGetServiceYet := true;
      fetchedAt, fetchedHandles, answered := claims, Handles(result), Answered(reply);
      born := filled.born;
    }

    /** One insertion of a lookup; `at` is the claim count when the service answered. Nothing
        that was cached is lost, only the entry of this very handle can change, and the flags
        that tell whether the cache was fetched stay. */
    method StoreService(s: Service, ghost at: nat)
      requires Valid()
      modifies this, services
      ensures Valid() && services == old(services)
      ensures services.services.Keys == old(services.services.Keys) + {s.handle}
      ensures forall h :: h in old(services.services) && h != s.handle ==>
                services.services[h] == old(services.services)[h]
      ensures Abs() == Stored(old(Abs()), s, at)
    {
      hide BuildService;
      services.services := services.services[s.handle := BuildService(s)];
      born := born[s.handle := at];
    }
  }
}
