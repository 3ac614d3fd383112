/** The advertiser's map from handles to callbacks
    (frameworks/native/nearlink_sle_advertiser.cpp). A start looks its callback up, asks the
    service for a handle, inserts it, starts, and erases it again on failure; each of these
    locks the map by itself, so starts of any number of threads and the service's events
    interleave between them. */
module Advertisers {
  import opened Common

  type Handle = n: int | -0x8000_0000 <= n < 0x8000_0000

  const INVALID_HANDLE: Handle := 0xFF

  /** Where a thread is inside `StartAdvertising`. */
  datatype Pc =
    | Idle
    | Asking(callback: nat)                                // no handle known, will ask for one
    | Inserting(callback: nat, handle: Handle)             // got one, will insert it
    | Starting(callback: nat, handle: Handle, isNew: bool) // waits for the start's result
    | Erasing(callback: nat, handle: Handle)               // start failed, will erase the handle

  /** `callbacks` maps handles to weakly held callbacks; `expired` no longer lock. */
  datatype State = State(callbacks: map<Handle, nat>, expired: set<nat>, threads: map<nat, Pc>)

  const INIT := State(map[], {}, map[])

  datatype Move =
    | Look(t: nat, callback: nat, found: Option<Handle>)
    | Grant(t: nat, answer: Handle, granted: bool)
    | Insert(t: nat)
    | Result(t: nat, started: bool)
    | Erase(t: nat)
    | Ended(handle: Handle)        // start rejected, stop result or auto stop
    | ServiceStopped
    | Expire(callback: nat)

  function At(s: State, t: nat): Pc {
    if t in s.threads then s.threads[t] else Idle
  }

  predicate HandleOf(s: State, callback: nat, h: Handle) {
    h in s.callbacks && s.callbacks[h] == callback && callback !in s.expired
  }

  ghost predicate Known(s: State, callback: nat) {
    exists h: Handle :: HandleOf(s, callback, h)
  }

  /** A caller keeps its callback alive, and the lookup finds any handle of it. */
  ghost predicate Enabled(s: State, m: Move) {
    match m
    case Look(t, cb, found) =>
      && At(s, t) == Idle && cb !in s.expired
      && (if found.Some? then found.value != INVALID_HANDLE && HandleOf(s, cb, found.value) else !Known(s, cb))
    case Grant(t, _, _) => At(s, t).Asking?
    case Insert(t) => At(s, t).Inserting?
    case Result(t, _) => At(s, t).Starting?
    case Erase(t) => At(s, t).Erasing?
    case Ended(_) => true
    case ServiceStopped => true
    case Expire(cb) => forall t: nat :: At(s, t) != Idle ==> At(s, t).callback != cb
  }

  function Put(s: State, t: nat, pc: Pc): State {
    s.(threads := s.threads[t := pc])
  }

  function Apply(s: State, m: Move): State {
    match m
    case Look(t, cb, found) =>
      Put(s, t, if found.Some? then Starting(cb, found.value, false) else Asking(cb))
    case Grant(t, answer, granted) =>
      if !At(s, t).Asking? then s
      else Put(s, t, if granted && answer != INVALID_HANDLE then Inserting(At(s, t).callback, answer) else Idle)
    case Insert(t) =>
      if !At(s, t).Inserting? then s
      else
        var pc := At(s, t);
        Put(s, t, Starting(pc.callback, pc.handle, true)).(callbacks := s.callbacks[pc.handle := pc.callback])
    case Result(t, started) =>
      if !At(s, t).Starting? then s
      else
        var pc := At(s, t);
        Put(s, t, if !started && pc.isNew then Erasing(pc.callback, pc.handle) else Idle)
    case Erase(t) =>
      if !At(s, t).Erasing? then s
      else Put(s, t, Idle).(callbacks := s.callbacks - {At(s, t).handle})
    case Ended(h) => s.(callbacks := s.callbacks - {h})
    case ServiceStopped => s.(callbacks := map[])
    case Expire(cb) => s.(expired := s.expired + {cb})
  }

  ghost predicate Legal(s: State, ms: seq<Move>)
    decreases |ms|
  {
    ms == [] || (Enabled(s, ms[0]) && Legal(Apply(s, ms[0]), ms[1..]))
  }

  function Final(s: State, ms: seq<Move>): State
    decreases |ms|
  {
    if ms == [] then s else Final(Apply(s, ms[0]), ms[1..])
  }

  // ------------------------------------------------------------------ invariants

  /** No live callback has two handles. */
  ghost predicate OneHandle(s: State) {
    forall cb: nat, g: Handle, h: Handle :: HandleOf(s, cb, g) && HandleOf(s, cb, h) ==> g == h
  }

  /** Neither the map nor a call uses 0xFF, and the callbacks of calls are alive. */
  ghost predicate Sane(s: State) {
    && INVALID_HANDLE !in s.callbacks
    && (forall t: nat :: At(s, t) != Idle ==> At(s, t).callback !in s.expired)
    && (forall t: nat :: At(s, t).Inserting? ==> At(s, t).handle != INVALID_HANDLE)
  }

  /** A start between its lookup and its insertion. */
  predicate Pending(pc: Pc, cb: nat) {
    (pc.Asking? || pc.Inserting?) && pc.callback == cb
  }

  ghost predicate Underway(s: State, cb: nat) {
    exists t: nat :: Pending(At(s, t), cb)
  }

  /** At most one such start per callback, and only while the callback has no handle. */
  ghost predicate Calm(s: State) {
    && (forall t: nat, u: nat, cb: nat :: Pending(At(s, t), cb) && Pending(At(s, u), cb) ==> t == u)
    && (forall t: nat, cb: nat :: Pending(At(s, t), cb) ==> !Known(s, cb))
  }

  lemma StepSane(s: State, m: Move)
    requires Sane(s) && Enabled(s, m)
    ensures Sane(Apply(s, m))
  {
    var s' := Apply(s, m);
    forall t: nat | At(s', t) != Idle
      ensures At(s', t).callback !in s'.expired
      ensures At(s', t).Inserting? ==> At(s', t).handle != INVALID_HANDLE
    {
      if At(s', t) != At(s, t) && !m.Look? {
        assert At(s, t) != Idle;
      }
    }
  }

  /** The insertion gives a callback a second handle. */
  ghost predicate SecondHandle(s: State, m: Move) {
    && m.Insert? && At(s, m.t).Inserting?
    && exists g: Handle :: g != At(s, m.t).handle && HandleOf(s, At(s, m.t).callback, g)
  }

  lemma HandlesComeFrom(s: State, m: Move, cb: nat, h: Handle)
    requires Enabled(s, m) && HandleOf(Apply(s, m), cb, h)
    ensures HandleOf(s, cb, h) || (m.Insert? && cb == At(s, m.t).callback && h == At(s, m.t).handle)
  {
  }

  /** Every move keeps one handle per callback, with the one exception of such an insertion. */
  lemma StepOneHandle(s: State, m: Move)
    requires Sane(s) && OneHandle(s) && Enabled(s, m)
    ensures OneHandle(Apply(s, m)) <==> !SecondHandle(s, m)
  {
    hide Enabled, Apply, Sane;
    var s' := Apply(s, m);
    if SecondHandle(s, m) {
      var cb, h := At(s, m.t).callback, At(s, m.t).handle;
      var g: Handle :| g != h && HandleOf(s, cb, g);
      InsertedHandles(s, m.t, g);
      assert HandleOf(s', cb, g) && HandleOf(s', cb, h);
    } else {
      forall cb: nat, g: Handle, h: Handle | HandleOf(s', cb, g) && HandleOf(s', cb, h) ensures g == h {
        HandlesComeFrom(s, m, cb, g);
        HandlesComeFrom(s, m, cb, h);
        InsertNeedsHandle(s, m);
      }
    }
  }

  lemma InsertNeedsHandle(s: State, m: Move)
    requires Enabled(s, m)
    ensures m.Insert? ==> At(s, m.t).Inserting?
  {
  }

  lemma InsertedHandles(s: State, t: nat, g: Handle)
    requires Sane(s) && At(s, t).Inserting? && g != At(s, t).handle
    ensures var s' := Apply(s, Insert(t));
            && HandleOf(s', At(s, t).callback, At(s, t).handle)
            && (forall cb: nat :: HandleOf(s, cb, g) ==> HandleOf(s', cb, g))
  {
  }

  // ------------------------------------------------------------ overlapping starts

  /** The lookup finds nothing although another start of the callback is underway. */
  ghost predicate Overlaps(s: State, m: Move) {
    m.Look? && m.found == None && Underway(s, m.callback)
  }

  lemma PendingComesFrom(s: State, m: Move, t: nat, cb: nat)
    requires Enabled(s, m) && Pending(At(Apply(s, m), t), cb)
    ensures Pending(At(s, t), cb) || m == Look(t, cb, None)
    ensures m != Insert(t)
  {
  }

  lemma StepCalm(s: State, m: Move)
    requires Sane(s) && Calm(s) && Enabled(s, m) && !Overlaps(s, m)
    ensures Calm(Apply(s, m)) && !SecondHandle(s, m)
  {
    hide Apply, Sane;
    var s' := Apply(s, m);
    forall t: nat, u: nat, cb: nat | Pending(At(s', t), cb) && Pending(At(s', u), cb) ensures t == u {
      PendingComesFrom(s, m, t, cb);
      PendingComesFrom(s, m, u, cb);
    }
    forall t: nat, cb: nat | Pending(At(s', t), cb) ensures !Known(s', cb) {
      PendingComesFrom(s, m, t, cb);
      assert !Known(s, cb);
      if m.Insert? {
        assert Pending(At(s, m.t), At(s, m.t).callback);
      }
      forall h: Handle ensures !HandleOf(s', cb, h) {
        if HandleOf(s', cb, h) {
          HandlesComeFrom(s, m, cb, h);
        }
      }
    }
    if m.Insert? {
      assert Pending(At(s, m.t), At(s, m.t).callback);
      assert !Known(s, At(s, m.t).callback);
    }
  }

  ghost predicate NoOverlap(s: State, ms: seq<Move>)
    decreases |ms|
  {
    ms == [] || (!Overlaps(s, ms[0]) && NoOverlap(Apply(s, ms[0]), ms[1..]))
  }

  lemma {:induction false} RunCalm(s: State, ms: seq<Move>)
    requires Sane(s) && Calm(s) && OneHandle(s) && Legal(s, ms) && NoOverlap(s, ms)
    ensures Sane(Final(s, ms)) && OneHandle(Final(s, ms))
    decreases |ms|
  {
    hide Sane, Calm, OneHandle, Apply, Enabled, Overlaps, SecondHandle;
    if ms == [] {
    } else {
      StepSane(s, ms[0]);
      StepCalm(s, ms[0]);
      StepOneHandle(s, ms[0]);
      RunCalm(Apply(s, ms[0]), ms[1..]);
    }
  }

  lemma {:induction false} RunSane(s: State, ms: seq<Move>)
    requires Sane(s) && Legal(s, ms)
    ensures Sane(Final(s, ms))
    decreases |ms|
  {
    hide Sane, Apply, Enabled;
    if ms == [] {
    } else {
      StepSane(s, ms[0]);
      RunSane(Apply(s, ms[0]), ms[1..]);
    }
  }

  /** Over every run 0xFF is never a key; if no two starts of one callback overlap, no live
      callback ever has two handles. */
  lemma OneHandlePerCallback(ms: seq<Move>, cb: nat, g: Handle, h: Handle)
    requires Legal(INIT, ms)
    ensures var s := Final(INIT, ms);
            && INVALID_HANDLE !in s.callbacks
            && (NoOverlap(INIT, ms) && HandleOf(s, cb, g) && HandleOf(s, cb, h) ==> g == h)
  {
    RunSane(INIT, ms);
    if NoOverlap(INIT, ms) {
      RunCalm(INIT, ms);
    }
  }

  predicate NoLooks(ms: seq<Move>) {
    forall i :: 0 <= i < |ms| ==> !ms[i].Look?
  }

  lemma {:induction false} NoLooksNoOverlap(s: State, ms: seq<Move>)
    requires NoLooks(ms)
    ensures NoOverlap(s, ms)
    decreases |ms|
  {
    hide Apply;
    if ms == [] {
    } else {
      assert !ms[0].Look?;
      NoLooksNoOverlap(Apply(s, ms[0]), ms[1..]);
    }
  }

  lemma Front(s: State, m: Move, ms: seq<Move>)
    requires Enabled(s, m) && !m.Look? && Legal(Apply(s, m), ms) && NoLooks(ms)
    ensures Legal(s, [m] + ms) && NoLooks([m] + ms) && Final(s, [m] + ms) == Final(Apply(s, m), ms)
  {
    hide Enabled, Apply;
    assert ([m] + ms)[1..] == ms;
  }

  /** Two starts of one callback that hold different handles give it both. */
  lemma BothInsert(s: State, t: nat, u: nat) returns (ms: seq<Move>)
    requires Sane(s) && t != u && At(s, t).Inserting? && At(s, u).Inserting?
    requires At(s, t).callback == At(s, u).callback && At(s, t).handle != At(s, u).handle
    ensures Legal(s, ms) && NoLooks(ms) && !OneHandle(Final(s, ms))
  {
    var cb, g, h := At(s, t).callback, At(s, t).handle, At(s, u).handle;
    var s1 := Apply(s, Insert(t));
    var s2 := Apply(s1, Insert(u));
    assert HandleOf(s2, cb, g) && HandleOf(s2, cb, h);
    assert Final(s2, []) == s2;
    Front(s1, Insert(u), []);
    Front(s, Insert(t), [Insert(u)] + []);
    ms := [Insert(t)] + ([Insert(u)] + []);
  }

  lemma OverlapBreaks(s: State, t: nat, u: nat, cb: nat) returns (ms: seq<Move>)
    requires Sane(s) && t != u && At(s, t) == Asking(cb) && Pending(At(s, u), cb)
    ensures Legal(s, ms) && NoLooks(ms) && !OneHandle(Final(s, ms))
  {
    hide OneHandle;
    var r := s;
    if At(s, u).Asking? {
      r := Apply(s, Grant(u, 1, true));
      StepSane(s, Grant(u, 1, true));
    }
    var h: Handle := if At(r, u).handle == 1 then 2 else 1;
    var r' := Apply(r, Grant(t, h, true));
    StepSane(r, Grant(t, h, true));
    ms := BothInsert(r', t, u);
    Front(r, Grant(t, h, true), ms);
    ms := [Grant(t, h, true)] + ms;
    if At(s, u).Asking? {
      Front(s, Grant(u, 1, true), ms);
      ms := [Grant(u, 1, true)] + ms;
    }
  }

  lemma LookKeepsOneHandle(s: State, t: nat, cb: nat)
    requires OneHandle(s)
    ensures OneHandle(Apply(s, Look(t, cb, None)))
  {
    var s' := Apply(s, Look(t, cb, None));
    forall c: nat, h: Handle ensures HandleOf(s', c, h) <==> HandleOf(s, c, h) {
    }
  }

  /** The condition is exact: when a start of `cb` begins, every way in which the calls
      underway and the service's events can go on keeps one handle per callback if and only
      if no other start of `cb` is between its lookup and its insertion. */
  lemma OverlapDecides(s: State, t: nat, cb: nat)
    requires Sane(s) && Calm(s) && OneHandle(s) && Enabled(s, Look(t, cb, None))
    ensures var s' := Apply(s, Look(t, cb, None));
            (forall ms :: Legal(s', ms) && NoLooks(ms) ==> OneHandle(Final(s', ms))) <==> !Underway(s, cb)
  {
    hide Sane, Calm, OneHandle, NoLooks;
    var m := Look(t, cb, None);
    var s' := Apply(s, m);
    StepSane(s, m);
    LookKeepsOneHandle(s, t, cb);
    if Underway(s, cb) {
      var u: nat :| Pending(At(s, u), cb);
      assert At(s', u) == At(s, u);
      var ms := OverlapBreaks(s', t, u, cb);
    } else {
      StepCalm(s, m);
      forall ms | Legal(s', ms) && NoLooks(ms) ensures OneHandle(Final(s', ms)) {
        NoLooksNoOverlap(s', ms);
        RunCalm(s', ms);
      }
    }
  }

  /** Overlapping happens: two starts of one callback leave it with two handles. */
  lemma TwoHandlesAreReachable(cb: nat) returns (ms: seq<Move>)
    ensures Legal(INIT, ms) && !OneHandle(Final(INIT, ms))
  {
    hide OneHandle, NoLooks;
    var s1 := Apply(INIT, Look(1, cb, None));
    var s2 := Apply(s1, Look(2, cb, None));
    assert s1.callbacks == map[] && s2.callbacks == map[];
    assert Enabled(INIT, Look(1, cb, None)) && Enabled(s1, Look(2, cb, None));
    StepSane(INIT, Look(1, cb, None));
    StepSane(s1, Look(2, cb, None));
    var more := OverlapBreaks(s2, 2, 1, cb);
    var rest := [Look(2, cb, None)] + more;
    assert rest[1..] == more;
    assert Legal(s1, rest) && Final(s1, rest) == Final(s2, more);
    ms := [Look(1, cb, None)] + rest;
    assert ms[1..] == rest;
  }

  // ------------------------------------------------------------- displaced callbacks

  /** A step of a call takes the handle of another live callback. */
  ghost predicate Displaces(s: State, m: Move) {
    && (m.Insert? || m.Erase?) && At(s, m.t) != Idle
    && exists other: nat, h: Handle ::
         other != At(s, m.t).callback && HandleOf(s, other, h) && !HandleOf(Apply(s, m), other, h)
  }

  /** That happens exactly when the entry under the call's own handle belongs to another
      live callback, whether the call inserts or, after a failed start, erases. */
  lemma DisplacesExactly(s: State, m: Move)
    requires Enabled(s, m) && (m.Insert? || m.Erase?)
    ensures Displaces(s, m) <==>
            var cb, h := At(s, m.t).callback, At(s, m.t).handle;
            h in s.callbacks && s.callbacks[h] != cb && s.callbacks[h] !in s.expired
  {
    var cb, h := At(s, m.t).callback, At(s, m.t).handle;
    if h in s.callbacks && s.callbacks[h] != cb && s.callbacks[h] !in s.expired {
      var other := s.callbacks[h];
      assert HandleOf(s, other, h) && !HandleOf(Apply(s, m), other, h);
    }
  }

  predicate Uses(pc: Pc, h: Handle) {
    (pc.Inserting? || pc.Erasing? || (pc.Starting? && pc.isNew)) && pc.handle == h
  }

  /** Another live callback has an entry under this handle, or a start of another callback
      uses it. */
  ghost predicate InUse(s: State, cb: nat, h: Handle) {
    || (h in s.callbacks && s.callbacks[h] != cb && s.callbacks[h] !in s.expired)
    || exists u: nat :: Uses(At(s, u), h) && At(s, u).callback != cb
  }

  predicate Grants(s: State, m: Move) {
    m.Grant? && m.granted && m.answer != INVALID_HANDLE && At(s, m.t).Asking?
  }

  /** The service hands out a handle that is in use for another callback. */
  ghost predicate Reuses(s: State, m: Move) {
    Grants(s, m) && InUse(s, At(s, m.t).callback, m.answer)
  }

  /** A handle is used for one callback, and its entry is not another live one's. */
  ghost predicate OwnHandles(s: State) {
    && (forall t: nat, u: nat, h: Handle ::
          Uses(At(s, t), h) && Uses(At(s, u), h) ==> At(s, t).callback == At(s, u).callback)
    && (forall t: nat, h: Handle :: Uses(At(s, t), h) && h in s.callbacks && s.callbacks[h] !in s.expired ==>
          s.callbacks[h] == At(s, t).callback)
  }

  lemma UsesComeFrom(s: State, m: Move, t: nat, h: Handle)
    requires Enabled(s, m) && Uses(At(Apply(s, m), t), h)
    ensures At(s, t) != Idle && At(s, t).callback == At(Apply(s, m), t).callback
    ensures Uses(At(s, t), h) || (m == Grant(t, h, true) && Grants(s, m))
  {
  }

  lemma StepOwnHandles(s: State, m: Move)
    requires OwnHandles(s) && Enabled(s, m) && !Reuses(s, m)
    ensures OwnHandles(Apply(s, m)) && !Displaces(s, m)
  {
    hide Displaces;
    var s' := Apply(s, m);
    forall t: nat, u: nat, h: Handle | Uses(At(s', t), h) && Uses(At(s', u), h)
      ensures At(s', t).callback == At(s', u).callback
    {
      UsesComeFrom(s, m, t, h);
      UsesComeFrom(s, m, u, h);
    }
    if m.Insert? || m.Erase? {
      assert Uses(At(s, m.t), At(s, m.t).handle);
      DisplacesExactly(s, m);
    }
    forall t: nat, h: Handle | Uses(At(s', t), h) && h in s'.callbacks && s'.callbacks[h] !in s'.expired
      ensures s'.callbacks[h] == At(s', t).callback
    {
      UsesComeFrom(s, m, t, h);
    }
    if !m.Insert? && !m.Erase? {
      NotDisplaced(s, m);
    }
  }

  lemma NotDisplaced(s: State, m: Move)
    requires !m.Insert? && !m.Erase?
    ensures !Displaces(s, m)
  {
  }

  ghost predicate NoneReused(s: State, ms: seq<Move>)
    decreases |ms|
  {
    ms == [] || (!Reuses(s, ms[0]) && NoneReused(Apply(s, ms[0]), ms[1..]))
  }

  ghost predicate NoneDisplaced(s: State, ms: seq<Move>)
    decreases |ms|
  {
    ms == [] || (!Displaces(s, ms[0]) && NoneDisplaced(Apply(s, ms[0]), ms[1..]))
  }

  lemma {:induction false} RunOwnHandles(s: State, ms: seq<Move>)
    requires OwnHandles(s) && Legal(s, ms) && NoneReused(s, ms)
    ensures NoneDisplaced(s, ms)
    decreases |ms|
  {
    hide OwnHandles, Apply, Enabled, Reuses, Displaces;
    if ms == [] {
    } else {
      StepOwnHandles(s, ms[0]);
      RunOwnHandles(Apply(s, ms[0]), ms[1..]);
    }
  }

  /** If the service hands out no handle that is in use for another callback, then over every
      run of overlapping starts no call takes the handle of another live callback. */
  lemma UnusedHandlesDisplaceNobody(ms: seq<Move>)
    requires Legal(INIT, ms) && NoneReused(INIT, ms)
    ensures NoneDisplaced(INIT, ms)
  {
    RunOwnHandles(INIT, ms);
  }

  predicate NoGrants(ms: seq<Move>) {
    forall i :: 0 <= i < |ms| ==> !ms[i].Grant?
  }

  lemma {:induction false} NoGrantsNoReuse(s: State, ms: seq<Move>)
    requires NoGrants(ms)
    ensures NoneReused(s, ms)
    decreases |ms|
  {
    hide Apply;
    if ms == [] {
    } else {
      assert !ms[0].Grant?;
      NoGrantsNoReuse(Apply(s, ms[0]), ms[1..]);
    }
  }

  lemma Ahead(s: State, m: Move, ms: seq<Move>)
    requires Enabled(s, m) && !m.Grant? && Legal(Apply(s, m), ms) && NoGrants(ms)
    requires Displaces(s, m) || !NoneDisplaced(Apply(s, m), ms)
    ensures Legal(s, [m] + ms) && NoGrants([m] + ms) && !NoneDisplaced(s, [m] + ms)
  {
    hide Enabled, Apply, Displaces;
    assert ([m] + ms)[1..] == ms;
  }

  /** A start whose handle now belongs to another live callback can take it away. */
  lemma EraseTakes(s: State, u: nat, h: Handle) returns (ms: seq<Move>)
    requires Uses(At(s, u), h) && h in s.callbacks
    requires s.callbacks[h] != At(s, u).callback && s.callbacks[h] !in s.expired
    ensures Legal(s, ms) && NoGrants(ms) && !NoneDisplaced(s, ms)
  {
    hide Displaces;
    if At(s, u).Starting? {
      var s' := Apply(s, Result(u, false));
      DisplacesExactly(s', Erase(u));
      Ahead(s', Erase(u), []);
      Ahead(s, Result(u, false), [Erase(u)] + []);
      ms := [Result(u, false)] + ([Erase(u)] + []);
    } else {
      var m := if At(s, u).Inserting? then Insert(u) else Erase(u);
      DisplacesExactly(s, m);
      Ahead(s, m, []);
      ms := [m] + [];
    }
  }

  lemma ReuseTakes(s: State, t: nat, h: Handle) returns (ms: seq<Move>)
    requires Sane(s) && At(s, t).Inserting? && At(s, t).handle == h && InUse(s, At(s, t).callback, h)
    ensures Legal(s, ms) && NoGrants(ms) && !NoneDisplaced(s, ms)
  {
    hide Displaces;
    var cb := At(s, t).callback;
    if h in s.callbacks && s.callbacks[h] != cb && s.callbacks[h] !in s.expired {
      ms := EraseTakes(s, t, h);
    } else {
      var u: nat :| Uses(At(s, u), h) && At(s, u).callback != cb;
      var s' := Apply(s, Insert(t));
      ms := EraseTakes(s', u, h);
      Ahead(s, Insert(t), ms);
      ms := [Insert(t)] + ms;
    }
  }

  lemma UseIsStable(s: State, t: nat, h: Handle)
    requires At(s, t).Asking? && h != INVALID_HANDLE
    ensures var cb := At(s, t).callback;
            InUse(Apply(s, Grant(t, h, true)), cb, h) <==> InUse(s, cb, h)
  {
    var cb, s' := At(s, t).callback, Apply(s, Grant(t, h, true));
    assert forall u: nat :: u != t ==> At(s', u) == At(s, u);
    if u: nat :| Uses(At(s, u), h) && At(s, u).callback != cb {
      assert Uses(At(s', u), h) && At(s', u).callback != cb;
    }
  }

  /** The condition is exact: when the service hands out `h`, every way in which the calls
      underway can go on leaves other live callbacks their handles if and only if `h` is not
      in use for another callback. Otherwise the insertion, or the erasure of a start that
      fails, takes a handle away. */
  lemma ReuseDecides(s: State, t: nat, h: Handle)
    requires Sane(s) && OwnHandles(s) && At(s, t).Asking? && h != INVALID_HANDLE
    ensures var s' := Apply(s, Grant(t, h, true));
            (forall ms :: Legal(s', ms) && NoGrants(ms) ==> NoneDisplaced(s', ms))
            <==> !InUse(s, At(s, t).callback, h)
  {
    hide Sane, OwnHandles, NoGrants, InUse, NoneDisplaced;
    var m := Grant(t, h, true);
    var s' := Apply(s, m);
    StepSane(s, m);
    UseIsStable(s, t, h);
    if InUse(s, At(s, t).callback, h) {
      var ms := ReuseTakes(s', t, h);
    } else {
      StepOwnHandles(s, m);
      forall ms | Legal(s', ms) && NoGrants(ms) ensures NoneDisplaced(s', ms) {
        NoGrantsNoReuse(s', ms);
        RunOwnHandles(s', ms);
      }
    }
  }

  // ----------------------------------------------------------------- one whole call

  lemma Prepend(s: State, m: Move, ms: seq<Move>)
    requires Enabled(s, m) && Legal(Apply(s, m), ms)
    ensures Legal(s, [m] + ms) && Final(s, [m] + ms) == Final(Apply(s, m), ms)
  {
    hide Enabled, Apply;
    assert ([m] + ms)[1..] == ms;
  }

  /** The moves of one start with nothing in between, for the service's answers and the result
      of the start as given: a known callback starts under its handle; a new one gets the
      answer, and keeps it if and only if the start succeeds. */
  lemma WholeCall(s: State, t: nat, cb: nat, answer: Handle, granted: bool, started: bool) returns (ms: seq<Move>)
    requires Sane(s) && At(s, t) == Idle && cb !in s.expired
    ensures Legal(s, ms) && At(Final(s, ms), t) == Idle && Final(s, ms).expired == s.expired
    ensures var usable := granted && answer != INVALID_HANDLE;
            var end := Final(s, ms);
            && (Known(s, cb) ==>
                  && |ms| == 2 && ms[0].Look? && ms[0].t == t && ms[0].callback == cb && ms[0].found.Some?
                  && ms[1] == Result(t, started)
                  && end.callbacks == s.callbacks)
            && (!Known(s, cb) && !usable ==>
                  ms == [Look(t, cb, None), Grant(t, answer, granted)] && end.callbacks == s.callbacks)
            && (!Known(s, cb) && usable && started ==>
                  && ms == [Look(t, cb, None), Grant(t, answer, granted), Insert(t), Result(t, true)]
                  && end.callbacks == s.callbacks[answer := cb])
            && (!Known(s, cb) && usable && !started ==>
                  && ms == [Look(t, cb, None), Grant(t, answer, granted), Insert(t), Result(t, false), Erase(t)]
                  && end.callbacks == s.callbacks - {answer})
  {
    if Known(s, cb) {
      var h: Handle :| HandleOf(s, cb, h);
      var look, result := Look(t, cb, Some(h)), Result(t, started);
      var s1 := Apply(s, look);
      Prepend(s1, result, []);
      Prepend(s, look, [result] + []);
      ms := [look] + ([result] + []);
    } else {
      var look, grant := Look(t, cb, None), Grant(t, answer, granted);
      var s1 := Apply(s, look);
      var s2 := Apply(s1, grant);
      var rest := [];
      if granted && answer != INVALID_HANDLE {
        rest := FromInsert(s2, t, started);
      }
      Prepend(s1, grant, rest);
      Prepend(s, look, [grant] + rest);
      ms := [look] + ([grant] + rest);
    }
  }

  lemma FromInsert(s: State, t: nat, started: bool) returns (ms: seq<Move>)
    requires At(s, t).Inserting?
    ensures ms == if started then [Insert(t), Result(t, true)] else [Insert(t), Result(t, false), Erase(t)]
    ensures Legal(s, ms) && At(Final(s, ms), t) == Idle && Final(s, ms).expired == s.expired
    ensures var pc := At(s, t);
            Final(s, ms).callbacks ==
            if started then s.callbacks[pc.handle := pc.callback] else s.callbacks - {pc.handle}
  {
    var s1 := Apply(s, Insert(t));
    var s2 := Apply(s1, Result(t, started));
    var rest := if started then [] else [Erase(t)] + [];
    if !started {
      var s3 := Apply(s2, Erase(t));
      assert s3.callbacks == s.callbacks - {At(s, t).handle};
      Prepend(s2, Erase(t), []);
    }
    Prepend(s1, Result(t, started), rest);
    Prepend(s, Insert(t), [Result(t, started)] + rest);
    ms := [Insert(t)] + ([Result(t, started)] + rest);
  }

  // ------------------------------------------------------------- the map as history

  /** Where a thread is, told from its own past moves. */
  function PcOf(ms: seq<Move>, t: nat): Pc {
    if ms == [] then Idle
    else
      var before, m := PcOf(ms[..|ms| - 1], t), ms[|ms| - 1];
      match m
      case Look(u, cb, found) =>
        if u != t then before
        else if found == None then Asking(cb)
        else Starting(cb, found.value, false)
      case Grant(u, answer, granted) =>
        if u != t || !before.Asking? then before
        else if granted && answer != 0xFF then Inserting(before.callback, answer)
        else Idle
      case Insert(u) =>
        if u != t || !before.Inserting? then before else Starting(before.callback, before.handle, true)
      case Result(u, started) =>
        if u != t || !before.Starting? then before
        else if before.isNew && !started then Erasing(before.callback, before.handle)
        else Idle
      case Erase(u) => if u != t then before else Idle
      case _ => before
  }

  /** The callback that last inserted itself under this handle, unless a start that failed with
      this handle, an event for it or a service stop followed. */
  function OwnerOf(ms: seq<Move>, h: Handle): Option<nat> {
    if ms == [] then None
    else
      var before, m := ms[..|ms| - 1], ms[|ms| - 1];
      match m
      case Insert(t) =>
        var pc := PcOf(before, t);
        if pc.Inserting? && pc.handle == h then Some(pc.callback) else OwnerOf(before, h)
      case Erase(t) =>
        var pc := PcOf(before, t);
        if pc.Erasing? && pc.handle == h then None else OwnerOf(before, h)
      case Ended(g) => if g == h then None else OwnerOf(before, h)
      case ServiceStopped => None
      case _ => OwnerOf(before, h)
  }

  predicate ExpiredBy(ms: seq<Move>, cb: nat) {
    exists i :: 0 <= i < |ms| && ms[i] == Expire(cb)
  }

  lemma {:induction false} FinalSnoc(s: State, ms: seq<Move>, m: Move)
    ensures Final(s, ms + [m]) == Apply(Final(s, ms), m)
    ensures Legal(s, ms + [m]) <==> Legal(s, ms) && Enabled(Final(s, ms), m)
    decreases |ms|
  {
    hide Apply, Enabled;
    if ms == [] {
      assert [m][1..] == [] && ms + [m] == [m];
      assert Final(Apply(s, m), []) == Apply(s, m) && Legal(Apply(s, m), []);
    } else {
      assert (ms + [m])[1..] == ms[1..] + [m];
      FinalSnoc(Apply(s, ms[0]), ms[1..], m);
    }
  }

  lemma LastMove(ms: seq<Move>, m: Move)
    ensures (ms + [m])[..|ms + [m]| - 1] == ms && (ms + [m])[|ms + [m]| - 1] == m
  {
  }

  lemma ExpiredSnoc(ms: seq<Move>, m: Move, cb: nat)
    ensures ExpiredBy(ms + [m], cb) <==> ExpiredBy(ms, cb) || m == Expire(cb)
  {
    if ExpiredBy(ms, cb) {
      var i :| 0 <= i < |ms| && ms[i] == Expire(cb);
      assert (ms + [m])[i] == ms[i];
    }
    assert (ms + [m])[|ms|] == m;
  }

  /** After every run each thread is where its own moves put it, and the map holds for every
      handle exactly the callback that history tells. */
  lemma {:induction false} MapIsHistory(ms: seq<Move>)
    requires Legal(INIT, ms)
    ensures var s := Final(INIT, ms);
            && (forall t: nat :: At(s, t) == PcOf(ms, t))
            && (forall h: Handle :: h in s.callbacks <==> OwnerOf(ms, h).Some?)
            && (forall h: Handle :: h in s.callbacks ==> OwnerOf(ms, h) == Some(s.callbacks[h]))
            && (forall cb: nat :: cb in s.expired <==> ExpiredBy(ms, cb))
    decreases |ms|
  {
    hide Legal, Final, ExpiredBy;
    if ms == [] {
      NoMoves();
    } else {
      var before, m := ms[..|ms| - 1], ms[|ms| - 1];
      assert ms == before + [m];
      FinalSnoc(INIT, before, m);
      MapIsHistory(before);
      LastMove(before, m);
      forall cb: nat ensures ExpiredBy(ms, cb) <==> ExpiredBy(before, cb) || m == Expire(cb) {
        ExpiredSnoc(before, m, cb);
      }
    }
  }

  lemma NoMoves()
    ensures Final(INIT, []) == INIT && forall cb: nat :: !ExpiredBy([], cb)
  {
  }

  class SleAdvertiser {
    var callbacks: map<Handle, nat>
    ghost var expired: set<nat>

    ghost function Abs(): State
      reads this
    {
      State(callbacks, expired, map[])
    }

    ghost predicate Valid()
      reads this
    {
      INVALID_HANDLE !in callbacks && OneHandle(Abs())
    }

    constructor ()
      ensures Abs() == INIT && Valid()
    {
      callbacks, expired := map[], {};
    }

    /** The pointer a map entry locks to equals this argument; a null argument, like every
        expired entry, locks to null. */
    ghost predicate Matches(callback: Option<nat>, h: Handle)
      requires h in callbacks
      reads this
    {
      match callback
      case Some(cb) => HandleOf(Abs(), cb, h)
      case None => callbacks[h] in expired
    }

    /** Looks through the map for an entry of this callback; `dead` tells which weak pointers
        no longer lock. For a live callback it inverts the lookup by handle; for a null one it
        finds the handle of a dead callback, if there is any. */
    method GetAdvHandleImp(callback: Option<nat>, dead: set<nat>) returns (handle: Handle)
      requires Valid() && dead == expired && (callback.Some? ==> callback.value !in expired)
      ensures handle == INVALID_HANDLE <==> forall h :: h in callbacks ==> !Matches(callback, h)
      ensures handle != INVALID_HANDLE ==> handle in callbacks && Matches(callback, handle)
      ensures callback.Some? ==>
                && (handle != INVALID_HANDLE <==> Known(Abs(), callback.value))
                && (forall h: Handle :: h != INVALID_HANDLE ==> (HandleOf(Abs(), callback.value, h) <==> h == handle))
    {
      var todo := callbacks.Keys;
      handle := INVALID_HANDLE;
      while todo != {}
        invariant todo <= callbacks.Keys
        invariant forall h :: h in callbacks && h !in todo ==> !Matches(callback, h)
        decreases |todo|
      {
        var h :| h in todo;
        var locked := if callbacks[h] in dead then None else Some(callbacks[h]);
        if callback == locked {
          assert Matches(callback, h);
          return h;
        }
        todo := todo - {h};
      }
    }

    /** The public lookup, which narrows the handle to eight bits. It accepts a null callback
        and then succeeds with the handle of some dead callback. */
    method GetAdvHandle(callback: Option<nat>, dead: set<nat>, available: bool) returns (ok: bool, advHandle: nat)
      requires Valid() && dead == expired && (callback.Some? ==> callback.value !in expired)
      ensures ok ==> available && exists h :: h in callbacks && Matches(callback, h) && advHandle == h % 256
      ensures available && callback.Some? ==>
                (ok <==> exists h :: h in callbacks && Matches(callback, h) && h % 256 != 0xFF)
      ensures available && (forall h :: h in callbacks ==> h % 256 != 0xFF) ==>
                (ok <==> exists h :: h in callbacks && Matches(callback, h))
    {
      if !available {
        return false, 0xFF;
      }
      var handle := GetAdvHandleImp(callback, dead);
      advHandle := handle % 256;
      ok := advHandle != 0xFF;
    }

    /** With no other start in between. A null callback is refused. A start succeeds without
        leaving the callback a handle exactly when the service grants the request but has no
        handle left; otherwise success means exactly one handle, the old one if there was one
        and else the service's answer. A failed start leaves a new callback without. */
    method StartAdvertising(callback: Option<nat>, dead: set<nat>, answer: Handle, granted: bool, started: bool)
      returns (ok: bool)
      requires Valid() && dead == expired && (callback.Some? ==> callback.value !in expired)
      modifies this`callbacks
      ensures Valid()
      ensures callback == None ==> !ok && callbacks == old(callbacks)
      ensures callback.Some? ==>
                var known := old(Known(Abs(), callback.value));
                var usable := granted && answer != INVALID_HANDLE;
                && (ok <==> if known then started else granted && (answer == INVALID_HANDLE || started))
                && (ok && !Known(Abs(), callback.value) <==> !known && granted && answer == INVALID_HANDLE)
                && (!known ==> (HandleOf(Abs(), callback.value, answer) <==> usable && started))
                && callbacks == (if known || !usable then old(callbacks)
                                 else if started then old(callbacks)[answer := callback.value]
                                 else old(callbacks) - {answer})
      ensures forall cb: nat, h: Handle :: h != answer ==> (HandleOf(Abs(), cb, h) <==> old(HandleOf(Abs(), cb, h)))
    {
      if callback == None {
        return false;
      }
      var cb := callback.value;
      var handle := GetAdvHandleImp(callback, dead);
      if handle != INVALID_HANDLE {
        return started;
      }
      if !granted || answer == INVALID_HANDLE {
        return granted;
      }
      ghost var before := Abs();
      callbacks := callbacks[answer := cb];
      assert HandleOf(Abs(), cb, answer);
      assert forall c: nat, h: Handle :: h != answer ==> (HandleOf(Abs(), c, h) <==> HandleOf(before, c, h));
      if !started {
        callbacks := callbacks - {answer};
        assert callbacks == before.callbacks - {answer};
        assert forall c: nat, h: Handle :: h != answer ==> (HandleOf(Abs(), c, h) <==> HandleOf(before, c, h));
        return false;
      }
      return true;
    }
  }
}
