/** The observer adapter list and its agreement with the base host
    (frameworks/native/nearlink_observer_adapter.cpp, frameworks/native/nearlink_host.cpp).
    The adapter list owns the adapters; the base host keeps weak pointers to them
    (utils/include/nearlink_safe_weak_list.h). Each list locks by itself, so registrations,
    deregistrations and notifications of any number of threads interleave between them. */
module Observers {
  import opened Common

  /** Two adapters for one observer differ in their `id`. */
  datatype Adapter = Adapter(id: nat, observer: nat)

  /** Where a thread is; it holds the adapters it names. */
  datatype Pc =
    | Idle
    | Wrapped(adapter: Adapter)       // listed, will register with the base host
    | RollingBack(adapter: Adapter)   // the base host refused, will take it off the list
    | Found(adapter: Adapter)         // will deregister from the base host
    | Unlisting(adapter: Adapter)     // deregistered, will take it off the list
    | Returning(adapter: Adapter)
    | Notifying(todo: set<Adapter>, all: set<Adapter>)

  /** The adapter list, the base host's weak pointers including expired ones, the number of
      adapters made so far, and the observers that have died. */
  datatype State = State(list: seq<Adapter>, base: set<Adapter>, made: nat, dead: set<nat>, threads: map<nat, Pc>)

  const INIT := State([], {}, 0, {}, map[])

  datatype Move =
    | Wrap(t: nat, observer: nat)
    | Register(t: nat, accepted: bool)
    | RollBack(t: nat)
    | Find(t: nat, observer: nat)
    | Deregister(t: nat, accepted: bool)
    | Unlist(t: nat)
    | Return(t: nat)
    | Notify(t: nat)                    // the base host collects its live adapters ...
    | Call(t: nat, adapter: Adapter)    // ... and calls them one by one
    | Finish(t: nat)
    | Expire(observer: nat)

  function At(s: State, t: nat): Pc {
    if t in s.threads then s.threads[t] else Idle
  }

  predicate Listed(xs: seq<Adapter>, o: nat) {
    exists i :: 0 <= i < |xs| && xs[i].observer == o
  }

  function Without(xs: seq<Adapter>, o: nat): seq<Adapter> {
    if xs == [] then [] else if xs[0].observer == o then xs[1..] else [xs[0]] + Without(xs[1..], o)
  }

  function First(xs: seq<Adapter>, o: nat): (a: Adapter)
    requires Listed(xs, o)
    ensures a in xs && a.observer == o
  {
    if xs[0].observer == o then xs[0]
    else
      assert Listed(xs[1..], o) by {
        var i :| 0 <= i < |xs| && xs[i].observer == o;
        assert xs[1..][i - 1] == xs[i];
      }
      First(xs[1..], o)
  }

  predicate Holds(pc: Pc, a: Adapter) {
    match pc
    case Idle => false
    case Notifying(_, all) => a in all
    case _ => pc.adapter == a
  }

  /** A weak pointer to the adapter still locks. */
  ghost predicate Locks(s: State, a: Adapter) {
    a in s.list || exists t: nat :: Holds(At(s, t), a)
  }

  ghost function LiveBase(s: State): set<Adapter> {
    set a | a in s.base && Locks(s, a)
  }

  /** A caller keeps its observer alive. */
  ghost predicate Enabled(s: State, m: Move) {
    match m
    case Wrap(t, o) => At(s, t) == Idle && o !in s.dead
    case Register(t, _) => At(s, t).Wrapped?
    case RollBack(t) => At(s, t).RollingBack?
    case Find(t, o) => At(s, t) == Idle && o !in s.dead
    case Deregister(t, _) => At(s, t).Found?
    case Unlist(t) => At(s, t).Unlisting?
    case Return(t) => At(s, t).Returning?
    case Notify(t) => At(s, t) == Idle
    case Call(t, a) => At(s, t).Notifying? && a in At(s, t).todo
    case Finish(t) => At(s, t).Notifying? && At(s, t).todo == {}
    case Expire(o) => forall t: nat :: At(s, t) != Idle && !At(s, t).Notifying? ==> At(s, t).adapter.observer != o
  }

  function Put(s: State, t: nat, pc: Pc): State {
    s.(threads := s.threads[t := pc])
  }

  /** An observer that is already listed, or not listed, makes a call return at once. The base
      host's answer is truthful: it holds the adapter exactly if it accepted. */
  ghost function Apply(s: State, m: Move): State
    requires Enabled(s, m)
  {
    match m
    case Wrap(t, o) =>
      if Listed(s.list, o) then s
      else
        var a := Adapter(s.made, o);
        Put(s, t, Wrapped(a)).(list := s.list + [a], made := s.made + 1)
    case Register(t, accepted) =>
      var a := At(s, t).adapter;
      if accepted then Put(s, t, Returning(a)).(base := s.base + {a}) else Put(s, t, RollingBack(a))
    case RollBack(t) =>
      var a := At(s, t).adapter;
      Put(s, t, Returning(a)).(list := Without(s.list, a.observer))
    case Find(t, o) => if Listed(s.list, o) then Put(s, t, Found(First(s.list, o))) else s
    case Deregister(t, accepted) =>
      var a := At(s, t).adapter;
      if accepted then Put(s, t, Unlisting(a)).(base := s.base - {a}) else Put(s, t, Returning(a))
    case Unlist(t) =>
      var a := At(s, t).adapter;
      Put(s, t, Returning(a)).(list := Without(s.list, a.observer))
    case Return(t) => Put(s, t, Idle)
    case Notify(t) => Put(s, t, Notifying(LiveBase(s), LiveBase(s))).(base := LiveBase(s))
    case Call(t, a) =>
      var next := Put(s, t, Notifying(At(s, t).todo - {a}, At(s, t).all));
      if a.observer in s.dead then next.(list := Without(s.list, a.observer)) else next
    case Finish(t) => Put(s, t, Idle)
    case Expire(o) => s.(dead := s.dead + {o})
  }

  ghost predicate Legal(s: State, ms: seq<Move>)
    decreases |ms|
  {
    ms == [] || (Enabled(s, ms[0]) && Legal(Apply(s, ms[0]), ms[1..]))
  }

  ghost function Final(s: State, ms: seq<Move>): State
    requires Legal(s, ms)
    decreases |ms|
  {
    if ms == [] then s else Final(Apply(s, ms[0]), ms[1..])
  }

  /** No call is in progress and no notification is queued. */
  ghost predicate Quiescent(s: State) {
    forall t: nat :: At(s, t) == Idle
  }

  // -------------------------------------------------------------- the adapter list

  predicate OnePerObserver(xs: seq<Adapter>) {
    forall i, j :: 0 <= i < j < |xs| ==> xs[i].observer != xs[j].observer
  }

  lemma {:induction false} WithoutMembers(xs: seq<Adapter>, o: nat, a: Adapter)
    requires OnePerObserver(xs)
    ensures a in Without(xs, o) <==> a in xs && a.observer != o
  {
    if xs == [] {
    } else {
      WithoutMembers(xs[1..], o, a);
      assert xs == [xs[0]] + xs[1..];
    }
  }

  lemma {:induction false} WithoutOnePer(xs: seq<Adapter>, o: nat)
    requires OnePerObserver(xs)
    ensures OnePerObserver(Without(xs, o))
  {
    if xs == [] || xs[0].observer == o {
    } else {
      WithoutOnePer(xs[1..], o);
      var rest := Without(xs[1..], o);
      forall j | 0 <= j < |rest| ensures rest[j].observer != xs[0].observer {
        WithoutMembers(xs[1..], o, rest[j]);
      }
    }
  }

  lemma WithoutKeeps(xs: seq<Adapter>, o: nat)
    requires OnePerObserver(xs)
    ensures OnePerObserver(Without(xs, o)) && !Listed(Without(xs, o), o)
    ensures forall a :: a in Without(xs, o) <==> a in xs && a.observer != o
  {
    hide Without;
    WithoutOnePer(xs, o);
    forall a ensures a in Without(xs, o) <==> a in xs && a.observer != o {
      WithoutMembers(xs, o, a);
    }
  }

  lemma {:induction false} WithoutLast(xs: seq<Adapter>, a: Adapter)
    requires forall i :: 0 <= i < |xs| ==> xs[i].observer != a.observer
    ensures Without(xs + [a], a.observer) == xs
  {
    if xs == [] {
    } else {
      assert xs[0].observer != a.observer;
      assert (xs + [a])[1..] == xs[1..] + [a];
      WithoutLast(xs[1..], a);
    }
  }

  // ------------------------------------------------------------------ invariant

  /** The thread will register this adapter, or take it off the list. */
  predicate Settles(pc: Pc, a: Adapter) {
    || pc == Wrapped(a)
    || ((pc.RollingBack? || pc.Unlisting?) && pc.adapter.observer == a.observer)
  }

  /** At most one adapter per observer, and every listed adapter is registered or somebody is
      about to settle the difference. */
  ghost predicate Backed(s: State) {
    && OnePerObserver(s.list)
    && forall a :: a in s.list ==> a in s.base || exists t: nat :: Settles(At(s, t), a)
  }

  predicate Erases(s: State, m: Move) {
    || m.RollBack? || m.Unlist?
    || (m.Call? && m.adapter.observer in s.dead)
  }

  lemma EraseBacked(s: State, m: Move)
    requires Backed(s) && Enabled(s, m) && Erases(s, m)
    ensures Backed(Apply(s, m))
  {
    hide Without;
    var s' := Apply(s, m);
    var o := if m.Call? then m.adapter.observer else At(s, m.t).adapter.observer;
    WithoutKeeps(s.list, o);
    forall a | a in s'.list && a !in s'.base ensures exists t: nat :: Settles(At(s', t), a) {
      var t: nat :| Settles(At(s, t), a);
      assert Settles(At(s', t), a);
    }
  }

  lemma OtherBacked(s: State, m: Move)
    requires Backed(s) && Enabled(s, m) && !Erases(s, m)
    ensures Backed(Apply(s, m))
  {
    hide Without, First;
    var s' := Apply(s, m);
    forall a | a in s'.list && a !in s'.base ensures exists t: nat :: Settles(At(s', t), a) {
      if m.Wrap? && a !in s.list {
        assert Settles(At(s', m.t), a);
      } else if a in s.base && m.Deregister? {
        assert Settles(At(s', m.t), a);
      } else {
        var t: nat :| Settles(At(s, t), a);
        assert Settles(At(s', t), a);
      }
    }
  }

  lemma StepBacked(s: State, m: Move)
    requires Backed(s) && Enabled(s, m)
    ensures Backed(Apply(s, m))
  {
    hide Backed, Apply, Enabled, Erases;
    if Erases(s, m) {
      EraseBacked(s, m);
    } else {
      OtherBacked(s, m);
    }
  }

  lemma {:induction false} RunBacked(s: State, ms: seq<Move>)
    requires Backed(s) && Legal(s, ms)
    ensures Backed(Final(s, ms))
    decreases |ms|
  {
    hide Backed, Apply, Enabled;
    if ms == [] {
    } else {
      StepBacked(s, ms[0]);
      RunBacked(Apply(s, ms[0]), ms[1..]);
    }
  }

  // ---------------------------------------------------------------- main results

  /** In every run, once all calls and notifications are done, the adapters that the base
      host can still reach are exactly the listed ones, one per observer: any observer, dead
      or alive, is listed if and only if it is registered. */
  lemma ListedExactlyWhenRegistered(ms: seq<Move>, o: nat)
    requires Legal(INIT, ms) && Quiescent(Final(INIT, ms))
    ensures var s := Final(INIT, ms);
            && (forall a :: a in s.list <==> a in LiveBase(s))
            && (Listed(s.list, o) <==> exists a :: a in LiveBase(s) && a.observer == o)
            && (forall a, b :: a in LiveBase(s) && b in LiveBase(s) && a.observer == b.observer ==> a == b)
  {
    hide Legal, Final;
    RunBacked(INIT, ms);
    var s := Final(INIT, ms);
    forall a ensures a in s.list <==> a in LiveBase(s) {
      assert forall t: nat :: !Holds(At(s, t), a) && !Settles(At(s, t), a);
    }
    if Listed(s.list, o) {
      assert First(s.list, o) in LiveBase(s);
    }
    forall a | a in LiveBase(s) && a.observer == o ensures Listed(s.list, o) {
      var i :| 0 <= i < |s.list| && s.list[i] == a;
    }
    forall a, b | a in LiveBase(s) && b in LiveBase(s) && a.observer == b.observer ensures a == b {
      var i :| 0 <= i < |s.list| && s.list[i] == a;
      var j :| 0 <= j < |s.list| && s.list[j] == b;
    }
  }

  /** A notification sent then reaches exactly the listed adapters. */
  lemma NotifiesExactlyTheListed(ms: seq<Move>, t: nat)
    requires Legal(INIT, ms) && Quiescent(Final(INIT, ms))
    ensures var s := Final(INIT, ms);
            && Enabled(s, Notify(t))
            && forall a :: a in At(Apply(s, Notify(t)), t).todo <==> a in s.list
  {
    ListedExactlyWhenRegistered(ms, 0);
  }

  /** An adapter whose observer died is taken off the list by the first notification that
      calls it, and once no thread holds it any more its registration has expired too. */
  lemma DeadAdapterExpires(s: State, t: nat, a: Adapter)
    requires Backed(s) && a.observer in s.dead && Enabled(s, Call(t, a))
    ensures var s' := Apply(s, Call(t, a));
            && !Listed(s'.list, a.observer)
            && (a in LiveBase(s') ==> exists u: nat :: Holds(At(s', u), a))
  {
    hide Without;
    WithoutKeeps(s.list, a.observer);
  }

  // ------------------------------------------------ erasing by observer, not by adapter

  /** A call's erasure takes an adapter off the list that is not the call's own. */
  ghost predicate TakesAnother(s: State, m: Move) {
    && (m.RollBack? || m.Unlist?) && Enabled(s, m)
    && exists b :: b in s.list && b !in Apply(s, m).list && b != At(s, m.t).adapter
  }

  /** That happens exactly when the listed adapter of the call's observer is another one. */
  lemma TakesAnotherExactly(s: State, m: Move)
    requires OnePerObserver(s.list) && (m.RollBack? || m.Unlist?) && Enabled(s, m)
    ensures var own := At(s, m.t).adapter;
            TakesAnother(s, m) <==> Listed(s.list, own.observer) && First(s.list, own.observer) != own
  {
    hide Without, First;
    var own := At(s, m.t).adapter;
    WithoutKeeps(s.list, own.observer);
    if TakesAnother(s, m) {
      var b :| b in s.list && b !in Apply(s, m).list && b != own;
      ListedOnce(s.list, b);
    } else if Listed(s.list, own.observer) {
      assert First(s.list, own.observer) !in Apply(s, m).list;
    }
  }

  lemma ListedOnce(xs: seq<Adapter>, b: Adapter)
    requires OnePerObserver(xs) && b in xs
    ensures Listed(xs, b.observer) && First(xs, b.observer) == b
  {
    hide First;
    var i :| 0 <= i < |xs| && xs[i] == b;
    var f := First(xs, b.observer);
    var j :| 0 <= j < |xs| && xs[j] == f;
  }

  /** A call for this observer is on its way to a possible erasure. */
  predicate Busy(pc: Pc, o: nat) {
    (pc.Wrapped? || pc.RollingBack? || pc.Found? || pc.Unlisting?) && pc.adapter.observer == o
  }

  ghost predicate Contended(s: State, o: nat) {
    exists t: nat :: Busy(At(s, t), o)
  }

  /** The adapter of a call on its way is the listed one of its observer, if any. */
  ghost predicate Matched(s: State) {
    forall t: nat, b: Adapter :: Busy(At(s, t), b.observer) && b in s.list ==> b == At(s, t).adapter
  }

  /** Adapters in use were made. */
  ghost predicate Numbered(s: State) {
    && (forall a :: a in s.list ==> a.id < s.made)
    && (forall t: nat :: At(s, t) != Idle && !At(s, t).Notifying? ==> At(s, t).adapter.id < s.made)
  }

  /** The observer gets a new adapter while such a call is on its way. */
  ghost predicate Races(s: State, m: Move) {
    m.Wrap? && !Listed(s.list, m.observer) && Contended(s, m.observer)
  }

  lemma BusyComesFrom(s: State, m: Move, t: nat, o: nat)
    requires Enabled(s, m) && Busy(At(Apply(s, m), t), o)
    ensures || (Busy(At(s, t), o) && At(s, t).adapter == At(Apply(s, m), t).adapter)
            || (m == Wrap(t, o) && !Listed(s.list, o) && At(Apply(s, m), t) == Wrapped(Adapter(s.made, o)))
            || (m == Find(t, o) && Listed(s.list, o) && At(Apply(s, m), t) == Found(First(s.list, o)))
  {
    hide Without, First, LiveBase;
  }

  lemma ListComesFrom(s: State, m: Move, b: Adapter)
    requires OnePerObserver(s.list) && Enabled(s, m) && b in Apply(s, m).list
    ensures b in s.list || (m.Wrap? && !Listed(s.list, m.observer) && b == Adapter(s.made, m.observer))
  {
    hide Without, First, LiveBase;
    if Erases(s, m) {
      WithoutKeeps(s.list, if m.Call? then m.adapter.observer else At(s, m.t).adapter.observer);
    }
  }

  lemma StepMatched(s: State, m: Move)
    requires OnePerObserver(s.list) && Matched(s) && Enabled(s, m) && !Races(s, m)
    ensures Matched(Apply(s, m)) && !TakesAnother(s, m)
  {
    hide Apply, First, TakesAnother;
    var s' := Apply(s, m);
    forall t: nat, b: Adapter | Busy(At(s', t), b.observer) && b in s'.list ensures b == At(s', t).adapter {
      BusyComesFrom(s, m, t, b.observer);
      ListComesFrom(s, m, b);
      if b in s.list {
        ListedOnce(s.list, b);
      }
    }
    if m.RollBack? || m.Unlist? {
      TakesAnotherExactly(s, m);
      assert Busy(At(s, m.t), At(s, m.t).adapter.observer);
    } else {
      TakesNothing(s, m);
    }
  }

  lemma TakesNothing(s: State, m: Move)
    requires !m.RollBack? && !m.Unlist?
    ensures !TakesAnother(s, m)
  {
  }

  ghost predicate NoneTaken(s: State, ms: seq<Move>)
    requires Legal(s, ms)
    decreases |ms|
  {
    ms == [] || (!TakesAnother(s, ms[0]) && NoneTaken(Apply(s, ms[0]), ms[1..]))
  }

  ghost predicate NoRaces(s: State, ms: seq<Move>)
    requires Legal(s, ms)
    decreases |ms|
  {
    ms == [] || (!Races(s, ms[0]) && NoRaces(Apply(s, ms[0]), ms[1..]))
  }

  lemma {:induction false} RunMatched(s: State, ms: seq<Move>)
    requires Backed(s) && Matched(s) && Legal(s, ms) && NoRaces(s, ms)
    ensures NoneTaken(s, ms)
    decreases |ms|
  {
    hide Matched, Apply, Enabled, Erases, Races, TakesAnother;
    if ms == [] {
    } else {
      StepMatched(s, ms[0]);
      StepBacked(s, ms[0]);
      RunMatched(Apply(s, ms[0]), ms[1..]);
    }
  }

  /** Over every run: if no observer is registered anew while a call for it is on its way, no
      call ever takes another call's adapter off the list. */
  lemma OwnAdaptersOnly(ms: seq<Move>)
    requires Legal(INIT, ms) && NoRaces(INIT, ms)
    ensures NoneTaken(INIT, ms)
  {
    RunMatched(INIT, ms);
  }

  predicate NoWraps(ms: seq<Move>) {
    forall i :: 0 <= i < |ms| ==> !ms[i].Wrap?
  }

  lemma {:induction false} NoWrapsNoRaces(s: State, ms: seq<Move>)
    requires Legal(s, ms) && NoWraps(ms)
    ensures NoRaces(s, ms)
    decreases |ms|
  {
    hide Apply, Enabled;
    if ms == [] {
    } else {
      assert !ms[0].Wrap?;
      NoWrapsNoRaces(Apply(s, ms[0]), ms[1..]);
    }
  }

  lemma Ahead(s: State, m: Move, ms: seq<Move>)
    requires Enabled(s, m) && !m.Wrap? && Legal(Apply(s, m), ms) && NoWraps(ms)
    requires TakesAnother(s, m) || !NoneTaken(Apply(s, m), ms)
    ensures Legal(s, [m] + ms) && NoWraps([m] + ms) && !NoneTaken(s, [m] + ms)
  {
    hide Enabled, Apply, TakesAnother;
    assert ([m] + ms)[1..] == ms;
  }

  lemma EraseTakes(s: State, u: nat, b: Adapter) returns (ms: seq<Move>)
    requires OnePerObserver(s.list) && b in s.list && Busy(At(s, u), b.observer) && At(s, u).adapter != b
    ensures Legal(s, ms) && NoWraps(ms) && !NoneTaken(s, ms)
  {
    hide Without, First, TakesAnother, LiveBase;
    ListedOnce(s.list, b);
    if At(s, u).RollingBack? || At(s, u).Unlisting? {
      var m := if At(s, u).RollingBack? then RollBack(u) else Unlist(u);
      TakesAnotherExactly(s, m);
      Ahead(s, m, []);
      ms := [m] + [];
    } else {
      var first := if At(s, u).Wrapped? then Register(u, false) else Deregister(u, true);
      var s' := Apply(s, first);
      var m := if At(s, u).Wrapped? then RollBack(u) else Unlist(u);
      TakesAnotherExactly(s', m);
      Ahead(s', m, []);
      Ahead(s, first, [m] + []);
      ms := [first] + ([m] + []);
    }
  }

  /** The condition is exact: when an observer gets a new adapter, every way in which the calls
      underway can go on takes only a call's own adapter off the list if and only if no other
      call for that observer is on its way. Otherwise the older call undoes the new one. */
  lemma RaceDecides(s: State, t: nat, o: nat)
    requires Backed(s) && Matched(s) && Numbered(s) && Enabled(s, Wrap(t, o)) && !Listed(s.list, o)
    ensures var s' := Apply(s, Wrap(t, o));
            (forall ms :: Legal(s', ms) && NoWraps(ms) ==> NoneTaken(s', ms)) <==> !Contended(s, o)
  {
    hide Matched, NoWraps, NoneTaken, First, Without;
    var m := Wrap(t, o);
    var s' := Apply(s, m);
    StepBacked(s, m);
    if Contended(s, o) {
      var u: nat :| Busy(At(s, u), o);
      var b := Adapter(s.made, o);
      assert b in s'.list && At(s', u) == At(s, u);
      var ms := EraseTakes(s', u, b);
    } else {
      StepMatched(s, m);
      forall ms | Legal(s', ms) && NoWraps(ms) ensures NoneTaken(s', ms) {
        NoWrapsNoRaces(s', ms);
        RunMatched(s', ms);
      }
    }
  }

  lemma {:induction false} Extend(s: State, ms: seq<Move>, m: Move)
    requires Legal(s, ms) && Enabled(Final(s, ms), m)
    ensures Legal(s, ms + [m]) && Final(s, ms + [m]) == Apply(Final(s, ms), m)
    decreases |ms|
  {
    hide Apply, Enabled;
    if ms == [] {
      assert ms + [m] == [m] && [m][1..] == [];
      assert Legal(Apply(s, m), []);
    } else {
      Extend(Apply(s, ms[0]), ms[1..], m);
      assert (ms + [m])[1..] == ms[1..] + [m];
    }
  }

  lemma Take(ms: seq<Move>, s: State, m: Move) returns (ms': seq<Move>, s': State)
    requires Legal(INIT, ms) && Final(INIT, ms) == s && Enabled(s, m)
    ensures ms' == ms + [m] && s' == Apply(s, m)
    ensures Legal(INIT, ms') && Final(INIT, ms') == s'
  {
    hide Apply, Enabled;
    Extend(INIT, ms, m);
    ms', s' := ms + [m], Apply(s, m);
  }

  lemma OneListed(a: Adapter)
    ensures Listed([a], a.observer) && First([a], a.observer) == a && Without([a], a.observer) == []
  {
    assert [a][0] == a;
  }

  lemma Registered(o: nat) returns (ms: seq<Move>, s: State)
    ensures Legal(INIT, ms) && s == Final(INIT, ms)
    ensures s.list == [Adapter(0, o)] && s.base == {Adapter(0, o)} && s.made == 1 && s.dead == {}
    ensures s.threads == map[1 := Idle]
  {
    hide Legal, Final, Listed, First, Without, LiveBase;
    ms, s := [], INIT;
    assert Legal(INIT, []) && Final(INIT, []) == INIT by { NoMoves(); }
    NobodyListed(o);
    ms, s := Take(ms, s, Wrap(1, o));
    ms, s := Take(ms, s, Register(1, true));
    ms, s := Take(ms, s, Return(1));
  }

  /** Two deregistrations have found the adapter of an observer, and the first is done. */
  lemma SecondStillUnderway(o: nat) returns (ms: seq<Move>, s: State)
    ensures Legal(INIT, ms) && s == Final(INIT, ms)
    ensures s.list == [] && s.base == {} && s.made == 1 && s.dead == {}
    ensures At(s, 2) == Found(Adapter(0, o)) && At(s, 3) == Idle
  {
    hide Legal, Final, Listed, First, Without, LiveBase;
    OneListed(Adapter(0, o));
    ms, s := Registered(o);
    ms, s := Take(ms, s, Find(1, o));
    ms, s := Take(ms, s, Find(2, o));
    ms, s := Take(ms, s, Deregister(1, true));
    ms, s := Take(ms, s, Unlist(1));
  }

  lemma NoMoves()
    ensures Legal(INIT, []) && Final(INIT, []) == INIT
  {
  }

  lemma NobodyListed(o: nat)
    ensures !Listed([], o)
  {
  }

  /** Meanwhile a third thread registers the observer again and returns. */
  lemma RegisteredAgain(o: nat) returns (ms: seq<Move>, s: State)
    ensures Legal(INIT, ms) && s == Final(INIT, ms)
    ensures s.list == [Adapter(1, o)] && s.base == {Adapter(1, o)}
    ensures At(s, 2) == Found(Adapter(0, o)) && At(s, 3) == Idle
  {
    hide Legal, Final, Listed, First, Without, LiveBase;
    ms, s := SecondStillUnderway(o);
    NobodyListed(o);
    ms, s := Take(ms, s, Wrap(3, o));
    ms, s := Take(ms, s, Register(3, true));
    ms, s := Take(ms, s, Return(3));
  }

  /** Such a race happens: a registration that returned success, with its adapter listed and
      registered, is undone by a deregistration that began before it. */
  lemma UndoneRegistrationIsReachable(o: nat) returns (ms: seq<Move>, m: Move, b: Adapter)
    ensures Legal(INIT, ms) && Enabled(Final(INIT, ms), m) && TakesAnother(Final(INIT, ms), m)
    ensures var s := Final(INIT, ms);
            && b.observer == o && b in s.list && b in LiveBase(s) && At(s, 3) == Idle
            && !Listed(Apply(s, m).list, o)
  {
    hide Legal, Final, Listed, First, Without, LiveBase, TakesAnother;
    var s;
    ms, s := RegisteredAgain(o);
    b := Adapter(1, o);
    ms, s := Take(ms, s, Deregister(2, true));
    m := Unlist(2);
    assert s.list == [b] && b in s.base && At(s, 2) == Unlisting(Adapter(0, o));
    OneListed(b);
    NobodyListed(o);
    TakesAnotherExactly(s, m);
    IsLive(s, b);
  }

  lemma IsLive(s: State, a: Adapter)
    requires a in s.list && a in s.base
    ensures a in LiveBase(s)
  {
  }

  // ------------------------------------------------------------ the list as history

  /** How many adapters were made: one for every wrap of an observer not listed then. */
  function MadeBy(ms: seq<Move>): nat
    decreases |ms|, 0
  {
    if ms == [] then 0
    else
      var before, m := ms[..|ms| - 1], ms[|ms| - 1];
      MadeBy(before) + if m.Wrap? && ListedAs(before, m.observer) == None then 1 else 0
  }

  predicate DiedIn(ms: seq<Move>, o: nat) {
    exists i :: 0 <= i < |ms| && ms[i] == Expire(o)
  }

  /** The adapter of an observer on the list: the one its last wrap made, unless a rollback or a
      deregistration for it, or a notification that found it dead, followed. */
  function ListedAs(ms: seq<Move>, o: nat): Option<Adapter>
    decreases |ms|, 2
  {
    if ms == [] then None
    else
      var before, m := ms[..|ms| - 1], ms[|ms| - 1];
      match m
      case Wrap(_, x) =>
        if x == o && ListedAs(before, o) == None then Some(Adapter(MadeBy(before), o)) else ListedAs(before, o)
      case RollBack(t) => if HandlesFor(before, t, o) then None else ListedAs(before, o)
      case Unlist(t) => if HandlesFor(before, t, o) then None else ListedAs(before, o)
      case Call(_, a) => if a.observer == o && DiedIn(before, o) then None else ListedAs(before, o)
      case _ => ListedAs(before, o)
  }

  /** The thread's call in progress is for this observer. */
  predicate HandlesFor(ms: seq<Move>, t: nat, o: nat)
    decreases |ms|, 1
  {
    var pc := PcOf(ms, t);
    pc != Idle && !pc.Notifying? && pc.adapter.observer == o
  }

  /** Where a thread is, told from its own past moves; of a notification only that it is one. */
  function PcOf(ms: seq<Move>, t: nat): Pc
    decreases |ms|, 0
  {
    if ms == [] then Idle
    else
      var past, m := ms[..|ms| - 1], ms[|ms| - 1];
      var before := PcOf(past, t);
      match m
      case Wrap(u, o) =>
        if u == t && ListedAs(past, o) == None then Wrapped(Adapter(MadeBy(past), o)) else before
      case Register(u, accepted) =>
        if u != t || !before.Wrapped? then before
        else if accepted then Returning(before.adapter)
        else RollingBack(before.adapter)
      case RollBack(u) => if u != t || !before.RollingBack? then before else Returning(before.adapter)
      case Find(u, o) =>
        if u == t && ListedAs(past, o).Some? then Found(ListedAs(past, o).value) else before
      case Deregister(u, accepted) =>
        if u != t || !before.Found? then before
        else if accepted then Unlisting(before.adapter)
        else Returning(before.adapter)
      case Unlist(u) => if u != t || !before.Unlisting? then before else Returning(before.adapter)
      case Return(u) => if u != t then before else Idle
      case Notify(u) => if u != t then before else Notifying({}, {})
      case Finish(u) => if u != t then before else Idle
      case _ => before
  }

  predicate SamePlace(pc: Pc, told: Pc) {
    pc == told || (pc.Notifying? && told.Notifying?)
  }

  /** List, threads and dead observers are what the history tells. */
  ghost predicate ListTold(ms: seq<Move>, s: State) {
    && OnePerObserver(s.list)
    && s.made == MadeBy(ms)
    && (forall t: nat :: SamePlace(At(s, t), PcOf(ms, t)))
    && (forall o: nat :: Listed(s.list, o) <==> ListedAs(ms, o).Some?)
    && (forall a :: a in s.list <==> ListedAs(ms, a.observer) == Some(a))
    && (forall o: nat :: o in s.dead <==> DiedIn(ms, o))
  }

  lemma LastMove(ms: seq<Move>, m: Move)
    ensures (ms + [m])[..|ms + [m]| - 1] == ms && (ms + [m])[|ms + [m]| - 1] == m
  {
  }

  lemma DiedSnoc(ms: seq<Move>, m: Move, o: nat)
    ensures DiedIn(ms + [m], o) <==> DiedIn(ms, o) || m == Expire(o)
  {
    if DiedIn(ms, o) {
      var i :| 0 <= i < |ms| && ms[i] == Expire(o);
      assert (ms + [m])[i] == ms[i];
    }
    assert (ms + [m])[|ms|] == m;
  }

  /** What a move does to the list: a wrap of an unlisted observer adds its new adapter, an
      erasure takes that of its observer off, nothing else changes it. */
  lemma StepList(s: State, m: Move, a: Adapter)
    requires OnePerObserver(s.list) && Enabled(s, m)
    ensures OnePerObserver(Apply(s, m).list)
    ensures m.Wrap? ==>
              (a in Apply(s, m).list <==>
               a in s.list || (!Listed(s.list, m.observer) && a == Adapter(s.made, m.observer)))
    ensures m.RollBack? || m.Unlist? ==>
              (a in Apply(s, m).list <==> a in s.list && a.observer != At(s, m.t).adapter.observer)
    ensures m.Call? ==>
              (a in Apply(s, m).list <==> a in s.list && !(a.observer == m.adapter.observer && a.observer in s.dead))
    ensures !m.Wrap? && !m.RollBack? && !m.Unlist? && !m.Call? ==> Apply(s, m).list == s.list
  {
    hide Without, First, LiveBase;
    if m.RollBack? || m.Unlist? {
      WithoutKeeps(s.list, At(s, m.t).adapter.observer);
    } else if m.Call? {
      WithoutKeeps(s.list, m.adapter.observer);
    }
  }

  lemma ListedIff(xs: seq<Adapter>, o: nat)
    ensures Listed(xs, o) <==> exists a :: a in xs && a.observer == o
  {
  }

  lemma ToldAdapter(ms: seq<Move>, s: State, o: nat)
    requires ListTold(ms, s)
    ensures Listed(s.list, o) ==> ListedAs(ms, o) == Some(First(s.list, o))
    ensures ListedAs(ms, o).Some? ==> ListedAs(ms, o).value.observer == o && ListedAs(ms, o).value in s.list
  {
    hide PcOf, MadeBy, DiedIn, ListedAs;
    if Listed(s.list, o) {
      assert First(s.list, o) in s.list;
    }
  }

  lemma StepPlace(ms: seq<Move>, s: State, m: Move, t: nat)
    requires ListTold(ms, s) && Enabled(s, m)
    ensures SamePlace(At(Apply(s, m), t), PcOf(ms + [m], t))
  {
    hide ListedAs, MadeBy, DiedIn, First, Listed, Without, LiveBase;
    LastMove(ms, m);
    assert SamePlace(At(s, t), PcOf(ms, t));
    if m.Find? {
      ToldAdapter(ms, s, m.observer);
    }
  }

  lemma StepListedAs(ms: seq<Move>, s: State, m: Move, o: nat, a: Adapter)
    requires ListTold(ms, s) && Enabled(s, m) && a.observer == o
    ensures a in Apply(s, m).list <==> ListedAs(ms + [m], o) == Some(a)
    ensures ListedAs(ms + [m], o).Some? ==> ListedAs(ms + [m], o).value.observer == o
  {
    hide PcOf, MadeBy, DiedIn, First, Listed, Without, Apply;
    LastMove(ms, m);
    StepList(s, m, a);
    ToldAdapter(ms, s, o);
    if m.RollBack? || m.Unlist? {
      assert SamePlace(At(s, m.t), PcOf(ms, m.t));
    }
  }

  lemma StepListTold(ms: seq<Move>, s: State, m: Move)
    requires ListTold(ms, s) && Enabled(s, m)
    ensures ListTold(ms + [m], Apply(s, m))
  {
    hide PcOf, DiedIn, ListedAs, First, Listed, Without, Apply, SamePlace, Enabled;
    var s' := Apply(s, m);
    StepList(s, m, Adapter(0, 0));
    StepMade(ms, s, m);
    forall t: nat ensures SamePlace(At(s', t), PcOf(ms + [m], t)) {
      StepPlace(ms, s, m, t);
    }
    forall a ensures a in s'.list <==> ListedAs(ms + [m], a.observer) == Some(a) {
      StepListedAs(ms, s, m, a.observer, a);
    }
    forall o: nat ensures Listed(s'.list, o) <==> ListedAs(ms + [m], o).Some? {
      ListedIff(s'.list, o);
      StepListedAs(ms, s, m, o, Adapter(0, o));
    }
  }

  lemma StepMade(ms: seq<Move>, s: State, m: Move)
    requires ListTold(ms, s) && Enabled(s, m)
    ensures Apply(s, m).made == MadeBy(ms + [m])
    ensures forall o: nat :: o in Apply(s, m).dead <==> DiedIn(ms + [m], o)
  {
    hide PcOf, ListedAs, DiedIn, First, Listed, Without, LiveBase;
    LastMove(ms, m);
    forall o: nat ensures DiedIn(ms + [m], o) <==> DiedIn(ms, o) || m == Expire(o) {
      DiedSnoc(ms, m, o);
    }
  }

  /** After every run the list holds exactly the adapters that history tells, each thread is
      where its own moves put it, and the dead observers are those that expired. */
  lemma {:induction false} ListIsHistory(ms: seq<Move>)
    requires Legal(INIT, ms)
    ensures ListTold(ms, Final(INIT, ms))
    decreases |ms|
  {
    hide ListTold, Legal, Final, Apply, Enabled;
    if ms == [] {
      NothingTold();
    } else {
      var before, m := ms[..|ms| - 1], ms[|ms| - 1];
      assert ms == before + [m];
      LegalSnoc(INIT, before, m);
      ListIsHistory(before);
      StepListTold(before, Final(INIT, before), m);
      Extend(INIT, before, m);
    }
  }

  lemma NothingTold()
    ensures Legal(INIT, []) && ListTold([], Final(INIT, []))
  {
  }

  lemma {:induction false} LegalSnoc(s: State, ms: seq<Move>, m: Move)
    requires Legal(s, ms + [m])
    ensures Legal(s, ms) && Enabled(Final(s, ms), m)
    decreases |ms|
  {
    hide Apply, Enabled;
    if ms == [] {
      assert ms + [m] == [m];
    } else {
      assert (ms + [m])[1..] == ms[1..] + [m];
      LegalSnoc(Apply(s, ms[0]), ms[1..], m);
    }
  }

  /** The base host accepted the adapter, and accepted no deregistration of it since. */
  predicate RegisteredIn(ms: seq<Move>, a: Adapter) {
    if ms == [] then false
    else
      var before, m := ms[..|ms| - 1], ms[|ms| - 1];
      match m
      case Register(t, true) => PcOf(before, t) == Wrapped(a) || RegisteredIn(before, a)
      case Deregister(t, true) => PcOf(before, t) != Found(a) && RegisteredIn(before, a)
      case _ => RegisteredIn(before, a)
  }

  /** Of the adapters that still lock, the base host has those. */
  ghost predicate BaseTold(ms: seq<Move>, s: State) {
    && Numbered(s)
    && (forall a :: a in s.base ==> a.id < s.made)
    && (forall a :: RegisteredIn(ms, a) ==> a.id < s.made)
    && (forall a :: Locks(s, a) ==> (a in s.base <==> RegisteredIn(ms, a)))
  }

  lemma LocksComeFrom(s: State, m: Move, a: Adapter)
    requires OnePerObserver(s.list) && Enabled(s, m) && Locks(Apply(s, m), a)
    ensures Locks(s, a) || (m.Wrap? && !Listed(s.list, m.observer) && a == Adapter(s.made, m.observer))
  {
    hide Without, First, Apply, Enabled;
    var s' := Apply(s, m);
    if a in s'.list {
      ListComesFrom(s, m, a);
    } else {
      var t: nat :| Holds(At(s', t), a);
      HeldComesFrom(s, m, a, t);
    }
  }

  lemma HeldComesFrom(s: State, m: Move, a: Adapter, t: nat)
    requires Enabled(s, m) && Holds(At(Apply(s, m), t), a)
    ensures Locks(s, a) || (m.Wrap? && !Listed(s.list, m.observer) && a == Adapter(s.made, m.observer))
  {
    hide Without, Listed;
    if Holds(At(s, t), a) {
      assert Locks(s, a);
    } else if m.Find? {
      assert First(s.list, m.observer) in s.list;
    }
  }

  lemma StepBase(s: State, m: Move, a: Adapter)
    requires Enabled(s, m)
    ensures m.Register? && m.accepted ==> (a in Apply(s, m).base <==> a in s.base || At(s, m.t) == Wrapped(a))
    ensures m.Deregister? && m.accepted ==> (a in Apply(s, m).base <==> a in s.base && At(s, m.t) != Found(a))
    ensures m.Notify? ==> (a in Apply(s, m).base <==> a in s.base && Locks(s, a))
    ensures !(m.Register? && m.accepted) && !(m.Deregister? && m.accepted) && !m.Notify? ==>
              Apply(s, m).base == s.base
    ensures Apply(s, m).made >= s.made
  {
    hide Without, First, Listed, Locks;
  }

  lemma StepIds(s: State, m: Move, t: nat)
    requires Enabled(s, m) && Numbered(s)
    ensures var pc := At(Apply(s, m), t); pc != Idle && !pc.Notifying? ==> pc.adapter.id < Apply(s, m).made
  {
    hide Without, Listed, LiveBase;
    assert At(s, t) != Idle && !At(s, t).Notifying? ==> At(s, t).adapter.id < s.made;
    if m.Find? && Listed(s.list, m.observer) {
      assert First(s.list, m.observer) in s.list;
    }
    if m.Register? || m.RollBack? || m.Deregister? || m.Unlist? {
      assert At(s, m.t).adapter.id < s.made;
    }
  }

  lemma StepBaseTold(ms: seq<Move>, s: State, m: Move)
    requires ListTold(ms, s) && BaseTold(ms, s) && Enabled(s, m)
    ensures BaseTold(ms + [m], Apply(s, m))
  {
    hide PcOf, ListedAs, MadeBy, DiedIn, First, Listed, Without, Apply, Enabled, Locks;
    LastMove(ms, m);
    var s' := Apply(s, m);
    forall t: nat | At(s', t) != Idle && !At(s', t).Notifying? ensures At(s', t).adapter.id < s'.made {
      StepIds(s, m, t);
    }
    if m.Register? || m.Deregister? {
      assert SamePlace(At(s, m.t), PcOf(ms, m.t));
      assert At(s, m.t) == PcOf(ms, m.t) by { CallPlace(s, m); }
    }
    forall a
      ensures a in s'.base ==> a.id < s'.made
      ensures a in s'.list ==> a.id < s'.made
      ensures RegisteredIn(ms + [m], a) ==> a.id < s'.made
      ensures Locks(s', a) ==> (a in s'.base <==> RegisteredIn(ms + [m], a))
    {
      StepBase(s, m, a);
      CallPlace(s, m);
      if a in s'.list {
        ListComesFrom(s, m, a);
        NewId(s, m);
      }
      if Locks(s', a) {
        LocksComeFrom(s, m, a);
      }
    }
  }

  lemma CallPlace(s: State, m: Move)
    requires Enabled(s, m)
    ensures m.Register? ==> At(s, m.t).Wrapped?
    ensures m.Deregister? ==> At(s, m.t).Found?
  {
  }

  lemma NewId(s: State, m: Move)
    requires Enabled(s, m)
    ensures m.Wrap? && !Listed(s.list, m.observer) ==> s.made < Apply(s, m).made
  {
    hide Listed;
  }

  /** Over every run, the base host can reach exactly those listed or held adapters that it
      accepted and did not accept a deregistration of since. */
  lemma {:induction false} BaseIsHistory(ms: seq<Move>)
    requires Legal(INIT, ms)
    ensures BaseTold(ms, Final(INIT, ms))
    decreases |ms|
  {
    hide ListTold, BaseTold, Legal, Final, Apply, Enabled;
    if ms == [] {
      NothingRegistered();
    } else {
      var before, m := ms[..|ms| - 1], ms[|ms| - 1];
      assert ms == before + [m];
      LegalSnoc(INIT, before, m);
      ListIsHistory(before);
      BaseIsHistory(before);
      StepBaseTold(before, Final(INIT, before), m);
      Extend(INIT, before, m);
    }
  }

  lemma NothingRegistered()
    ensures Legal(INIT, []) && BaseTold([], Final(INIT, []))
  {
  }

  /** The adapters that a notification calls during a run, in order. */
  function CalledBy(ms: seq<Move>, t: nat): seq<Adapter> {
    if ms == [] then []
    else (if ms[0].Call? && ms[0].t == t then [ms[0].adapter] else []) + CalledBy(ms[1..], t)
  }

  predicate NoFinish(t: nat, ms: seq<Move>) {
    forall i :: 0 <= i < |ms| ==> ms[i] != Finish(t)
  }

  lemma StepCalls(s: State, m: Move, t: nat)
    requires At(s, t).Notifying? && Enabled(s, m) && m != Finish(t)
    ensures At(Apply(s, m), t).Notifying?
    ensures if m.Call? && m.t == t
            then m.adapter in At(s, t).todo && At(Apply(s, m), t).todo == At(s, t).todo - {m.adapter}
            else At(Apply(s, m), t) == At(s, t)
  {
    hide Without, First, LiveBase;
  }

  lemma TakeOut(todo: set<Adapter>, a: Adapter)
    requires a in todo
    ensures multiset(todo) == multiset{a} + multiset(todo - {a})
  {
    assert todo == (todo - {a}) + {a};
  }

  lemma CallsFirst(a: Adapter, rest: seq<Adapter>, left: multiset<Adapter>)
    ensures multiset([a] + rest) + left == multiset{a} + (multiset(rest) + left)
  {
    assert multiset([a] + rest) == multiset{a} + multiset(rest);
  }

  /** Until it finishes, a notification calls every adapter it collected at most once, and those
      not called yet remain; so when nothing remains it has called each exactly once. */
  lemma {:induction false} NotifiesEachOnce(s: State, ms: seq<Move>, t: nat)
    requires At(s, t).Notifying? && Legal(s, ms) && NoFinish(t, ms)
    ensures At(Final(s, ms), t).Notifying?
    ensures multiset(At(s, t).todo) == multiset(CalledBy(ms, t)) + multiset(At(Final(s, ms), t).todo)
    decreases |ms|
  {
    hide Apply, Enabled;
    if ms == [] {
    } else {
      assert ms[0] != Finish(t);
      StepCalls(s, ms[0], t);
      assert NoFinish(t, ms[1..]);
      NotifiesEachOnce(Apply(s, ms[0]), ms[1..], t);
      if ms[0].Call? && ms[0].t == t {
        TakeOut(At(s, t).todo, ms[0].adapter);
        CallsFirst(ms[0].adapter, CalledBy(ms[1..], t), multiset(At(Final(s, ms), t).todo));
      } else {
        assert CalledBy(ms, t) == CalledBy(ms[1..], t);
      }
    }
  }

  lemma {:induction false} FirstAt(xs: seq<Adapter>, i: nat, o: nat)
    requires i < |xs| && xs[i].observer == o
    requires forall j :: 0 <= j < i ==> xs[j].observer != o
    ensures Listed(xs, o) && First(xs, o) == xs[i]
  {
    if i == 0 {
    } else {
      FirstAt(xs[1..], i - 1, o);
    }
  }

  class ObserverAdapterList {
    var list: seq<Adapter>

    constructor ()
      ensures list == []
    {
      list := [];
    }

    method Insert(a: Adapter) returns (inserted: bool)
      modifies this
      ensures inserted <==> !Listed(old(list), a.observer)
      ensures list == if inserted then old(list) + [a] else old(list)
    {
      for i := 0 to |list|
        invariant list == old(list) && forall j :: 0 <= j < i ==> list[j].observer != a.observer
      {
        if list[i].observer == a.observer {
          return false;
        }
      }
      list := list + [a];
      return true;
    }

    /** The adapter to deregister, if the observer is listed. */
    method Find(o: nat) returns (found: bool, a: Adapter)
      ensures found <==> Listed(list, o)
      ensures found ==> a == First(list, o)
    {
      a := Adapter(0, 0);
      for i := 0 to |list|
        invariant forall j :: 0 <= j < i ==> list[j].observer != o
      {
        if list[i].observer == o {
          FirstAt(list, i, o);
          return true, list[i];
        }
      }
      return false, a;
    }

    method Erase(o: nat)
      modifies this
      ensures list == Without(old(list), o)
    {
      ghost var start := list;
      assert list[0..] == list;
      var i := 0;
      while i < |list|
        invariant 0 <= i <= |list| && list == start
        invariant list[..i] + Without(list[i..], o) == Without(start, o)
      {
        assert list[i..][1..] == list[i + 1..];
        if list[i].observer == o {
          list := list[..i] + list[i + 1..];
          return;
        }
        assert list[..i] + [list[i]] == list[..i + 1];
        i := i + 1;
      }
      assert list[..i] == list;
    }
  }

  datatype Code = NoError | NotSupported | InvalidParam | FromBase

  /** The register and deregister pair of `NearlinkHost` with no other call in between;
      `accepted` is the base host's answer, and `base` what it then holds. */
  class NearlinkHost {
    const adapters: ObserverAdapterList
    var made: nat
    ghost var base: set<Adapter>

    /** Between calls an adapter is listed exactly when a live one is registered. */
    ghost predicate Valid()
      reads this, adapters
    {
      OnePerObserver(adapters.list) && forall a :: a in adapters.list ==> a in base
    }

    constructor ()
      ensures Valid() && fresh(adapters) && adapters.list == [] && base == {}
    {
      adapters := new ObserverAdapterList();
      made, base := 0, {};
    }

    /** Wraps, registers, and takes the adapter out again when the base host refuses: the
        observer is registered afterwards exactly if it was before or the base host accepted,
        and nobody else is affected. */
    method RegisterObserver(o: nat, accepted: bool) returns (r: Code)
      requires Valid()
      modifies this, adapters
      ensures Valid()
      ensures r == InvalidParam <==> Listed(old(adapters.list), o)
      ensures r == NoError <==> !Listed(old(adapters.list), o) && accepted
      ensures r == FromBase <==> !Listed(old(adapters.list), o) && !accepted
      ensures Listed(adapters.list, o) <==> Listed(old(adapters.list), o) || accepted
      ensures forall a: Adapter :: a.observer != o || r != NoError ==> (a in adapters.list <==> a in old(adapters.list))
      ensures old(base) <= base
    {
      hide Without;
      var adapter := Adapter(made, o);
      ghost var before := adapters.list;
      var inserted := adapters.Insert(adapter);
      if !inserted {
        return InvalidParam;
      }
      assert adapters.list[|before|] == adapter;
      made := made + 1;
      if !accepted {
        WithoutLast(before, adapter);
        adapters.Erase(o);
        return FromBase;
      }
      base := base + {adapter};
      return NoError;
    }

    /** An observer that is not listed is reported as deregistered. */
    method DeregisterObserver(o: nat, supported: bool, accepted: bool) returns (r: Code)
      requires Valid()
      modifies this, adapters
      ensures Valid()
      ensures r == NotSupported <==> !supported
      ensures r == NoError <==> supported && (!Listed(old(adapters.list), o) || accepted)
      ensures r == FromBase <==> supported && Listed(old(adapters.list), o) && !accepted
      ensures Listed(adapters.list, o) <==> Listed(old(adapters.list), o) && !(supported && accepted)
      ensures forall a: Adapter :: a.observer != o || r != NoError ==> (a in adapters.list <==> a in old(adapters.list))
      ensures forall a :: a in old(base) && a !in base ==> a in old(adapters.list) && a.observer == o
    {
      hide Without;
      if !supported {
        return NotSupported;
      }
      var found, adapter := adapters.Find(o);
      if !found {
        return NoError;
      }
      if !accepted {
        return FromBase;
      }
      base := base - {adapter};
      WithoutKeeps(adapters.list, o);
      adapters.Erase(o);
      return NoError;
    }
  }
}
