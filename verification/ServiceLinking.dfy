/** The two-pass `BuildServiceList` of the SSAP client
    (frameworks/native/nearlink_ssap_client.cpp): services go into the cache under
    their handle, then includes are linked to cached services. */
module ServiceLinking {
  import opened Common
  import opened Uuid
  import opened ServiceParcel

  type Handle = U16

  /** An entry of an included-service list: a stub built from the parcel, or the cached
      service a handle resolved to. */
  datatype Include =
    | Stub(uuid: Uuid, handle: Handle, endHandle: Handle, primary: bool)
    | Cached(handle: Handle)

  /** The object `BuildService` creates. */
  datatype Node = Node(uuid: Uuid, handle: Handle, endHandle: Handle, primary: bool,
                       members: Members, includes: seq<Include>)

  type Cache = map<Handle, Node>

  function Stubs(incl: seq<Service>): (r: seq<Include>)
    ensures |r| == |incl|
  {
    seq(|incl|, i requires 0 <= i < |incl| => Stub(incl[i].uuid, incl[i].handle, incl[i].endHandle, incl[i].isPrimary))
  }

  function CopiedDescriptors(ds: seq<Descriptor>): seq<Descriptor> {
    seq(|ds|, i requires 0 <= i < |ds| => Descriptor(ds[i].handle, ds[i].kind, [], 0, ds[i].permission))
  }

  /** Handles, uuids, operation bits and permissions are copied; values are not. */
  function Copied(m: Members): Members {
    Members(
      seq(|m.properties|, i requires 0 <= i < |m.properties| =>
        m.properties[i].(value := [], descriptors := CopiedDescriptors(m.properties[i].descriptors))),
      seq(|m.methods|, i requires 0 <= i < |m.methods| => m.methods[i].(parameter := [], result := [])),
      seq(|m.events|, i requires 0 <= i < |m.events| => m.events[i].(parameter := [])),
      CopiedDescriptors(m.descriptors))
  }

  function BuildService(s: Service): Node {
    Node(s.uuid, s.handle, s.endHandle, s.isPrimary, Copied(MembersOf(s)), Stubs(s.includes))
  }

  /** The includes whose start handle is one of `handles`, in order. */
  function Resolved(incl: seq<Service>, handles: set<Handle>): seq<Include> {
    if incl == [] then []
    else (if incl[0].startHandle in handles then [Cached(incl[0].startHandle)] else [])
         + Resolved(incl[1..], handles)
  }

  function Handles(src: seq<Service>): set<Handle> {
    set i | 0 <= i < |src| :: src[i].handle
  }

  predicate Distinct(src: seq<Service>) {
    forall i, j :: 0 <= i < j < |src| ==> src[i].handle != src[j].handle
  }

  /** One service as it ends up in the cache. */
  function Linked(s: Service, handles: set<Handle>): Node {
    Append(BuildService(s), Resolved(s.includes, handles))
  }

  predicate SameDescriptors(built: seq<Descriptor>, ds: seq<Descriptor>) {
    |built| == |ds| && forall i :: 0 <= i < |ds| ==>
      && built[i].handle == ds[i].handle && built[i].kind == ds[i].kind && built[i].permission == ds[i].permission
      && built[i].value == []
  }

  /** What a cached object takes over from a service of the list, field by field: everything
      but the values. */
  predicate BuiltFrom(node: Node, s: Service) {
    && node.handle == s.handle && node.endHandle == s.endHandle && node.uuid == s.uuid && node.primary == s.isPrimary
    && |node.members.properties| == |s.properties| && |node.members.methods| == |s.methods|
    && |node.members.events| == |s.events|
    && (forall i :: 0 <= i < |s.properties| ==>
          var p, q := node.members.properties[i], s.properties[i];
          && p.handle == q.handle && p.uuid == q.uuid && p.opInd == q.opInd && p.permission == q.permission
          && p.value == [] && SameDescriptors(p.descriptors, q.descriptors))
    && (forall i :: 0 <= i < |s.methods| ==>
          var m, q := node.members.methods[i], s.methods[i];
          m.handle == q.handle && m.uuid == q.uuid && m.permission == q.permission && m.parameter == [] == m.result)
    && (forall i :: 0 <= i < |s.events| ==>
          var e, q := node.members.events[i], s.events[i];
          e.handle == q.handle && e.uuid == q.uuid && e.parameter == [])
    && SameDescriptors(node.members.descriptors, s.descriptors)
  }

  /** How many of the first `n` includes start at one of these handles. */
  function Resolvable(incl: seq<Service>, handles: set<Handle>, n: nat): nat
    requires n <= |incl|
  {
    if n == 0 then 0
    else Resolvable(incl, handles, n - 1) + if incl[n - 1].startHandle in handles then 1 else 0
  }

  /** The include list: a stub for every include of the service, then, in the same order, the
      cached service for exactly those includes whose start handle is one of `handles`. */
  ghost predicate IncludesOf(includes: seq<Include>, incl: seq<Service>, handles: set<Handle>) {
    && |includes| == |incl| + Resolvable(incl, handles, |incl|)
    && (forall j :: 0 <= j < |incl| ==>
          includes[j] == Stub(incl[j].uuid, incl[j].handle, incl[j].endHandle, incl[j].isPrimary))
    && (forall j :: 0 <= j < |incl| && incl[j].startHandle in handles ==>
          && |incl| + Resolvable(incl, handles, j) < |includes|
          && includes[|incl| + Resolvable(incl, handles, j)] == Cached(incl[j].startHandle))
  }

  /** The cache holds exactly the given services, each with its own fields and linked against
      all of them. */
  ghost predicate LinkedCache(cache: Cache, src: seq<Service>) {
    var handles := set i | 0 <= i < |src| :: src[i].handle;
    && cache.Keys == handles
    && forall i :: 0 <= i < |src| ==>
         && BuiltFrom(cache[src[i].handle], src[i])
         && IncludesOf(cache[src[i].handle].includes, src[i].includes, handles)
  }

  /** First pass: later services replace earlier ones with the same handle. */
  function Inserted(cache: Cache, src: seq<Service>): Cache
    decreases |src|
  {
    if src == [] then cache else Inserted(cache[src[0].handle := BuildService(src[0])], src[1..])
  }

  function Append(node: Node, more: seq<Include>): Node {
    node.(includes := node.includes + more)
  }

  /** Second pass: each service's resolvable includes are appended to its cached entry. */
  function WithLinks(cache: Cache, src: seq<Service>): Cache
    decreases |src|
  {
    if src == [] then cache
    else if src[0].handle !in cache then WithLinks(cache, src[1..])
    else
      var node := cache[src[0].handle];
      var more := Resolved(src[0].includes, cache.Keys);
      WithLinks(cache[src[0].handle := Append(node, more)], src[1..])
  }

  function BuildList(cache: Cache, src: seq<Service>): Cache {
    WithLinks(Inserted(cache, src), src)
  }

  // ----------------------------------------------------------------- properties

  lemma {:induction false} InsertedKeys(cache: Cache, src: seq<Service>)
    ensures Inserted(cache, src).Keys == cache.Keys + Handles(src)
    ensures forall h :: h in cache && h !in Handles(src) ==> Inserted(cache, src)[h] == cache[h]
    decreases |src|
  {
    if src == [] {
    } else {
      InsertedKeys(cache[src[0].handle := BuildService(src[0])], src[1..]);
      HandlesCons(src);
    }
  }

  lemma HandlesCons(src: seq<Service>)
    requires src != []
    ensures Handles(src) == {src[0].handle} + Handles(src[1..])
  {
    forall h | h in Handles(src) ensures h in {src[0].handle} + Handles(src[1..]) {
      var i :| 0 <= i < |src| && src[i].handle == h;
      if i > 0 {
        assert src[1..][i - 1].handle == h;
      }
    }
    forall h | h in Handles(src[1..]) ensures h in Handles(src) {
      var i :| 0 <= i < |src[1..]| && src[1..][i].handle == h;
      assert src[i + 1].handle == h;
    }
    assert src[0].handle in Handles(src);
  }

  /** The services of one handle, in order of arrival. */
  function Of(src: seq<Service>, h: Handle): seq<Service> {
    if src == [] then []
    else (if src[0].handle == h then [src[0]] else []) + Of(src[1..], h)
  }

  /** The resolvable includes of several services, one after the other. */
  function AllResolved(group: seq<Service>, handles: set<Handle>): seq<Include> {
    if group == [] then [] else Resolved(group[0].includes, handles) + AllResolved(group[1..], handles)
  }

  /** The entry that the services of one handle leave in the cache: the last of them, with
      the resolved includes of all of them. */
  function Entry(group: seq<Service>, handles: set<Handle>): Node
    requires group != []
  {
    Append(BuildService(group[|group| - 1]), AllResolved(group, handles))
  }

  lemma {:induction false} OfHandle(src: seq<Service>, h: Handle)
    ensures Of(src, h) != [] <==> h in Handles(src)
  {
    if src == [] {
    } else {
      OfHandle(src[1..], h);
      HandlesCons(src);
    }
  }

  lemma {:induction false} InsertedAt(cache: Cache, src: seq<Service>, h: Handle)
    requires h in Handles(src)
    ensures h in Inserted(cache, src) && Of(src, h) != []
    ensures Inserted(cache, src)[h] == BuildService(Of(src, h)[|Of(src, h)| - 1])
    decreases |src|
  {
    hide BuildService;
    HandlesCons(src);
    OfHandle(src, h);
    OfHandle(src[1..], h);
    var next := cache[src[0].handle := BuildService(src[0])];
    InsertedKeys(next, src[1..]);
    if h in Handles(src[1..]) {
      InsertedAt(next, src[1..], h);
    } else {
      assert Of(src, h) == [src[0]];
    }
  }

  lemma {:induction false} LinksKeep(cache: Cache, src: seq<Service>)
    ensures WithLinks(cache, src).Keys == cache.Keys
    ensures forall h :: h in cache && h !in Handles(src) ==> WithLinks(cache, src)[h] == cache[h]
    decreases |src|
  {
    if src == [] {
    } else {
      HandlesCons(src);
      var h := src[0].handle;
      if h in cache {
        var node := cache[h];
        var next := cache[h := Append(node, Resolved(src[0].includes, cache.Keys))];
        LinksKeep(next, src[1..]);
        assert next.Keys == cache.Keys;
      } else {
        LinksKeep(cache, src[1..]);
      }
    }
  }

  lemma {:induction false} LinksAt(cache: Cache, src: seq<Service>, h: Handle)
    requires h in cache
    ensures h in WithLinks(cache, src)
    ensures WithLinks(cache, src)[h] == Append(cache[h], AllResolved(Of(src, h), cache.Keys))
    decreases |src|
  {
    hide Resolved;
    if src == [] {
      assert cache[h].includes + [] == cache[h].includes;
    } else {
      var g := src[0].handle;
      if g != h {
        assert Of(src, h) == Of(src[1..], h);
      } else {
        assert Of(src, h) == [src[0]] + Of(src[1..], h);
      }
      if g in cache {
        var next := cache[g := Append(cache[g], Resolved(src[0].includes, cache.Keys))];
        assert next.Keys == cache.Keys;
        LinksAt(next, src[1..], h);
        AppendTwice(cache[h], Resolved(src[0].includes, cache.Keys), AllResolved(Of(src[1..], h), cache.Keys));
      } else {
        LinksAt(cache, src[1..], h);
      }
    }
  }

  lemma AppendTwice(node: Node, a: seq<Include>, b: seq<Include>)
    ensures Append(Append(node, a), b) == Append(node, a + b)
  {
    assert (node.includes + a) + b == node.includes + (a + b);
  }

  /** What `BuildServiceList` leaves in the cache, for any cache and any list: entries of
      other handles stay, and the entry of a listed handle is the last service with that
      handle followed by the resolved includes of all services with it, in order. */
  lemma BuildListAt(cache: Cache, src: seq<Service>, h: Handle)
    ensures var all := cache.Keys + Handles(src);
            && BuildList(cache, src).Keys == all
            && (h in Handles(src) ==> Of(src, h) != [] && BuildList(cache, src)[h] == Entry(Of(src, h), all))
            && (h in Handles(src) ==> EntryOf(BuildList(cache, src)[h], Of(src, h), all))
            && (h in cache && h !in Handles(src) ==> BuildList(cache, src)[h] == cache[h])
  {
    hide WithLinks, Inserted, Append, BuildService, Handles, AllResolved, Of, EntryOf;
    var first := Inserted(cache, src);
    InsertedKeys(cache, src);
    LinksKeep(first, src);
    if h in Handles(src) {
      InsertedAt(cache, src, h);
      LinksAt(first, src, h);
      EntryFields(Of(src, h), cache.Keys + Handles(src));
    }
  }

  /** The entry spelled out: the fields of the last service, a stub for each of its includes,
      and then the links of every service of the group, in order. */
  ghost predicate EntryOf(node: Node, group: seq<Service>, handles: set<Handle>)
    requires group != []
  {
    var last := group[|group| - 1];
    var n := |last.includes|;
    && BuiltFrom(node, last)
    && |node.includes| == n + AllResolvable(group, handles, |group|)
    && (forall j :: 0 <= j < n ==>
          node.includes[j] == Stub(last.includes[j].uuid, last.includes[j].handle, last.includes[j].endHandle,
                                   last.includes[j].isPrimary))
    && (forall g, j ::
          0 <= g < |group| && 0 <= j < |group[g].includes| && group[g].includes[j].startHandle in handles ==>
          var at := n + AllResolvable(group, handles, g) + Resolvable(group[g].includes, handles, j);
          at < |node.includes| && node.includes[at] == Cached(group[g].includes[j].startHandle))
  }

  /** How many includes of the first `n` services resolve. */
  function AllResolvable(group: seq<Service>, handles: set<Handle>, n: nat): nat
    requires n <= |group|
  {
    if n == 0 then 0
    else
      AllResolvable(group, handles, n - 1)
      + Resolvable(group[n - 1].includes, handles, |group[n - 1].includes|)
  }

  lemma {:induction false} AllResolvedSnoc(group: seq<Service>, s: Service, handles: set<Handle>)
    ensures AllResolved(group + [s], handles) == AllResolved(group, handles) + Resolved(s.includes, handles)
  {
    hide Resolved;
    if group == [] {
      assert [s][1..] == [] && group + [s] == [s];
    } else {
      AllResolvedSnoc(group[1..], s, handles);
      assert (group + [s])[1..] == group[1..] + [s];
    }
  }

  lemma {:induction false} AllResolvedCount(group: seq<Service>, handles: set<Handle>, n: nat)
    requires n <= |group|
    ensures |AllResolved(group[..n], handles)| == AllResolvable(group, handles, n)
    ensures forall g, j ::
              0 <= g < n && 0 <= j < |group[g].includes| && group[g].includes[j].startHandle in handles ==>
                var at := AllResolvable(group, handles, g) + Resolvable(group[g].includes, handles, j);
                && at < |AllResolved(group[..n], handles)|
                && AllResolved(group[..n], handles)[at] == Cached(group[g].includes[j].startHandle)
  {
    hide Resolved, Resolvable;
    if n == 0 {
    } else {
      AllResolvedCount(group, handles, n - 1);
      assert group[..n] == group[..n - 1] + [group[n - 1]];
      AllResolvedSnoc(group[..n - 1], group[n - 1], handles);
      var incl := group[n - 1].includes;
      ResolvedCount(incl, handles, |incl|);
      assert incl[..|incl|] == incl;
    }
  }

  lemma EntryFields(group: seq<Service>, handles: set<Handle>)
    requires group != []
    ensures EntryOf(Entry(group, handles), group, handles)
  {
    hide AllResolved, AllResolvable, Resolvable, BuiltFrom;
    AllResolvedCount(group, handles, |group|);
    assert group[..|group|] == group;
    LinkedFields(group[|group| - 1], {});
    var last := group[|group| - 1];
    assert BuiltFrom(Entry(group, handles), last) by { SameFields(Linked(last, {}), Entry(group, handles), last); }
  }

  lemma SameFields(a: Node, b: Node, s: Service)
    requires BuiltFrom(a, s) && b == a.(includes := b.includes)
    ensures BuiltFrom(b, s)
  {
  }

  lemma {:induction false} OfDistinct(src: seq<Service>, i: nat)
    requires Distinct(src) && i < |src|
    ensures Of(src, src[i].handle) == [src[i]]
  {
    var h := src[i].handle;
    OfHandle(src[1..], h);
    if i == 0 {
    } else {
      OfDistinct(src[1..], i - 1);
    }
  }

  lemma ResolvedOne(s: Service, handles: set<Handle>)
    ensures AllResolved([s], handles) == Resolved(s.includes, handles)
  {
    hide Resolved;
    assert [s][1..] == [];
    assert AllResolved([s], handles) == Resolved(s.includes, handles) + AllResolved([], handles);
  }

  lemma BuildListEquals(src: seq<Service>)
    requires Distinct(src)
    ensures BuildList(map[], src).Keys == Handles(src)
    ensures forall i :: 0 <= i < |src| ==> BuildList(map[], src)[src[i].handle] == Linked(src[i], Handles(src))
  {
    hide BuildList, Append, BuildService, Resolved;
    BuildListAt(map[], src, 0);
    forall i | 0 <= i < |src|
      ensures BuildList(map[], src)[src[i].handle] == Linked(src[i], Handles(src))
    {
      BuildListAt(map[], src, src[i].handle);
      OfDistinct(src, i);
      ResolvedOne(src[i], Handles(src));
      var none: Cache := map[];
      assert none.Keys + Handles(src) == Handles(src);
    }
  }

  lemma {:induction false} ResolvedCount(incl: seq<Service>, handles: set<Handle>, n: nat)
    requires n <= |incl|
    ensures |Resolved(incl[..n], handles)| == Resolvable(incl, handles, n)
    ensures forall j :: 0 <= j < n && incl[j].startHandle in handles ==>
              && Resolvable(incl, handles, j) < |Resolved(incl[..n], handles)|
              && Resolved(incl[..n], handles)[Resolvable(incl, handles, j)] == Cached(incl[j].startHandle)
  {
    if n == 0 {
    } else {
      ResolvedCount(incl, handles, n - 1);
      assert incl[..n] == incl[..n - 1] + [incl[n - 1]];
      ResolvedSnoc(incl[..n - 1], incl[n - 1], handles);
    }
  }

  lemma {:induction false} ResolvedSnoc(incl: seq<Service>, s: Service, handles: set<Handle>)
    ensures Resolved(incl + [s], handles) ==
            Resolved(incl, handles) + if s.startHandle in handles then [Cached(s.startHandle)] else []
  {
    if incl == [] {
      assert [s][1..] == [] && incl + [s] == [s];
    } else {
      ResolvedSnoc(incl[1..], s, handles);
      assert (incl + [s])[1..] == incl[1..] + [s];
    }
  }

  lemma LinkedIncludes(s: Service, handles: set<Handle>)
    ensures IncludesOf(Linked(s, handles).includes, s.includes, handles)
  {
    hide Resolved, Resolvable, Copied, MembersOf, IncludesOf;
    ResolvedCount(s.includes, handles, |s.includes|);
    assert s.includes[..|s.includes|] == s.includes;
    StubsThenLinks(s.includes, Resolved(s.includes, handles), handles);
  }

  lemma StubsThenLinks(incl: seq<Service>, links: seq<Include>, handles: set<Handle>)
    requires |links| == Resolvable(incl, handles, |incl|)
    requires forall j :: 0 <= j < |incl| && incl[j].startHandle in handles ==>
               && Resolvable(incl, handles, j) < |links|
               && links[Resolvable(incl, handles, j)] == Cached(incl[j].startHandle)
    ensures IncludesOf(Stubs(incl) + links, incl, handles)
  {
    hide Resolvable;
  }

  lemma LinkedFields(s: Service, handles: set<Handle>)
    ensures BuiltFrom(Linked(s, handles), s)
  {
    hide Resolved;
  }

  /** From an empty cache and distinct handles, the cache holds each service once: its fields
      are those of the service, and its include list has a stub for every include, followed by
      the cached services for exactly the includes whose start handle resolves. */
  lemma BuildListLinks(src: seq<Service>)
    requires Distinct(src)
    ensures LinkedCache(BuildList(map[], src), src)
  {
    hide BuildList, Linked, BuiltFrom, IncludesOf;
    BuildListEquals(src);
    forall i | 0 <= i < |src|
      ensures BuiltFrom(BuildList(map[], src)[src[i].handle], src[i])
      ensures IncludesOf(BuildList(map[], src)[src[i].handle].includes, src[i].includes, Handles(src))
    {
      LinkedFields(src[i], Handles(src));
      LinkedIncludes(src[i], Handles(src));
    }
  }

  /** The order in which the service list arrives does not matter. */
  lemma OrderIndependent(src: seq<Service>, other: seq<Service>)
    requires Distinct(src) && multiset(src) == multiset(other)
    ensures BuildList(map[], src) == BuildList(map[], other)
  {
    hide BuildList, Linked;
    SameMembers(src, other);
    DistinctPermutes(src, other);
    BuildListEquals(src);
    BuildListEquals(other);
    var a, b := BuildList(map[], src), BuildList(map[], other);
    forall h | h in a ensures h in b && a[h] == b[h] {
      var i :| 0 <= i < |src| && src[i].handle == h;
      assert src[i] in other;
      var j :| 0 <= j < |other| && other[j] == src[i];
      assert b[other[j].handle] == Linked(other[j], Handles(other));
    }
  }

  lemma SameMembers(src: seq<Service>, other: seq<Service>)
    requires multiset(src) == multiset(other)
    ensures forall s :: s in src <==> s in other
    ensures Handles(src) == Handles(other)
  {
    forall s ensures s in src <==> s in other {
      assert s in src <==> s in multiset(src);
      assert s in other <==> s in multiset(other);
    }
    forall h | h in Handles(src) ensures h in Handles(other) {
      var i :| 0 <= i < |src| && src[i].handle == h;
      assert src[i] in other;
    }
    forall h | h in Handles(other) ensures h in Handles(src) {
      var i :| 0 <= i < |other| && other[i].handle == h;
      assert other[i] in src;
    }
  }

  lemma DistinctPermutes(src: seq<Service>, other: seq<Service>)
    requires Distinct(src) && multiset(src) == multiset(other)
    ensures Distinct(other)
  {
    forall i, j | 0 <= i < j < |other| ensures other[i].handle != other[j].handle {
      var a, b := other[i], other[j];
      if a == b {
        Twice(other, i, j);
        OnceIfDistinct(src, a);
      }
      assert a in multiset(other) && b in multiset(other);
      assert a in src && b in src;
    }
  }

  lemma Twice(s: seq<Service>, i: nat, j: nat)
    requires i < j < |s| && s[i] == s[j]
    ensures multiset(s)[s[i]] >= 2
  {
    assert s == s[..j] + s[j..];
    assert s[i] in s[..j] && s[j] in s[j..];
    assert s[..j][i] == s[i] && s[j..][0] == s[j];
  }

  lemma {:induction false} OnceIfDistinct(s: seq<Service>, x: Service)
    requires Distinct(s)
    ensures multiset(s)[x] <= 1
  {
    if s == [] {
    } else {
      OnceIfDistinct(s[1..], x);
      assert s == [s[0]] + s[1..];
      if x == s[0] {
        assert x !in s[1..];
      }
    }
  }

  /** With repeated handles order can matter: two lists of the same handles give the same
      cache exactly when the services of each handle leave the same entry. */
  lemma DuplicateHandlesDependOnOrder(cache: Cache, src: seq<Service>, other: seq<Service>)
    requires Handles(src) == Handles(other)
    ensures var all := cache.Keys + Handles(src);
            && (forall h :: h in Handles(src) ==> Of(src, h) != [] && Of(other, h) != [])
            && (BuildList(cache, src) == BuildList(cache, other) <==>
                forall h :: h in Handles(src) ==> Entry(Of(src, h), all) == Entry(Of(other, h), all))
  {
    hide BuildList, Entry, Of, Handles;
    forall h ensures h in Handles(src) ==> Of(src, h) != [] && Of(other, h) != [] {
      OfHandle(src, h);
      OfHandle(other, h);
    }
    var all := cache.Keys + Handles(src);
    var a, b := BuildList(cache, src), BuildList(cache, other);
    BuildListAt(cache, src, 0);
    BuildListAt(cache, other, 0);
    if a == b {
      forall h | h in Handles(src) ensures Entry(Of(src, h), all) == Entry(Of(other, h), all) {
        BuildListAt(cache, src, h);
        BuildListAt(cache, other, h);
      }
    }
    if forall h :: h in Handles(src) ==> Entry(Of(src, h), all) == Entry(Of(other, h), all) {
      forall h | h in all ensures a[h] == b[h] {
        BuildListAt(cache, src, h);
        BuildListAt(cache, other, h);
      }
    }
  }

  /** Only the order among services of one handle matters. */
  lemma SameGroupsSameCache(cache: Cache, src: seq<Service>, other: seq<Service>)
    requires forall h: Handle :: Of(src, h) == Of(other, h)
    ensures BuildList(cache, src) == BuildList(cache, other)
  {
    hide BuildList, Entry, Of, Handles;
    forall h: Handle ensures h in Handles(src) <==> h in Handles(other) {
      OfHandle(src, h);
      OfHandle(other, h);
    }
    assert Handles(src) == Handles(other);
    DuplicateHandlesDependOnOrder(cache, src, other);
  }

  lemma {:induction false} NothingResolved(group: seq<Service>, handles: set<Handle>)
    requires forall s :: s in group ==> s.includes == []
    ensures AllResolved(group, handles) == []
  {
    if group == [] {
    } else {
      NothingResolved(group[1..], handles);
    }
  }

  lemma {:induction false} OfMembers(src: seq<Service>, h: Handle)
    ensures forall s :: s in Of(src, h) ==> s in src && s.handle == h
  {
    if src == [] {
    } else {
      OfMembers(src[1..], h);
    }
  }

  /** Services that came through the parcel carry no includes, so the second pass links
      nothing: every entry they leave in the cache has an empty include list. */
  lemma ParcelledServicesAreUnlinked(cache: Cache, src: seq<Service>,
                                     suffixes: seq<seq<Token>>, tokens: seq<seq<Token>>)
    requires |suffixes| == |src| && |tokens| == |src|
    requires forall i :: 0 <= i < |src| ==> DecService(tokens[i]) == Some((src[i], suffixes[i]))
    ensures forall h :: h in Handles(src) ==> h in BuildList(cache, src) && BuildList(cache, src)[h].includes == []
  {
    hide DecService, EncService, OkMembers, BuildList, Of, AllResolved;
    forall i | 0 <= i < |src| ensures src[i].includes == [] {
      ServiceExact(tokens[i], src[i], suffixes[i]);
    }
    forall h | h in Handles(src) ensures h in BuildList(cache, src) && BuildList(cache, src)[h].includes == [] {
      BuildListAt(cache, src, h);
      OfMembers(src, h);
      var group := Of(src, h);
      NothingResolved(group, cache.Keys + Handles(src));
      assert group[|group| - 1] in group;
    }
  }

  // ------------------------------------------------------------------- the code

  method ResolveIncludes(incl: seq<Service>, handles: set<Handle>) returns (more: seq<Include>)
    ensures more == Resolved(incl, handles)
  {
    hide Resolved;
    more := [];
    assert incl[0..] == incl;
    for j := 0 to |incl|
      invariant more + Resolved(incl[j..], handles) == Resolved(incl, handles)
    {
      ResolvedStep(incl, j, handles);
      if incl[j].startHandle in handles {
        more := more + [Cached(incl[j].startHandle)];
      }
    }
    assert incl[|incl|..] == [];
    ResolvedNone(handles);
  }

  class ServiceCache {
    var services: Cache

    constructor ()
      ensures services == map[]
    {
      services := map[];
    }

    method BuildServiceList(src: seq<Service>)
      modifies this
      ensures services == BuildList(old(services), src)
      ensures old(services) == map[] && Distinct(src) ==> LinkedCache(services, src)
    {
      hide Inserted, WithLinks, Resolved, Append, BuildService;
      ghost var goal := Inserted(services, src);
      assert src[0..] == src;
      for i := 0 to |src|
        invariant Inserted(services, src[i..]) == goal
      {
        InsertedStep(services, src, i);
        services := services[src[i].handle := BuildService(src[i])];
      }
      assert src[|src|..] == [];
      InsertedNone(services);
      ghost var linked := WithLinks(services, src);
      for i := 0 to |src|
        invariant WithLinks(services, src[i..]) == linked
      {
        LinksStep(services, src, i);
        var h := src[i].handle;
        if h in services {
          var more := ResolveIncludes(src[i].includes, services.Keys);
          services := services[h := Append(services[h], more)];
        }
      }
      LinksNone(services);
      if old(services) == map[] && Distinct(src) {
        BuildListLinks(src);
      }
    }
  }

  lemma InsertedStep(cache: Cache, src: seq<Service>, i: nat)
    requires i < |src|
    ensures Inserted(cache, src[i..]) == Inserted(cache[src[i].handle := BuildService(src[i])], src[i + 1..])
  {
    assert src[i..][1..] == src[i + 1..];
  }

  lemma InsertedNone(cache: Cache)
    ensures Inserted(cache, []) == cache
  {
  }

  lemma LinksStep(cache: Cache, src: seq<Service>, i: nat)
    requires i < |src|
    ensures WithLinks(cache, src[i..]) ==
            if src[i].handle !in cache then WithLinks(cache, src[i + 1..])
            else
              var node := cache[src[i].handle];
              var more := Resolved(src[i].includes, cache.Keys);
              WithLinks(cache[src[i].handle := Append(node, more)], src[i + 1..])
  {
    assert src[i..][1..] == src[i + 1..];
  }

  lemma LinksNone(cache: Cache)
    ensures WithLinks(cache, []) == cache
  {
  }

  lemma ResolvedStep(incl: seq<Service>, j: nat, handles: set<Handle>)
    requires j < |incl|
    ensures Resolved(incl[j..], handles) ==
            (if incl[j].startHandle in handles then [Cached(incl[j].startHandle)] else [])
            + Resolved(incl[j + 1..], handles)
  {
    assert incl[j..][1..] == incl[j + 1..];
  }

  lemma ResolvedNone(handles: set<Handle>)
    ensures Resolved([], handles) == []
  {
  }
}
