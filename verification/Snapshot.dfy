/** Byte-wise string order and sorting by a string key (Go's `sort` package). */
module Sorting {
  /** a < b in Go: lexicographic. */
  predicate Less(a: string, b: string) {
    if b == "" then false
    else if a == "" then true
    else if a[0] != b[0] then a[0] < b[0]
    else Less(a[1..], b[1..])
  }

  lemma {:induction false} LessIsTotal(a: string, b: string)
    ensures a != b ==> Less(a, b) || Less(b, a)
    ensures Less(a, b) ==> a != b && !Less(b, a)
    decreases |a|
  {
    if a != "" && b != "" {
      assert a == [a[0]] + a[1..] && b == [b[0]] + b[1..];
      LessIsTotal(a[1..], b[1..]);
    }
  }

  lemma {:induction false} LessIsTransitive(a: string, b: string, c: string)
    requires Less(a, b) && Less(b, c)
    ensures Less(a, c)
    decreases |a|
  {
    if a != "" && a[0] == b[0] == c[0] {
      LessIsTransitive(a[1..], b[1..], c[1..]);
    }
  }

  predicate StrictlySorted<T>(key: T -> string, s: seq<T>) {
    forall i, j {:trigger Less(key(s[i]), key(s[j]))} :: 0 <= i < j < |s| ==> Less(key(s[i]), key(s[j]))
  }

  predicate DistinctKeys<T>(key: T -> string, s: seq<T>) {
    forall i, j :: 0 <= i < j < |s| ==> key(s[i]) != key(s[j])
  }

  function Insert<T>(key: T -> string, x: T, s: seq<T>): seq<T> {
    if s == [] || Less(key(x), key(s[0])) then [x] + s else [s[0]] + Insert(key, x, s[1..])
  }

  function Sort<T>(key: T -> string, s: seq<T>): seq<T> {
    if s == [] then [] else Insert(key, s[0], Sort(key, s[1..]))
  }

  lemma {:induction false} InsertKeeps<T>(key: T -> string, x: T, s: seq<T>)
    ensures multiset(Insert(key, x, s)) == multiset(s) + multiset{x}
  {
    if s != [] && !Less(key(x), key(s[0])) {
      InsertKeeps(key, x, s[1..]);
      assert s == [s[0]] + s[1..];
    }
  }

  lemma {:induction false} SortKeeps<T>(key: T -> string, s: seq<T>)
    ensures multiset(Sort(key, s)) == multiset(s)
  {
    if s != [] {
      SortKeeps(key, s[1..]);
      InsertKeeps(key, s[0], Sort(key, s[1..]));
      assert s == [s[0]] + s[1..];
    }
  }

  /** A smaller first element keeps a sequence sorted. */
  lemma Prepend<T>(key: T -> string, x: T, s: seq<T>)
    requires StrictlySorted(key, s) && forall y :: y in s ==> Less(key(x), key(y))
    ensures StrictlySorted(key, [x] + s)
  {
  }

  lemma {:induction false} InsertSorts<T>(key: T -> string, x: T, s: seq<T>)
    requires StrictlySorted(key, s) && forall y :: y in s ==> key(y) != key(x)
    ensures StrictlySorted(key, Insert(key, x, s))
  {
    if s == [] {
    } else if Less(key(x), key(s[0])) {
      forall y | y in s ensures Less(key(x), key(y)) {
        if y != s[0] {
          LessIsTransitive(key(x), key(s[0]), key(y));
        }
      }
      Prepend(key, x, s);
    } else {
      InsertSorts(key, x, s[1..]);
      LessIsTotal(key(x), key(s[0]));
      var rest := Insert(key, x, s[1..]);
      InsertKeeps(key, x, s[1..]);
      forall y | y in rest ensures Less(key(s[0]), key(y)) {
        assert y in multiset(rest);
        assert y == x || y in s[1..];
      }
      Prepend(key, s[0], rest);
    }
  }

  lemma {:induction false} SortSorts<T>(key: T -> string, s: seq<T>)
    requires DistinctKeys(key, s)
    ensures StrictlySorted(key, Sort(key, s))
  {
    if s != [] {
      SortSorts(key, s[1..]);
      SortKeeps(key, s[1..]);
      forall y | y in Sort(key, s[1..]) ensures key(y) != key(s[0]) {
        assert y in multiset(Sort(key, s[1..]));
        assert y in s[1..];
      }
      InsertSorts(key, s[0], Sort(key, s[1..]));
    }
  }

  lemma SameElements<T>(s: seq<T>, t: seq<T>, x: T)
    requires multiset(s) == multiset(t)
    ensures |s| == |t| && (x in s <==> x in t)
  {
    assert |multiset(s)| == |s| && |multiset(t)| == |t|;
    assert x in s <==> x in multiset(s);
    assert x in t <==> x in multiset(t);
  }

  /** Sorting keeps the elements and, when the keys differ, orders them strictly. */
  lemma SortIsRight<T>(key: T -> string, s: seq<T>)
    requires DistinctKeys(key, s)
    ensures StrictlySorted(key, Sort(key, s)) && DistinctKeys(key, Sort(key, s))
    ensures |Sort(key, s)| == |s| && forall x :: x in Sort(key, s) <==> x in s
  {
    var sorted := Sort(key, s);
    SortSorts(key, s);
    SortKeeps(key, s);
    forall x ensures |sorted| == |s| && (x in sorted <==> x in s) {
      SameElements(sorted, s, x);
    }
    assert |sorted| == |s| by {
      assert |multiset(sorted)| == |multiset(s)|;
    }
    forall i, j | 0 <= i < j < |sorted| ensures key(sorted[i]) != key(sorted[j]) {
      LessIsTotal(key(sorted[i]), key(sorted[j]));
    }
  }

  /** sort.Search over the keys: the first position whose key is at least `name`. */
  method Search<T>(key: T -> string, s: seq<T>, name: string) returns (k: nat)
    requires StrictlySorted(key, s)
    ensures k <= |s|
    ensures forall i :: 0 <= i < k ==> Less(key(s[i]), name)
    ensures forall i :: k <= i < |s| ==> !Less(key(s[i]), name)
  {
    var lo, hi := 0, |s|;
    while lo < hi
      invariant 0 <= lo <= hi <= |s|
      invariant forall i :: 0 <= i < lo ==> Less(key(s[i]), name)
      invariant forall i :: hi <= i < |s| ==> !Less(key(s[i]), name)
    {
      var mid := lo + (hi - lo) / 2;
      if Less(key(s[mid]), name) {
        forall i | 0 <= i < mid ensures Less(key(s[i]), name) {
          LessIsTransitive(key(s[i]), key(s[mid]), name);
        }
        lo := mid + 1;
      } else {
        forall i | mid < i < |s| ensures !Less(key(s[i]), name) {
          if Less(key(s[i]), name) {
            LessIsTransitive(key(s[mid]), key(s[i]), name);
          }
        }
        hi := mid;
      }
    }
    k := lo;
  }
}

/** The order of the unpublished tools: by server, then by original name. */
module UnpublishedOrder {
  import opened CatalogModel
  import opened Sorting

  predicate Before(a: Unpublished, b: Unpublished) {
    if a.serverID != b.serverID then Less(a.serverID, b.serverID) else Less(a.original, b.original)
  }

  lemma BeforeIsTransitive(a: Unpublished, b: Unpublished, c: Unpublished)
    requires Before(a, b) && Before(b, c)
    ensures Before(a, c)
  {
    if a.serverID == b.serverID && b.serverID == c.serverID {
      LessIsTransitive(a.original, b.original, c.original);
    } else if a.serverID != b.serverID && b.serverID != c.serverID {
      LessIsTransitive(a.serverID, b.serverID, c.serverID);
      LessIsTotal(a.serverID, c.serverID);
    }
  }

  /** No entry comes after one that it belongs before. */
  predicate InOrder(s: seq<Unpublished>) {
    forall i, j {:trigger Before(s[j], s[i])} :: 0 <= i < j < |s| ==> !Before(s[j], s[i])
  }

  function InsertEntry(x: Unpublished, s: seq<Unpublished>): seq<Unpublished> {
    if s == [] || Before(x, s[0]) then [x] + s else [s[0]] + InsertEntry(x, s[1..])
  }

  function SortEntries(s: seq<Unpublished>): seq<Unpublished> {
    if s == [] then [] else InsertEntry(s[0], SortEntries(s[1..]))
  }

  lemma {:induction false} InsertEntryKeeps(x: Unpublished, s: seq<Unpublished>)
    ensures multiset(InsertEntry(x, s)) == multiset(s) + multiset{x}
  {
    if s != [] && !Before(x, s[0]) {
      InsertEntryKeeps(x, s[1..]);
      assert s == [s[0]] + s[1..];
    }
  }

  lemma {:induction false} SortEntriesKeeps(s: seq<Unpublished>)
    ensures multiset(SortEntries(s)) == multiset(s)
  {
    if s != [] {
      SortEntriesKeeps(s[1..]);
      InsertEntryKeeps(s[0], SortEntries(s[1..]));
      assert s == [s[0]] + s[1..];
    }
  }

  lemma First(x: Unpublished, s: seq<Unpublished>)
    requires InOrder(s) && forall y :: y in s ==> !Before(y, x)
    ensures InOrder([x] + s)
  {
    var t := [x] + s;
    forall i, j | 0 <= i < j < |t| ensures !Before(t[j], t[i]) {
      if i == 0 {
        assert t[j] in s;
      } else {
        assert !Before(s[j - 1], s[i - 1]);
      }
    }
  }

  lemma Tail(s: seq<Unpublished>)
    requires InOrder(s) && s != []
    ensures InOrder(s[1..]) && forall y :: y in s[1..] ==> !Before(y, s[0])
  {
    var t := s[1..];
    forall i, j | 0 <= i < j < |t| ensures !Before(t[j], t[i]) {
      assert !Before(s[j + 1], s[i + 1]);
    }
    forall y | y in t ensures !Before(y, s[0]) {
      var k :| 0 <= k < |t| && t[k] == y;
      assert !Before(s[k + 1], s[0]);
    }
  }

  lemma {:induction false} InsertEntryOrders(x: Unpublished, s: seq<Unpublished>)
    requires InOrder(s)
    ensures InOrder(InsertEntry(x, s))
  {
    if s != [] {
      Tail(s);
      if Before(x, s[0]) {
        forall y | y in s ensures !Before(y, x) {
          assert y == s[0] || y in s[1..];
          LessIsTotal(s[0].serverID, s[0].serverID);
          LessIsTotal(s[0].original, s[0].original);
          if Before(y, x) {
            BeforeIsTransitive(y, x, s[0]);
          }
        }
        First(x, s);
      } else {
        var rest := InsertEntry(x, s[1..]);
        InsertEntryOrders(x, s[1..]);
        InsertEntryKeeps(x, s[1..]);
        forall y | y in rest ensures !Before(y, s[0]) {
          assert y in multiset(rest);
          assert y == x || y in s[1..];
        }
        First(s[0], rest);
      }
    }
  }

  lemma {:induction false} SortEntriesOrders(s: seq<Unpublished>)
    ensures InOrder(SortEntries(s))
  {
    if s != [] {
      SortEntriesOrders(s[1..]);
      InsertEntryOrders(s[0], SortEntries(s[1..]));
    }
  }
}

/** The immutable snapshot derived from the catalog: sorted tool list, route
    map and per-server lists and counts (internal/catalog/snapshot.go and
    `rebuildSnapshot` of internal/catalog/catalog.go). */
module Snapshots {
  import opened CatalogModel
  import opened CatalogState
  import opened Sorting
  import opened UnpublishedOrder

  datatype Published = Published(name: string, json: string)

  datatype Route = Route(publicName: string, serverID: string, original: string)

  import opened Options

  datatype Snapshot = Snapshot(
    revision: nat,
    tools: seq<Published>,
    routes: map<string, Route>,
    serverTools: map<string, seq<string>>,
    publishedCounts: map<string, nat>,
    unpublishedCounts: map<string, nat>,
    unpublished: seq<Unpublished>,
    totalBytes: nat)

  const ByName: Published -> string := (p: Published) => p.name

  const Itself: string -> string := (s: string) => s

  ghost predicate Publishes(servers: Servers, p: Published) {
    exists s :: s in servers && p.name in servers[s] && servers[s][p.name].json == p.json
  }

  /** Every published tool, once. */
  ghost predicate ListsExactly(tools: seq<Published>, servers: Servers) {
    && DistinctKeys(ByName, tools)
    && forall p :: p in tools <==> Publishes(servers, p)
  }

  /** Every published name, with its server and its original name: no entry is lost in the merge. */
  ghost predicate RoutesExactly(routes: map<string, Route>, servers: Servers) {
    && routes.Keys == Names(servers)
    && forall s, n :: s in servers && n in servers[s] ==> n in routes && routes[n] == Route(n, s, servers[s][n].original)
  }

  ghost predicate NamesExactly(names: seq<string>, m: map<string, Registered>) {
    && StrictlySorted(Itself, names)
    && |names| == |m|
    && forall n :: n in names <==> n in m
  }

  ghost predicate ServerListsExactly(lists: map<string, seq<string>>, servers: Servers) {
    && lists.Keys == servers.Keys
    && forall s :: s in servers ==> NamesExactly(lists[s], servers[s])
  }

  ghost predicate ToolsCover(tools: seq<Published>, servers: Servers) {
    ListsExactly(tools, servers) && |tools| == TotalTools(servers)
  }

  ghost predicate RoutesCover(routes: map<string, Route>, servers: Servers) {
    RoutesExactly(routes, servers) && |routes| == TotalTools(servers)
  }

  /** The flat list holds every unpublished tool as often as its own server lists it. */
  ghost predicate FlatExactly(flat: seq<Unpublished>, unpublished: Rejects) {
    forall u: Unpublished :: multiset(flat)[u] == multiset(UnpublishedOf(unpublished, u.serverID))[u]
  }

  /** The snapshot says what the catalog says. */
  ghost predicate Agrees(snap: Snapshot, c: Content) {
    && snap.revision == c.revision
    && StrictlySorted(ByName, snap.tools)
    && ToolsCover(snap.tools, c.servers)
    && RoutesCover(snap.routes, c.servers)
    && ServerListsExactly(snap.serverTools, c.servers)
    && snap.publishedCounts == Counts(c.servers)
    && snap.unpublishedCounts == (map s | s in c.unpublished :: |c.unpublished[s]|)
    && InOrder(snap.unpublished) && FlatExactly(snap.unpublished, c.unpublished)
    && snap.totalBytes == TotalBytes(c.servers)
  }

  // ---- one server's part

  ghost predicate DistinctNames(names: seq<string>) {
    forall i, j :: 0 <= i < j < |names| ==> names[i] != names[j]
  }

  /** The keys of a map in the order in which it was walked. */
  ghost predicate Walk(names: seq<string>, keys: set<string>) {
    && DistinctNames(names)
    && |names| == |keys|
    && forall n :: n in names <==> n in keys
  }

  lemma WalkMore(names: seq<string>, keys: set<string>, n: string)
    requires Walk(names, keys) && n !in keys
    ensures Walk(names + [n], keys + {n})
  {
    var more := names + [n];
    forall i, j | 0 <= i < j < |more| ensures more[i] != more[j] {
      assert more[i] == names[i] && names[i] in names;
    }
    assert more[|names|] == n;
  }

  lemma WalkLess(names: seq<string>, keys: set<string>)
    requires Walk(names, keys) && names != []
    ensures Walk(names[..|names| - 1], keys - {names[|names| - 1]})
  {
    var k := |names| - 1;
    var less := names[..k];
    forall n | n in keys - {names[k]} ensures n in less {
      var i :| 0 <= i < |names| && names[i] == n;
      assert less[i] == n;
    }
    forall n | n in less ensures n in keys && n != names[k] {
      var i :| 0 <= i < k && names[i] == n;
    }
    assert names[k] in names;
  }

  /** A Go map is ranged over in an arbitrary order. */
  method Range(keys: set<string>) returns (names: seq<string>)
    ensures Walk(names, keys)
  {
    names := [];
    var rest := keys;
    while rest != {}
      invariant rest <= keys && Walk(names, keys - rest)
      decreases rest
    {
      var n :| n in rest;
      WalkMore(names, keys - rest, n);
      assert keys - rest + {n} == keys - (rest - {n});
      names := names + [n];
      rest := rest - {n};
    }
    assert keys - rest == keys;
  }

  ghost predicate Within(names: seq<string>, m: map<string, Registered>) {
    forall n :: n in names ==> n in m
  }

  ghost function BytesAlong(m: map<string, Registered>, names: seq<string>): nat
    requires Within(names, m)
  {
    if names == [] then 0 else BytesAlong(m, names[..|names| - 1]) + |m[names[|names| - 1]].json|
  }

  lemma {:induction false} BytesAlongAgree(m: map<string, Registered>, m': map<string, Registered>, names: seq<string>)
    requires Within(names, m) && Within(names, m') && forall n :: n in names ==> m[n] == m'[n]
    ensures BytesAlong(m, names) == BytesAlong(m', names)
  {
    if names != [] {
      BytesAlongAgree(m, m', names[..|names| - 1]);
    }
  }

  lemma ToolBytesWithout(m: map<string, Registered>, n: string)
    requires n in m
    ensures ToolBytes(m) == ToolBytes(m - {n}) + |m[n].json|
  {
    var rest := m - {n};
    ToolBytesWith(rest, n, m[n]);
    assert rest[n := m[n]] == m;
  }

  /** Whatever the order of the walk, the sizes add up to the same total. */
  lemma {:induction false} BytesAlongWalk(m: map<string, Registered>, names: seq<string>)
    requires Walk(names, m.Keys)
    ensures BytesAlong(m, names) == ToolBytes(m)
    decreases |names|
  {
    if names == [] {
      assert m == map[];
      EmptyHasNoBytes();
    } else {
      var n := names[|names| - 1];
      var rest := m - {n};
      WalkLess(names, m.Keys);
      assert rest.Keys == m.Keys - {n};
      BytesAlongWalk(rest, names[..|names| - 1]);
      BytesAlongAgree(m, rest, names[..|names| - 1]);
      ToolBytesWithout(m, n);
    }
  }

  /** The tools of one server in the order of the walk. */
  ghost function Entries(m: map<string, Registered>, names: seq<string>): seq<Published>
    requires Within(names, m)
  {
    if names == [] then []
    else
      var n := names[|names| - 1];
      Entries(m, names[..|names| - 1]) + [Published(n, m[n].json)]
  }

  lemma {:induction false} EntriesFollow(m: map<string, Registered>, names: seq<string>)
    requires Within(names, m)
    ensures |Entries(m, names)| == |names|
    ensures forall i :: 0 <= i < |names| ==> Entries(m, names)[i] == Published(names[i], m[names[i]].json)
  {
    if names != [] {
      EntriesFollow(m, names[..|names| - 1]);
    }
  }

  /** The route map with the routes of one server written over it. */
  ghost function WithRoutes(routes: map<string, Route>, s: string, m: map<string, Registered>, names: seq<string>): map<string, Route>
    requires Within(names, m)
  {
    if names == [] then routes
    else
      var n := names[|names| - 1];
      WithRoutes(routes, s, m, names[..|names| - 1])[n := Route(n, s, m[n].original)]
  }

  lemma {:induction false} WithRoutesAt(routes: map<string, Route>, s: string, m: map<string, Registered>, names: seq<string>)
    requires Within(names, m)
    ensures var r := WithRoutes(routes, s, m, names);
      && (forall n :: n in r <==> n in routes || n in names)
      && (forall n :: n in names ==> r[n] == Route(n, s, m[n].original))
      && (forall n :: n in routes && n !in names ==> r[n] == routes[n])
  {
    if names != [] {
      var less, n := names[..|names| - 1], names[|names| - 1];
      WithRoutesAt(routes, s, m, less);
      assert names == less + [n];
    }
  }

  /** The loop over one server's tools. */
  method ListServer(s: string, m: map<string, Registered>, before: seq<Published>, routesBefore: map<string, Route>)
    returns (names: seq<string>, tools: seq<Published>, routes: map<string, Route>, bytes: nat)
    ensures Walk(names, m.Keys)
    ensures tools == before + Entries(m, names)
    ensures routes == WithRoutes(routesBefore, s, m, names)
    ensures bytes == ToolBytes(m)
  {
    names := Range(m.Keys);
    tools, routes, bytes := before, routesBefore, 0;
    for i := 0 to |names|
      invariant Within(names[..i], m)
      invariant tools == before + Entries(m, names[..i])
      invariant routes == WithRoutes(routesBefore, s, m, names[..i])
      invariant bytes == BytesAlong(m, names[..i])
    {
      assert names[..i + 1][..i] == names[..i];
      var rt := m[names[i]];
      tools := tools + [Published(names[i], rt.json)];
      routes := routes[names[i] := Route(names[i], s, rt.original)];
      bytes := bytes + |rt.json|;
    }
    assert names[..|names|] == names;
    BytesAlongWalk(m, names);
  }

  // ---- merging the servers

  lemma EntryIsPublished(m: map<string, Registered>, names: seq<string>, p: Published)
    requires Walk(names, m.Keys)
    ensures p in Entries(m, names) <==> p.name in m && m[p.name].json == p.json
  {
    EntriesFollow(m, names);
    if p.name in m {
      var i :| 0 <= i < |names| && names[i] == p.name;
      assert Entries(m, names)[i] == Published(p.name, m[p.name].json);
    }
  }

  lemma PublishesMore(done: Servers, s: string, m: map<string, Registered>, p: Published)
    requires s !in done
    ensures Publishes(done[s := m], p) <==> Publishes(done, p) || (p.name in m && m[p.name].json == p.json)
  {
    var next: Servers := done[s := m];
    if Publishes(done, p) {
      var t :| t in done && p.name in done[t] && done[t][p.name].json == p.json;
      assert next[t] == done[t];
    }
    assert next[s] == m;
  }

  lemma DistinctMore(tools: seq<Published>, added: seq<Published>, taken: set<string>)
    requires DistinctKeys(ByName, tools) && DistinctKeys(ByName, added)
    requires forall p :: p in tools ==> p.name in taken
    requires forall p :: p in added ==> p.name !in taken
    ensures DistinctKeys(ByName, tools + added)
  {
    var all := tools + added;
    forall i, j | 0 <= i < j < |all| ensures ByName(all[i]) != ByName(all[j]) {
      if i < |tools| <= j {
        assert all[i] in tools && all[j] in added;
      }
    }
  }

  lemma ListsMore(tools: seq<Published>, done: Servers, s: string, m: map<string, Registered>, names: seq<string>)
    requires ListsExactly(tools, done) && s !in done && m.Keys !! Names(done) && Walk(names, m.Keys)
    ensures ListsExactly(tools + Entries(m, names), done[s := m])
  {
    var added := Entries(m, names);
    forall p ensures p in tools + added <==> Publishes(done[s := m], p) {
      EntryIsPublished(m, names, p);
      PublishesMore(done, s, m, p);
      assert p in tools + added <==> p in tools || p in added;
    }
    forall p ensures p in tools ==> p.name in Names(done) {}
    forall p ensures p in added ==> p.name !in Names(done) {
      EntryIsPublished(m, names, p);
    }
    EntriesFollow(m, names);
    DistinctMore(tools, added, Names(done));
  }

  lemma RouteCount(routes: map<string, Route>, more: map<string, Route>, keys: set<string>)
    requires more.Keys == routes.Keys + keys && routes.Keys !! keys
    ensures |more| == |routes| + |keys|
  {
    assert |more| == |more.Keys| && |routes| == |routes.Keys|;
  }

  lemma RoutesMore(routes: map<string, Route>, done: Servers, s: string, m: map<string, Registered>, names: seq<string>)
    requires RoutesExactly(routes, done) && s !in done && m.Keys !! Names(done) && Walk(names, m.Keys)
    ensures RoutesExactly(WithRoutes(routes, s, m, names), done[s := m])
    ensures |WithRoutes(routes, s, m, names)| == |routes| + |m.Keys|
  {
    WalkedRoutes(routes, s, m, names);
    RouteCount(routes, WithRoutes(routes, s, m, names), m.Keys);
    RoutesReplaced(routes, WithRoutes(routes, s, m, names), done, s, m);
  }

  lemma WalkedRoutes(routes: map<string, Route>, s: string, m: map<string, Registered>, names: seq<string>)
    requires Walk(names, m.Keys)
    ensures WithRoutes(routes, s, m, names).Keys == routes.Keys + m.Keys
    ensures forall n :: n in m ==> WithRoutes(routes, s, m, names)[n] == Route(n, s, m[n].original)
    ensures forall n :: n in routes && n !in m ==> WithRoutes(routes, s, m, names)[n] == routes[n]
  {
    WithRoutesAt(routes, s, m, names);
    forall n ensures n in names <==> n in m {}
  }

  lemma RoutesReplaced(routes: map<string, Route>, all: map<string, Route>, done: Servers, s: string, m: map<string, Registered>)
    requires RoutesExactly(routes, done) && s !in done && m.Keys !! Names(done)
    requires all.Keys == routes.Keys + m.Keys
    requires forall n :: n in m ==> all[n] == Route(n, s, m[n].original)
    requires forall n :: n in routes && n !in m ==> all[n] == routes[n]
    ensures RoutesExactly(all, done[s := m])
  {
    var next: Servers := done[s := m];
    NamesMore(done, s, m);
    forall t, n | t in next && n in next[t] ensures n in all && all[n] == Route(n, t, next[t][n].original) {
      if t != s {
        assert n in done[t] && n in Names(done);
      }
    }
  }

  lemma NamesMore(done: Servers, s: string, m: map<string, Registered>)
    requires s !in done
    ensures Names(done[s := m]) == Names(done) + m.Keys
  {
    var next: Servers := done[s := m];
    forall n | n in Names(done) + m.Keys ensures n in Names(next) {
      if n in m {
        assert n in next[s];
      } else {
        var t :| t in done && n in done[t];
        assert n in next[t];
      }
    }
  }

  lemma SortedNames(names: seq<string>, m: map<string, Registered>)
    requires Walk(names, m.Keys)
    ensures NamesExactly(Sort(Itself, names), m)
  {
    SortIsRight(Itself, names);
  }

  lemma SortedTools(tools: seq<Published>, servers: Servers)
    requires ListsExactly(tools, servers)
    ensures ListsExactly(Sort(ByName, tools), servers) && StrictlySorted(ByName, Sort(ByName, tools))
    ensures |Sort(ByName, tools)| == |tools|
  {
    SortIsRight(ByName, tools);
  }

  // ---- the whole snapshot

  /** The accumulators of the loop over the servers. */
  datatype Parts = Parts(
    tools: seq<Published>,
    routes: map<string, Route>,
    serverTools: map<string, seq<string>>,
    counts: map<string, nat>,
    bytes: nat)

  ghost predicate Covers(p: Parts, done: Servers) {
    && ToolsCover(p.tools, done)
    && RoutesCover(p.routes, done)
    && ServerListsExactly(p.serverTools, done)
    && p.counts == Counts(done)
    && p.bytes == TotalBytes(done)
  }

  lemma TotalsMore(done: Servers, s: string, m: map<string, Registered>)
    requires s !in done
    ensures TotalTools(done[s := m]) == TotalTools(done) + |m|
    ensures TotalBytes(done[s := m]) == TotalBytes(done) + ToolBytes(m)
  {
    assert done - {s} == done;
    TotalsWith(done, s, m);
  }

  lemma CountsMore(done: Servers, s: string, m: map<string, Registered>)
    ensures Counts(done[s := m]) == Counts(done)[s := |m|]
  {
  }

  lemma ServerListsMore(lists: map<string, seq<string>>, done: Servers, s: string, m: map<string, Registered>, names: seq<string>)
    requires ServerListsExactly(lists, done) && NamesExactly(names, m)
    ensures ServerListsExactly(lists[s := names], done[s := m])
  {
  }

  ghost predicate Known(order: seq<string>, servers: Servers) {
    forall i :: 0 <= i < |order| ==> order[i] in servers
  }

  /** The servers visited when the loop has seen the first n. */
  ghost function Visited(servers: Servers, order: seq<string>, n: nat): Servers
    requires n <= |order| && Known(order, servers)
  {
    if n == 0 then map[] else Visited(servers, order, n - 1)[order[n - 1] := servers[order[n - 1]]]
  }

  lemma {:induction false} VisitedMembers(servers: Servers, order: seq<string>, n: nat)
    requires n <= |order| && Known(order, servers)
    ensures forall t :: t in Visited(servers, order, n) <==> t in order[..n]
    ensures forall t :: t in Visited(servers, order, n) ==> t in servers && Visited(servers, order, n)[t] == servers[t]
  {
    if n > 0 {
      VisitedMembers(servers, order, n - 1);
      assert order[..n] == order[..n - 1] + [order[n - 1]];
    }
  }

  lemma VisitedAll(servers: Servers, order: seq<string>)
    requires Known(order, servers) && Walk(order, servers.Keys)
    ensures Visited(servers, order, |order|) == servers
  {
    VisitedMembers(servers, order, |order|);
    assert order[..|order|] == order;
    assert Visited(servers, order, |order|).Keys == servers.Keys;
  }

  /** A server that was not visited, none of whose names was met. */
  ghost predicate Fresh(done: Servers, s: string, m: map<string, Registered>) {
    s !in done && m.Keys !! Names(done)
  }

  ghost predicate FreshAt(servers: Servers, order: seq<string>, n: nat)
    requires n < |order| && Known(order, servers)
  {
    Fresh(Visited(servers, order, n), order[n], servers[order[n]])
  }

  ghost predicate AllFresh(servers: Servers, order: seq<string>)
    requires Known(order, servers)
  {
    forall n: nat {:trigger FreshAt(servers, order, n)} :: n < |order| ==> FreshAt(servers, order, n)
  }

  lemma NextServer(servers: Servers, order: seq<string>, n: nat)
    requires Disjoint(servers) && Known(order, servers) && n < |order| && DistinctNames(order)
    ensures FreshAt(servers, order, n)
  {
    VisitedMembers(servers, order, n);
    assert forall i :: 0 <= i < n ==> order[..n][i] == order[i] != order[n];
  }

  lemma NextServers(servers: Servers, order: seq<string>)
    requires Disjoint(servers) && Known(order, servers) && DistinctNames(order)
    ensures AllFresh(servers, order)
  {
    forall n: nat | n < |order| ensures FreshAt(servers, order, n) {
      NextServer(servers, order, n);
    }
  }

  /** The accumulators with one more server, walked in the order `names`. */
  ghost function Extended(p: Parts, s: string, m: map<string, Registered>, names: seq<string>): Parts
    requires Within(names, m)
  {
    Parts(p.tools + Entries(m, names), WithRoutes(p.routes, s, m, names), p.serverTools[s := Sort(Itself, names)],
          p.counts[s := |Sort(Itself, names)|], p.bytes + ToolBytes(m))
  }

  /** q becomes p when server s is visited. */
  ghost predicate Visits(q: Parts, s: string, m: map<string, Registered>, p: Parts) {
    exists names: seq<string> :: Walk(names, m.Keys) && p == Extended(q, s, m, names)
  }

  lemma NothingCovered(servers: Servers, order: seq<string>)
    requires Known(order, servers)
    ensures Covers(Parts([], map[], map[], map[], 0), Visited(servers, order, 0))
  {
    assert Visited(servers, order, 0) == map[];
    assert Counts(map[]) == map[] && Weights(map[]) == map[];
  }

  lemma StepCovers(q: Parts, p: Parts, servers: Servers, order: seq<string>, n: nat)
    requires 0 < n <= |order| && Known(order, servers)
    requires Covers(q, Visited(servers, order, n - 1))
    requires Fresh(Visited(servers, order, n - 1), order[n - 1], servers[order[n - 1]])
    requires Visits(q, order[n - 1], servers[order[n - 1]], p)
    ensures Covers(p, Visited(servers, order, n))
  {
    VisitCovers(q, Visited(servers, order, n - 1), order[n - 1], servers[order[n - 1]], p);
  }

  lemma ToolsCoverMore(tools: seq<Published>, done: Servers, s: string, m: map<string, Registered>, names: seq<string>)
    requires ToolsCover(tools, done) && Fresh(done, s, m) && Walk(names, m.Keys)
    ensures ToolsCover(tools + Entries(m, names), done[s := m])
  {
    ListsMore(tools, done, s, m, names);
    EntriesFollow(m, names);
    TotalsMore(done, s, m);
    assert |m| == |m.Keys|;
  }

  lemma RoutesCoverMore(routes: map<string, Route>, done: Servers, s: string, m: map<string, Registered>, names: seq<string>)
    requires RoutesCover(routes, done) && Fresh(done, s, m) && Walk(names, m.Keys)
    ensures RoutesCover(WithRoutes(routes, s, m, names), done[s := m])
  {
    RoutesMore(routes, done, s, m, names);
    TotalsMore(done, s, m);
    assert |m| == |m.Keys|;
  }

  lemma CoversMore(p: Parts, done: Servers, s: string, m: map<string, Registered>, names: seq<string>)
    requires Covers(p, done) && Fresh(done, s, m) && Walk(names, m.Keys)
    ensures Covers(Extended(p, s, m, names), done[s := m])
  {
    ToolsCoverMore(p.tools, done, s, m, names);
    RoutesCoverMore(p.routes, done, s, m, names);
    SortedNames(names, m);
    ServerListsMore(p.serverTools, done, s, m, Sort(Itself, names));
    TotalsMore(done, s, m);
    CountsMore(done, s, m);
  }

  lemma VisitCovers(q: Parts, done: Servers, s: string, m: map<string, Registered>, p: Parts)
    requires Covers(q, done) && Fresh(done, s, m) && Visits(q, s, m, p)
    ensures Covers(p, done[s := m])
  {
    var names: seq<string> :| Walk(names, m.Keys) && p == Extended(q, s, m, names);
    CoversMore(q, done, s, m, names);
  }

  method AddServer(q: Parts, s: string, m: map<string, Registered>) returns (p: Parts)
    ensures Visits(q, s, m, p)
  {
    var names, tools, routes, bytes := ListServer(s, m, q.tools, q.routes);
    var sorted := Sort(Itself, names);
    p := Parts(tools, routes, q.serverTools[s := sorted], q.counts[s := |sorted|], q.bytes + bytes);
    assert p == Extended(q, s, m, names);
  }

  /** One round of the loop over the servers. */
  method VisitServer(q: Parts, servers: Servers, order: seq<string>, n: nat) returns (p: Parts)
    requires n < |order| && Known(order, servers) && FreshAt(servers, order, n)
    requires Covers(q, Visited(servers, order, n))
    ensures Covers(p, Visited(servers, order, n + 1))
  {
    p := AddServer(q, order[n], servers[order[n]]);
    StepCovers(q, p, servers, order, n + 1);
  }

  /** The loop over the servers. */
  method GatherAlong(servers: Servers, order: seq<string>) returns (parts: Parts)
    requires Known(order, servers) && AllFresh(servers, order)
    ensures Covers(parts, Visited(servers, order, |order|))
  {
    parts := Parts([], map[], map[], map[], 0);
    NothingCovered(servers, order);
    for i := 0 to |order|
      invariant Covers(parts, Visited(servers, order, i))
    {
      assert FreshAt(servers, order, i);
      parts := VisitServer(parts, servers, order, i);
    }
  }

  lemma EverythingCovered(parts: Parts, servers: Servers, order: seq<string>)
    requires Known(order, servers) && Walk(order, servers.Keys) && Covers(parts, Visited(servers, order, |order|))
    ensures Covers(parts, servers)
  {
    VisitedAll(servers, order);
  }

  method Gather(servers: Servers) returns (parts: Parts)
    requires Disjoint(servers)
    ensures Covers(parts, servers)
  {
    var order := Range(servers.Keys);
    assert Known(order, servers);
    NextServers(servers, order);
    parts := GatherAlong(servers, order);
    EverythingCovered(parts, servers, order);
  }

  // ---- the unpublished tools

  /** The lists of the first n servers of the walk, one after the other. */
  function Joined(unpublished: Rejects, order: seq<string>, n: nat): seq<Unpublished>
    requires n <= |order| && forall i :: 0 <= i < |order| ==> order[i] in unpublished
  {
    if n == 0 then [] else Joined(unpublished, order, n - 1) + unpublished[order[n - 1]]
  }

  lemma FiledElsewhere(id: string, us: seq<Unpublished>, u: Unpublished)
    requires FiledUnder(id, us) && u.serverID != id
    ensures multiset(us)[u] == 0
  {
  }

  lemma {:induction false} JoinedCounts(unpublished: Rejects, order: seq<string>, n: nat, u: Unpublished)
    requires n <= |order| && forall i :: 0 <= i < |order| ==> order[i] in unpublished
    requires DistinctNames(order) && AllFiled(unpublished)
    ensures multiset(Joined(unpublished, order, n))[u] ==
      if u.serverID in order[..n] then multiset(unpublished[u.serverID])[u] else 0
  {
    if n > 0 {
      JoinedCounts(unpublished, order, n - 1, u);
      var id := order[n - 1];
      assert order[..n] == order[..n - 1] + [id];
      if u.serverID != id {
        FiledElsewhere(id, unpublished[id], u);
      }
    }
  }

  method Flatten(unpublished: Rejects) returns (flat: seq<Unpublished>)
    requires AllFiled(unpublished)
    ensures InOrder(flat) && FlatExactly(flat, unpublished)
  {
    var order := Range(unpublished.Keys);
    assert forall i :: 0 <= i < |order| ==> order[i] in unpublished;
    flat := [];
    for i := 0 to |order|
      invariant flat == Joined(unpublished, order, i)
    {
      flat := flat + unpublished[order[i]];
    }
    assert order[..|order|] == order;
    forall u: Unpublished ensures multiset(flat)[u] == multiset(UnpublishedOf(unpublished, u.serverID))[u] {
      JoinedCounts(unpublished, order, |order|, u);
    }
    SortEntriesKeeps(flat);
    SortEntriesOrders(flat);
    flat := SortEntries(flat);
  }

  method Rebuild(servers: Servers, unpublished: Rejects, revision: nat) returns (snap: Snapshot)
    requires Disjoint(servers) && AllFiled(unpublished)
    ensures Agrees(snap, Content(servers, unpublished, revision))
  {
    var parts := Gather(servers);
    var flat := Flatten(unpublished);
    SortedTools(parts.tools, servers);
    snap := Snapshot(revision, Sort(ByName, parts.tools), parts.routes, parts.serverTools, parts.counts,
                     map s | s in unpublished :: |unpublished[s]|, flat, parts.bytes);
  }

  // ---- lookups

  /** Binary search finds a name exactly when the route map has it, and returns the definition its server published. */
  method GetTool(snap: Snapshot, name: string, ghost c: Content) returns (r: Option<Published>)
    requires Agrees(snap, c)
    ensures r.Some? <==> name in snap.routes
    ensures r.Some? ==> r.value.name == name && Publishes(c.servers, r.value)
  {
    var k := Search(ByName, snap.tools, name);
    if k < |snap.tools| && snap.tools[k].name == name {
      assert snap.tools[k] in snap.tools && Publishes(c.servers, snap.tools[k]);
      assert name in Names(c.servers);
      return Some(snap.tools[k]);
    }
    NotListed(snap.tools, name, k);
    if name in snap.routes {
      ListedWhenRouted(snap, c, name);
    }
    r := None;
  }

  /** The first key that is not less than `name` is the only place where `name` can be. */
  lemma NotListed(tools: seq<Published>, name: string, k: nat)
    requires StrictlySorted(ByName, tools) && k <= |tools|
    requires forall i :: 0 <= i < k ==> Less(ByName(tools[i]), name)
    requires forall i :: k <= i < |tools| ==> !Less(ByName(tools[i]), name)
    requires k < |tools| ==> tools[k].name != name
    ensures forall i :: 0 <= i < |tools| ==> tools[i].name != name
  {
    forall i | 0 <= i < |tools| ensures tools[i].name != name {
      LessIsTotal(ByName(tools[i]), name);
      if k < i {
        assert Less(ByName(tools[k]), ByName(tools[i]));
      }
    }
  }

  lemma ListedWhenRouted(snap: Snapshot, c: Content, name: string)
    requires Agrees(snap, c) && name in snap.routes
    ensures exists i :: 0 <= i < |snap.tools| && snap.tools[i].name == name
  {
    var s :| s in c.servers && name in c.servers[s];
    var p := Published(name, c.servers[s][name].json);
    assert Publishes(c.servers, p) && p in snap.tools;
  }

  /** The per-server lists partition the routes: a name is in exactly the list of the server its route leads to. */
  lemma ListsPartitionRoutes(snap: Snapshot, c: Content, s: string, name: string)
    requires Agrees(snap, c) && s in snap.serverTools
    ensures name in snap.serverTools[s] <==> name in snap.routes && snap.routes[name].serverID == s
  {
    if name in snap.routes {
      var t :| t in c.servers && name in c.servers[t];
      assert snap.routes[name].serverID == t;
    }
    assert NamesExactly(snap.serverTools[s], c.servers[s]);
    if name in c.servers[s] {
      assert snap.routes[name] == Route(name, s, c.servers[s][name].original);
    }
  }
}
