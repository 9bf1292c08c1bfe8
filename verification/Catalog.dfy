/** The catalog object and the difference it reports
    (internal/catalog/catalog.go: UpdateServerTools, RemoveServer). */
module CatalogStore {
  import opened CatalogModel
  import opened Options
  import opened CatalogState
  import opened Snapshots
  import Naming

  // ---- the other servers

  /** Claims of one other server. */
  method ClaimServer(m: map<string, Registered>, claimed: set<string>, bytes: nat, count: nat)
    returns (claimed': set<string>, bytes': nat, count': nat)
    ensures claimed' == claimed + m.Keys && bytes' == bytes + ToolBytes(m) && count' == count + |m|
  {
    var names := Range(m.Keys);
    claimed', bytes', count' := claimed, bytes, count;
    for i := 0 to |names|
      invariant Within(names[..i], m)
      invariant claimed' == claimed + Elements(names[..i])
      invariant bytes' == bytes + BytesAlong(m, names[..i]) && count' == count + i
    {
      assert names[..i + 1][..i] == names[..i];
      claimed' := claimed' + {names[i]};
      bytes' := bytes' + |m[names[i]].json|;
      count' := count' + 1;
    }
    assert names[..|names|] == names;
    BytesAlongWalk(m, names);
    ElementsAre(names, m.Keys);
    assert |m| == |m.Keys|;
  }

  ghost function Elements(names: seq<string>): set<string> {
    if names == [] then {} else Elements(names[..|names| - 1]) + {names[|names| - 1]}
  }

  lemma {:induction false} ElementsMembers(names: seq<string>, n: string)
    ensures n in Elements(names) <==> n in names
  {
    if names != [] {
      ElementsMembers(names[..|names| - 1], n);
      assert names == names[..|names| - 1] + [names[|names| - 1]];
    }
  }

  lemma ElementsAre(names: seq<string>, keys: set<string>)
    requires Walk(names, keys)
    ensures Elements(names) == keys
  {
    forall n ensures n in Elements(names) <==> n in keys {
      ElementsMembers(names, n);
    }
  }

  /** What the visited servers have taken. */
  ghost predicate Taken(done: Servers, claimed: set<string>, bytes: nat, count: nat) {
    claimed == Names(done) && bytes == TotalBytes(done) && count == TotalTools(done)
  }

  lemma TakenMore(done: Servers, s: string, m: map<string, Registered>, claimed: set<string>, bytes: nat, count: nat)
    requires Taken(done, claimed, bytes, count) && s !in done
    ensures Taken(done[s := m], claimed + m.Keys, bytes + ToolBytes(m), count + |m|)
  {
    NamesMore(done, s, m);
    TotalsMore(done, s, m);
  }

  lemma NothingTaken()
    ensures Taken(map[], {}, 0, 0)
  {
    assert Counts(map[]) == map[] && Weights(map[]) == map[];
  }

  lemma NotYetVisited(servers: Servers, order: seq<string>, n: nat)
    requires Known(order, servers) && n < |order| && DistinctNames(order)
    ensures order[n] !in Visited(servers, order, n)
  {
    VisitedMembers(servers, order, n);
    assert forall i :: 0 <= i < n ==> order[..n][i] == order[i] != order[n];
  }

  /** Names, bytes and number of tools of all servers but one. */
  method OtherServers(servers: Servers, id: string) returns (claimed: set<string>, others: Others)
    ensures claimed == Names(servers - {id}) && others == OthersOf(servers, id)
  {
    var rest: Servers := servers - {id};
    var order := Range(rest.Keys);
    assert Known(order, rest);
    var bytes: nat, count: nat;
    claimed, bytes, count := {}, 0, 0;
    NothingTaken();
    for i := 0 to |order|
      invariant Taken(Visited(rest, order, i), claimed, bytes, count)
    {
      NotYetVisited(rest, order, i);
      TakenMore(Visited(rest, order, i), order[i], rest[order[i]], claimed, bytes, count);
      claimed, bytes, count := ClaimServer(rest[order[i]], claimed, bytes, count);
    }
    VisitedAll(rest, order);
    others := Others(count, bytes);
  }

  // ---- differences

  function NamesIn(tools: seq<Published>): (r: seq<string>)
    ensures |r| == |tools|
    ensures forall i :: 0 <= i < |r| ==> r[i] == tools[i].name
  {
    seq(|tools|, i requires 0 <= i < |tools| => tools[i].name)
  }

  /** Each name that went away, once. */
  ghost predicate RemovesExactly(toRemove: seq<string>, before: map<string, Registered>, after: map<string, Registered>) {
    Walk(toRemove, RemovedNames(before, after))
  }

  /** Each new or changed tool, once, with its new definition. */
  ghost predicate AddsExactly(toAdd: seq<Published>, before: map<string, Registered>, after: map<string, Registered>) {
    && Walk(NamesIn(toAdd), ChangedNames(before, after))
    && forall p :: p in toAdd ==> IsCurrent(p, after)
  }

  predicate IsCurrent(p: Published, after: map<string, Registered>) {
    p.name in after && after[p.name].json == p.json
  }

  /** The names, in the order of the walk, that are gone. */
  function Missing(names: seq<string>, after: map<string, Registered>): seq<string> {
    if names == [] then []
    else
      var n := names[|names| - 1];
      var rest := Missing(names[..|names| - 1], after);
      if n in after then rest else rest + [n]
  }

  lemma NewName(names: seq<string>, keys: set<string>)
    requires Walk(names, keys) && names != []
    ensures names[|names| - 1] in keys
  {
    assert names[|names| - 1] in names;
  }

  lemma MissingWithout(keys: set<string>, kept: set<string>, n: string)
    requires n in keys
    ensures keys - kept == if n in kept then keys - {n} - kept else keys - {n} - kept + {n}
  {
  }

  lemma {:induction false} MissingWalk(names: seq<string>, keys: set<string>, after: map<string, Registered>)
    requires Walk(names, keys)
    ensures Walk(Missing(names, after), keys - after.Keys)
    decreases |names|
  {
    if names == [] {
      assert keys == {};
    } else {
      var less, n := names[..|names| - 1], names[|names| - 1];
      NewName(names, keys);
      WalkLess(names, keys);
      MissingWalk(less, keys - {n}, after);
      MissingWithout(keys, after.Keys, n);
      if n !in after {
        WalkMore(Missing(less, after), keys - {n} - after.Keys, n);
      }
    }
  }

  method Removals(before: map<string, Registered>, after: map<string, Registered>) returns (toRemove: seq<string>)
    ensures RemovesExactly(toRemove, before, after)
  {
    var names := Range(before.Keys);
    toRemove := [];
    for i := 0 to |names|
      invariant toRemove == Missing(names[..i], after)
    {
      assert names[..i + 1][..i] == names[..i];
      if names[i] !in after {
        toRemove := toRemove + [names[i]];
      }
    }
    assert names[..|names|] == names;
    MissingWalk(names, before.Keys, after);
  }

  predicate Differs(before: map<string, Registered>, after: map<string, Registered>, n: string)
    requires n in after
  {
    n !in before || before[n].json != after[n].json
  }

  /** The new or changed tools, in the order of the walk. */
  ghost function Changes(names: seq<string>, before: map<string, Registered>, after: map<string, Registered>): seq<Published>
    requires Within(names, after)
  {
    if names == [] then []
    else
      var n := names[|names| - 1];
      var rest := Changes(names[..|names| - 1], before, after);
      if Differs(before, after, n) then rest + [Published(n, after[n].json)] else rest
  }

  ghost function ChangedAmong(keys: set<string>, before: map<string, Registered>, after: map<string, Registered>): set<string> {
    set n | n in keys && n in after && Differs(before, after, n)
  }

  lemma NamesInMore(tools: seq<Published>, p: Published)
    ensures NamesIn(tools + [p]) == NamesIn(tools) + [p.name]
  {
  }

  lemma ChangedWithout(keys: set<string>, before: map<string, Registered>, after: map<string, Registered>, n: string)
    requires n in keys && n in after
    ensures n !in ChangedAmong(keys - {n}, before, after)
    ensures ChangedAmong(keys, before, after) ==
      if Differs(before, after, n) then ChangedAmong(keys - {n}, before, after) + {n}
      else ChangedAmong(keys - {n}, before, after)
  {
  }

  lemma {:induction false} ChangesWalk(names: seq<string>, keys: set<string>, before: map<string, Registered>, after: map<string, Registered>)
    requires Walk(names, keys) && Within(names, after)
    ensures Walk(NamesIn(Changes(names, before, after)), ChangedAmong(keys, before, after))
    decreases |names|
  {
    if names == [] {
      assert keys == {};
      assert ChangedAmong(keys, before, after) == {};
    } else {
      var less, n := names[..|names| - 1], names[|names| - 1];
      NewName(names, keys);
      WalkLess(names, keys);
      ChangesWalk(less, keys - {n}, before, after);
      ChangedWithout(keys, before, after, n);
      if Differs(before, after, n) {
        WalkMore(NamesIn(Changes(less, before, after)), ChangedAmong(keys - {n}, before, after), n);
        NamesInMore(Changes(less, before, after), Published(n, after[n].json));
      }
    }
  }

  lemma {:induction false} ChangesAreCurrent(names: seq<string>, before: map<string, Registered>, after: map<string, Registered>)
    requires Within(names, after)
    ensures forall p :: p in Changes(names, before, after) ==> IsCurrent(p, after)
  {
    if names != [] {
      var less, n := names[..|names| - 1], names[|names| - 1];
      ChangesAreCurrent(less, before, after);
      assert n in names;
      assert IsCurrent(Published(n, after[n].json), after);
    }
  }

  method Additions(before: map<string, Registered>, after: map<string, Registered>) returns (toAdd: seq<Published>)
    ensures AddsExactly(toAdd, before, after)
  {
    var names := Range(after.Keys);
    toAdd := [];
    for i := 0 to |names|
      invariant Within(names[..i], after)
      invariant toAdd == Changes(names[..i], before, after)
    {
      assert names[..i + 1][..i] == names[..i];
      if Differs(before, after, names[i]) {
        toAdd := toAdd + [Published(names[i], after[names[i]].json)];
      }
    }
    assert names[..|names|] == names;
    ChangesWalk(names, after.Keys, before, after);
    ChangesAreCurrent(names, before, after);
    assert ChangedAmong(after.Keys, before, after) == ChangedNames(before, after);
  }

  method SameList(a: seq<Unpublished>, b: seq<Unpublished>) returns (same: bool)
    ensures same <==> a == b
  {
    if |a| != |b| {
      return false;
    }
    for i := 0 to |a|
      invariant a[..i] == b[..i]
    {
      if a[i] != b[i] {
        return false;
      }
    }
    assert a[..|a|] == a && b[..|b|] == b;
    same := true;
  }

  // ---- the object

  ghost predicate Sound(c: Content) {
    Consistent(c.servers) && c.servers.Keys == c.unpublished.Keys && AllFiled(c.unpublished)
  }

  lemma RemoveKeepsSound(c: Content, id: string)
    requires Sound(c)
    ensures Sound(Removed(c, id))
  {
    RemoveKeepsConsistent(c.servers, id);
  }

  /** The new tools of a server, unless a nil tool stops the computation. */
  method Prepare(w: World, servers: Servers, id: string, raw: seq<Option<Tool>>, disabled: seq<string>)
    returns (panics: bool, tools: map<string, Registered>, rejected: seq<Unpublished>)
    ensures panics <==> disabled == [] && None in raw
    ensures !panics ==> tools == NewDraft(w, servers, id, Given(raw), disabled).tools
    ensures !panics ==> rejected == NewDraft(w, servers, id, Given(raw), disabled).rejected
  {
    var some, off := FilterDisabledTools(raw, disabled);
    var claimed, others := OtherServers(servers, id);
    var enabled := Dereference(some);
    if enabled.None? {
      return true, map[], [];
    }
    var cs := Naming.ResolveNamesWithPriority(w.hash, id, ToolNames(enabled.value), claimed);
    tools, rejected := AdmitTools(w, id, enabled.value, cs, others, DisabledEntries(id, off));
    panics := false;
  }

  /** The tools an update computes. */
  ghost function NewTools(w: World, c: Content, id: string, raw: seq<Tool>, disabled: seq<string>): map<string, Registered> {
    NewDraft(w, c.servers, id, raw, disabled).tools
  }

  /** The update, put together from its draft and the result of the comparison. */
  lemma UpdatedFrom(w: World, c: Content, id: string, raw: seq<Tool>, disabled: seq<string>,
                    tools: map<string, Registered>, rejected: seq<Unpublished>)
    requires Naming.ValidServerID(id)
    requires tools == NewTools(w, c, id, raw, disabled) && rejected == NewDraft(w, c.servers, id, raw, disabled).rejected
    ensures Updated(w, c, id, raw, disabled) ==
      if || RemovedNames(ToolsOf(c.servers, id), tools) != {}
         || ChangedNames(ToolsOf(c.servers, id), tools) != {}
         || UnpublishedOf(c.unpublished, id) != rejected
      then Content(c.servers[id := tools], c.unpublished[id := rejected], c.revision + 1) else c
  {
  }

  method PlanUpdate(w: World, c: Content, id: string, raw: seq<Option<Tool>>, disabled: seq<string>)
    returns (panics: bool, changed: bool, next: Content, toAdd: seq<Published>, toRemove: seq<string>)
    requires Naming.ValidServerID(id)
    ensures panics <==> StatusOf(id, raw, disabled).NilTool?
    ensures panics ==> toAdd == [] && toRemove == []
    ensures !panics ==> next == Updated(w, c, id, Given(raw), disabled) && (!changed ==> next == c)
    ensures !panics ==> RemovesExactly(toRemove, ToolsOf(c.servers, id), NewTools(w, c, id, Given(raw), disabled))
    ensures !panics ==> AddsExactly(toAdd, ToolsOf(c.servers, id), NewTools(w, c, id, Given(raw), disabled))
  {
    var tools, rejected;
    panics, tools, rejected := Prepare(w, c.servers, id, raw, disabled);
    if panics {
      return true, false, c, [], [];
    }
    toRemove, toAdd, changed := Compare(ToolsOf(c.servers, id), tools, UnpublishedOf(c.unpublished, id), rejected);
    UpdatedFrom(w, c, id, Given(raw), disabled, tools, rejected);
    next := if changed then Content(c.servers[id := tools], c.unpublished[id := rejected], c.revision + 1) else c;
  }

  method PlanRemoval(c: Content, id: string) returns (changed: bool, next: Content, toRemove: seq<string>)
    ensures next == Removed(c, id) && (!changed ==> next == c)
    ensures Walk(toRemove, ToolsOf(c.servers, id).Keys)
  {
    toRemove := Range(ToolsOf(c.servers, id).Keys);
    changed := |ToolsOf(c.servers, id)| != 0 || id in c.unpublished;
    next := if changed then Content(c.servers - {id}, c.unpublished - {id}, c.revision + 1) else c;
  }

  class Catalog {
    const world: World
    var servers: Servers
    var unpublished: Rejects
    var revision: nat
    var snapshot: Snapshot

    ghost function View(): Content
      reads this
    {
      Content(servers, unpublished, revision)
    }

    /** Holds in every reachable state: names valid and disjoint across servers, all limits kept,
        and the published snapshot agrees with the contents. */
    ghost predicate Valid()
      reads this
    {
      Sound(View()) && Agrees(snapshot, View())
    }

    constructor (w: World)
      ensures Valid() && world == w && View() == Content(map[], map[], 0)
    {
      world, servers, unpublished, revision := w, map[], map[], 0;
      snapshot := Snapshot(0, [], map[], map[], map[], map[], [], 0);
      new;
      EmptyCatalog();
    }

    /** Stores new contents and rebuilds the snapshot. */
    method Store(next: Content)
      requires Sound(next)
      modifies this
      ensures Valid() && View() == next
    {
      servers, unpublished, revision := next.servers, next.unpublished, next.revision;
      snapshot := Rebuild(servers, unpublished, revision);
    }

    /** An update stores the draft exactly when it shows, and reports exactly the difference. */
    method UpdateServerTools(id: string, raw: seq<Option<Tool>>, disabled: seq<string>)
      returns (status: Status, toAdd: seq<Published>, toRemove: seq<string>, snap: Snapshot)
      requires Valid()
      modifies this
      ensures Valid() && snap == snapshot
      ensures status == StatusOf(id, raw, disabled)
      ensures View() == if status.Accepted? then Updated(world, old(View()), id, Given(raw), disabled) else old(View())
      ensures !status.Accepted? ==> toAdd == [] && toRemove == []
      ensures status.Accepted? ==>
        && RemovesExactly(toRemove, ToolsOf(old(servers), id), NewTools(world, old(View()), id, Given(raw), disabled))
        && AddsExactly(toAdd, ToolsOf(old(servers), id), NewTools(world, old(View()), id, Given(raw), disabled))
      ensures status.Accepted? ==> |ToolsOf(servers, id)| + |UnpublishedOf(unpublished, id)| == |Given(raw)|
    {
      if !Naming.ValidServerID(id) {
        return BadServer, [], [], snapshot;
      }
      var panics, changed, next;
      panics, changed, next, toAdd, toRemove := PlanUpdate(world, Content(servers, unpublished, revision), id, raw, disabled);
      if panics {
        return NilTool, [], [], snapshot;
      }
      UpdateKeepsSound(world, View(), id, Given(raw), disabled);
      UpdateCounts(world, View(), id, Given(raw), disabled);
      if changed {
        Store(next);
      }
      return Accepted, toAdd, toRemove, snapshot;
    }

    method RemoveServer(id: string) returns (toRemove: seq<string>, snap: Snapshot)
      requires Valid()
      modifies this
      ensures Valid() && snap == snapshot
      ensures View() == Removed(old(View()), id)
      ensures Walk(toRemove, ToolsOf(old(servers), id).Keys)
    {
      var changed, next;
      changed, next, toRemove := PlanRemoval(Content(servers, unpublished, revision), id);
      RemoveKeepsSound(View(), id);
      if changed {
        Store(next);
      }
      snap := snapshot;
    }
  }

  lemma EmptyCatalog()
    ensures Consistent(map[])
    ensures Agrees(Snapshot(0, [], map[], map[], map[], map[], [], 0), Content(map[], map[], 0))
  {
    assert Counts(map[]) == map[] && Weights(map[]) == map[];
  }

  /** The difference lists, and whether anything shows. */
  method Compare(before: map<string, Registered>, after: map<string, Registered>,
                 oldRejected: seq<Unpublished>, rejected: seq<Unpublished>)
    returns (toRemove: seq<string>, toAdd: seq<Published>, changed: bool)
    ensures RemovesExactly(toRemove, before, after) && AddsExactly(toAdd, before, after)
    ensures changed <==> RemovedNames(before, after) != {} || ChangedNames(before, after) != {} || oldRejected != rejected
  {
    toRemove := Removals(before, after);
    toAdd := Additions(before, after);
    var same := SameList(oldRejected, rejected);
    assert |NamesIn(toAdd)| == |ChangedNames(before, after)|;
    if |after| == 0 {
      assert RemovedNames(before, after) == before.Keys;
      assert |before| == |before.Keys|;
    }
    changed := |toAdd| > 0 || |toRemove| > 0 || !same || (|after| == 0 && |before| > 0);
  }

  lemma ReplaceKeepsSound(c: Content, id: string, tools: map<string, Registered>, rejected: seq<Unpublished>, revision: nat)
    requires Sound(c) && Consistent(c.servers[id := tools]) && FiledUnder(id, rejected)
    ensures Sound(Content(c.servers[id := tools], c.unpublished[id := rejected], revision))
  {
  }

  lemma UpdateKeepsSound(w: World, c: Content, id: string, raw: seq<Tool>, disabled: seq<string>)
    requires Sound(c)
    ensures Sound(Updated(w, c, id, raw, disabled))
  {
    if Naming.ValidServerID(id) {
      UpdateKeepsConsistent(w, c.servers, id, raw, disabled);
      DraftIsFiled(w, c.servers, id, raw, disabled);
      var d := NewDraft(w, c.servers, id, raw, disabled);
      ReplaceKeepsSound(c, id, d.tools, d.rejected, c.revision + 1);
    }
  }

  /** Stored or not, the published and unpublished tools of the server add up to the tools discovered. */
  lemma UpdateCounts(w: World, c: Content, id: string, raw: seq<Tool>, disabled: seq<string>)
    requires Naming.ValidServerID(id)
    ensures var c' := Updated(w, c, id, raw, disabled);
      |ToolsOf(c'.servers, id)| + |UnpublishedOf(c'.unpublished, id)| == |raw|
  {
    DraftIsSound(w, c.servers, id, raw, disabled);
    SameSize(ToolsOf(c.servers, id), NewDraft(w, c.servers, id, raw, disabled).tools);
  }

  lemma SameSize(before: map<string, Registered>, after: map<string, Registered>)
    ensures RemovedNames(before, after) == {} && ChangedNames(before, after) == {} ==> |before| == |after|
  {
    if RemovedNames(before, after) == {} && ChangedNames(before, after) == {} {
      forall n | n in after ensures n in before {
        assert n !in ChangedNames(before, after);
      }
      forall n | n in before ensures n in after {
        assert n !in RemovedNames(before, after);
      }
      assert before.Keys == after.Keys;
      assert |before| == |before.Keys| && |after| == |after.Keys|;
    }
  }
}
