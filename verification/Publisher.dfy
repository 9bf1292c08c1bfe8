/** Publishing catalog changes to the SDK server
    (internal/inbound/publisher.go).  The SDK's tool registry is a map from
    public name to JSON text in which adding replaces. */
module Publishing {
  import opened CatalogModel
  import opened Options
  import opened CatalogState
  import opened CatalogStore
  import opened Snapshots
  import Naming

  /** The registry after the tools were added in order. */
  function WithTools(registry: Registry, tools: seq<Published>): Registry {
    if tools == [] then registry
    else WithTools(registry, tools[..|tools| - 1])[tools[|tools| - 1].name := tools[|tools| - 1].json]
  }

  lemma {:induction false} WithToolsAt(registry: Registry, tools: seq<Published>, after: map<string, Registered>, n: string)
    requires forall p :: p in tools ==> IsCurrent(p, after)
    ensures n in WithTools(registry, tools) <==> n in registry || n in NamesIn(tools)
    ensures n in NamesIn(tools) ==> n in after && WithTools(registry, tools)[n] == after[n].json
    ensures n in registry && n !in NamesIn(tools) ==> WithTools(registry, tools)[n] == registry[n]
  {
    if tools != [] {
      var less, last := tools[..|tools| - 1], tools[|tools| - 1];
      WithToolsAt(registry, less, after, n);
      assert last in tools && IsCurrent(last, after);
      assert NamesIn(tools) == NamesIn(less) + [last.name];
    }
  }

  /** RemoveTools takes the names as a list. */
  function NameSet(names: seq<string>): (r: set<string>)
    ensures forall n :: n in r <==> n in names
  {
    set n | n in names
  }

  /** What the SDK server holds after RemoveTools and AddTool. */
  function Applied(registry: Registry, toRemove: seq<string>, toAdd: seq<Published>): Registry {
    WithTools(registry - NameSet(toRemove), toAdd)
  }

  lemma SynchronisedValue(registry: Registry, before: map<string, Registered>, after: map<string, Registered>, n: string)
    ensures n in Synchronised(registry, before, after) <==>
      n in ChangedNames(before, after) || (n in registry && n !in RemovedNames(before, after))
    ensures n in ChangedNames(before, after) ==> Synchronised(registry, before, after)[n] == after[n].json
    ensures n !in ChangedNames(before, after) && n in registry && n !in RemovedNames(before, after) ==>
      Synchronised(registry, before, after)[n] == registry[n]
  {
  }

  lemma WalkedName(names: seq<string>, keys: set<string>, n: string)
    requires Walk(names, keys)
    ensures n in names <==> n in keys
  {
  }

  predicate SameAt(a: Registry, b: Registry, n: string) {
    (n in a <==> n in b) && (n in a ==> a[n] == b[n])
  }

  lemma SameEverywhere(a: Registry, b: Registry)
    requires forall n :: SameAt(a, b, n)
    ensures a == b
  {
    forall n ensures n in a <==> n in b {
      assert SameAt(a, b, n);
    }
    forall n | n in a ensures a[n] == b[n] {
      assert SameAt(a, b, n);
    }
  }

  lemma DifferenceAt(registry: Registry, before: map<string, Registered>, after: map<string, Registered>,
                     toRemove: seq<string>, toAdd: seq<Published>, n: string)
    requires RemovesExactly(toRemove, before, after) && AddsExactly(toAdd, before, after)
    ensures SameAt(Applied(registry, toRemove, toAdd), Synchronised(registry, before, after), n)
  {
    WalkedName(NamesIn(toAdd), ChangedNames(before, after), n);
    WalkedName(toRemove, RemovedNames(before, after), n);
    WithToolsAt(registry - NameSet(toRemove), toAdd, after, n);
    SynchronisedValue(registry, before, after, n);
  }

  /** Applying the reported difference is the synchronisation of the registry. */
  lemma DifferenceSynchronises(registry: Registry, before: map<string, Registered>, after: map<string, Registered>,
                               toRemove: seq<string>, toAdd: seq<Published>)
    requires RemovesExactly(toRemove, before, after) && AddsExactly(toAdd, before, after)
    ensures Applied(registry, toRemove, toAdd) == Synchronised(registry, before, after)
  {
    forall n ensures SameAt(Applied(registry, toRemove, toAdd), Synchronised(registry, before, after), n) {
      DifferenceAt(registry, before, after, toRemove, toAdd, n);
    }
    SameEverywhere(Applied(registry, toRemove, toAdd), Synchronised(registry, before, after));
  }

  lemma NothingToSynchronise(registry: Registry, before: map<string, Registered>, after: map<string, Registered>)
    requires RemovedNames(before, after) == {} && ChangedNames(before, after) == {}
    ensures Synchronised(registry, before, after) == registry
  {
  }

  lemma UpdatedMirrors(w: World, c: Content, registry: Registry, id: string, raw: seq<Tool>, disabled: seq<string>)
    requires Mirrors(registry, c.servers) && Disjoint(c.servers) && Naming.ValidServerID(id)
    ensures var d := NewDraft(w, c.servers, id, raw, disabled);
      Mirrors(Synchronised(registry, ToolsOf(c.servers, id), d.tools), Updated(w, c, id, raw, disabled).servers)
  {
    var d := NewDraft(w, c.servers, id, raw, disabled);
    DraftIsSound(w, c.servers, id, raw, disabled);
    UpdateMirrors(registry, c.servers, id, d.tools);
    if !Changed(c, id, d) {
      NothingToSynchronise(registry, ToolsOf(c.servers, id), d.tools);
    }
  }

  /** Applying what an update reports keeps the registry equal to the catalog. */
  lemma PublishMirrors(w: World, c: Content, registry: Registry, id: string, raw: seq<Tool>, disabled: seq<string>,
                       toRemove: seq<string>, toAdd: seq<Published>)
    requires Mirrors(registry, c.servers) && Disjoint(c.servers) && Naming.ValidServerID(id)
    requires RemovesExactly(toRemove, ToolsOf(c.servers, id), NewDraft(w, c.servers, id, raw, disabled).tools)
    requires AddsExactly(toAdd, ToolsOf(c.servers, id), NewDraft(w, c.servers, id, raw, disabled).tools)
    ensures Mirrors(Applied(registry, toRemove, toAdd), Updated(w, c, id, raw, disabled).servers)
  {
    var before, after := ToolsOf(c.servers, id), NewDraft(w, c.servers, id, raw, disabled).tools;
    DifferenceSynchronises(registry, before, after, toRemove, toAdd);
    UpdatedMirrors(w, c, registry, id, raw, disabled);
  }

  // ---- any sequence of publications and removals

  datatype Op = Publish(id: string, raw: seq<Option<Tool>>, disabled: seq<string>) | Remove(id: string)

  datatype Hub = Hub(content: Content, registry: Registry)

  /** The catalog after an operation, and the registry after its difference. */
  ghost function After(w: World, h: Hub, op: Op): Hub {
    var servers := h.content.servers;
    match op
    case Publish(id, raw, disabled) =>
      if !StatusOf(id, raw, disabled).Accepted? then h
      else Hub(Updated(w, h.content, id, Given(raw), disabled),
               Synchronised(h.registry, ToolsOf(servers, id), NewDraft(w, servers, id, Given(raw), disabled).tools))
    case Remove(id) => Hub(Removed(h.content, id), h.registry - ToolsOf(servers, id).Keys)
  }

  ghost function Replay(w: World, ops: seq<Op>): Hub {
    if ops == [] then Hub(Content(map[], map[], 0), map[])
    else After(w, Replay(w, ops[..|ops| - 1]), ops[|ops| - 1])
  }

  lemma RemovedMirrors(c: Content, registry: Registry, id: string)
    requires Mirrors(registry, c.servers) && Disjoint(c.servers)
    ensures Mirrors(registry - ToolsOf(c.servers, id).Keys, Removed(c, id).servers)
  {
    if Present(c, id) {
      RemoveMirrors(registry, c.servers, id);
    } else {
      assert ToolsOf(c.servers, id).Keys == {};
      assert registry - ToolsOf(c.servers, id).Keys == registry;
    }
  }

  lemma OperationKeeps(w: World, h: Hub, op: Op)
    requires Sound(h.content) && Mirrors(h.registry, h.content.servers)
    ensures Sound(After(w, h, op).content) && Mirrors(After(w, h, op).registry, After(w, h, op).content.servers)
  {
    match op {
      case Publish(id, raw, disabled) =>
        if StatusOf(id, raw, disabled).Accepted? {
          UpdateKeepsSound(w, h.content, id, Given(raw), disabled);
          UpdatedMirrors(w, h.content, h.registry, id, Given(raw), disabled);
        }
      case Remove(id) =>
        RemoveKeepsSound(h.content, id);
        RemovedMirrors(h.content, h.registry, id);
    }
  }

  /** After any sequence of publications and removals the names are disjoint
      across servers, every limit holds, and the registry that only ever saw
      differences equals the full catalog. */
  lemma {:induction false} EverySequenceIsMirrored(w: World, ops: seq<Op>)
    ensures Sound(Replay(w, ops).content)
    ensures Mirrors(Replay(w, ops).registry, Replay(w, ops).content.servers)
  {
    if ops == [] {
      EmptyCatalog();
    } else {
      EverySequenceIsMirrored(w, ops[..|ops| - 1]);
      OperationKeeps(w, Replay(w, ops[..|ops| - 1]), ops[|ops| - 1]);
    }
  }

  lemma RemovalMirrors(c: Content, registry: Registry, id: string, toRemove: seq<string>)
    requires Mirrors(registry, c.servers) && Disjoint(c.servers) && Walk(toRemove, ToolsOf(c.servers, id).Keys)
    ensures Mirrors(registry - NameSet(toRemove), Removed(c, id).servers)
  {
    assert NameSet(toRemove) == ToolsOf(c.servers, id).Keys;
    RemovedMirrors(c, registry, id);
  }

  class Publisher {
    const cat: Catalog
    var registry: Registry

    ghost predicate Valid()
      reads this, cat
    {
      cat.Valid() && Mirrors(registry, cat.servers)
    }

    constructor (w: World)
      ensures Valid() && fresh(cat) && cat.world == w && registry == map[]
    {
      cat := new Catalog(w);
      registry := map[];
    }

    method RemoveTools(names: seq<string>)
      modifies this
      ensures registry == old(registry) - NameSet(names)
    {
      registry := registry - NameSet(names);
    }

    method AddTools(tools: seq<Published>)
      modifies this
      ensures registry == WithTools(old(registry), tools)
    {
      for i := 0 to |tools|
        invariant registry == WithTools(old(registry), tools[..i])
      {
        assert tools[..i + 1][..i] == tools[..i];
        registry := registry[tools[i].name := tools[i].json];
      }
      assert tools[..|tools|] == tools;
    }

    /** The registry stays equal to the full catalog contents. */
    method PublishServer(id: string, raw: seq<Option<Tool>>, disabled: seq<string>) returns (status: Status, snap: Snapshot)
      requires Valid()
      modifies this, cat
      ensures Valid() && snap == cat.snapshot
      ensures status == StatusOf(id, raw, disabled)
      ensures cat.View() == if status.Accepted? then Updated(cat.world, old(cat.View()), id, Given(raw), disabled) else old(cat.View())
      ensures !status.Accepted? ==> registry == old(registry)
    {
      ghost var c := cat.View();
      var toAdd, toRemove;
      status, toAdd, toRemove, snap := cat.UpdateServerTools(id, raw, disabled);
      if !status.Accepted? {
        return;
      }
      PublishMirrors(cat.world, c, registry, id, Given(raw), disabled, toRemove, toAdd);
      RemoveTools(toRemove);
      AddTools(toAdd);
    }

    method RemoveServer(id: string) returns (snap: Snapshot)
      requires Valid()
      modifies this, cat
      ensures Valid() && snap == cat.snapshot
      ensures cat.View() == Removed(old(cat.View()), id)
    {
      ghost var c := cat.View();
      var toRemove;
      toRemove, snap := cat.RemoveServer(id);
      RemovalMirrors(c, registry, id, toRemove);
      RemoveTools(toRemove);
    }
  }
}

/** The bridge's copy of the hub's tool list (internal/bridge/bridge.go). */
module BridgeRegistry {
  import opened Options

  datatype Tool = Tool(name: string, inputSchema: Option<string>, rest: string)

  /** JSON text of a tool; None when it cannot be encoded. */
  type Encoder = Tool -> Option<string>

  const OBJECT_SCHEMA := "{\"type\":\"object\"}"

  function WithSchema(t: Tool): Tool {
    if t.inputSchema.None? then t.(inputSchema := Some(OBJECT_SCHEMA)) else t
  }

  /** What the hub's list asks for: the last tool of each name that is not empty. */
  function Wanted(tools: seq<Option<Tool>>): map<string, Tool> {
    if tools == [] then map[]
    else
      var rest, last := Wanted(tools[..|tools| - 1]), tools[|tools| - 1];
      if last.Some? && last.value.name != "" then rest[last.value.name := WithSchema(last.value)] else rest
  }

  predicate SameJson(encode: Encoder, a: Tool, b: Tool) {
    encode(a).Some? && encode(b).Some? && encode(a).value == encode(b).value
  }

  /** The registry offers the wanted tools: same names, and definitions that are equal or encode alike. */
  predicate Offers(encode: Encoder, registry: map<string, Tool>, wanted: map<string, Tool>) {
    && registry.Keys == wanted.Keys
    && forall n :: n in wanted ==> registry[n] == wanted[n] || SameJson(encode, registry[n], wanted[n])
  }

  class Bridge {
    const encode: Encoder
    var currentTools: map<string, Tool>
    var registry: map<string, Tool>

    /** What the bridge believes to have registered is what the SDK server holds. */
    ghost predicate Valid()
      reads this
    {
      registry == currentTools
    }

    constructor (e: Encoder)
      ensures Valid() && encode == e && registry == map[]
    {
      encode, currentTools, registry := e, map[], map[];
    }

    method RemoveStale(wanted: map<string, Tool>)
      requires Valid()
      modifies this
      ensures Valid() && registry == map n | n in old(registry) && n in wanted :: old(registry)[n]
    {
      var stale := currentTools.Keys - wanted.Keys;
      registry := registry - stale;
      currentTools := currentTools - stale;
    }

    method AddOrUpdate(wanted: map<string, Tool>)
      requires Valid() && registry.Keys <= wanted.Keys
      modifies this
      ensures Valid() && Offers(encode, registry, wanted)
    {
      var rest := wanted.Keys;
      while rest != {}
        invariant Valid() && rest <= wanted.Keys && wanted.Keys - rest <= registry.Keys <= wanted.Keys
        invariant forall n :: n in wanted && n !in rest ==>
          registry[n] == wanted[n] || SameJson(encode, registry[n], wanted[n])
        decreases rest
      {
        var n :| n in rest;
        rest := rest - {n};
        if n in currentTools && SameJson(encode, currentTools[n], wanted[n]) {
          continue;
        }
        registry := registry[n := wanted[n]];
        currentTools := currentTools[n := wanted[n]];
      }
    }

    /** After a synchronisation the registry offers exactly the fetched list. */
    method UpdateRegisteredTools(tools: seq<Option<Tool>>)
      requires Valid()
      modifies this
      ensures Valid() && Offers(encode, registry, Wanted(tools))
    {
      var wanted: map<string, Tool> := map[];
      for i := 0 to |tools|
        invariant wanted == Wanted(tools[..i])
      {
        assert tools[..i + 1][..i] == tools[..i];
        if tools[i].Some? && tools[i].value.name != "" {
          wanted := wanted[tools[i].value.name := WithSchema(tools[i].value)];
        }
      }
      assert tools[..|tools|] == tools;
      RemoveStale(wanted);
      AddOrUpdate(wanted);
    }
  }

  /** Each name wanted is that of its last occurrence in the list, and every name in the list is wanted. */
  lemma {:induction false} WantedIsTheLast(tools: seq<Option<Tool>>, n: string)
    ensures n in Wanted(tools) <==> n != "" && exists i :: 0 <= i < |tools| && tools[i].Some? && tools[i].value.name == n
    ensures n in Wanted(tools) ==> exists i :: IsLast(tools, i, n) && OffersTool(tools[i].value, Wanted(tools)[n])
  {
    if tools != [] {
      var k := |tools| - 1;
      WantedIsTheLast(tools[..k], n);
      if tools[k].Some? && tools[k].value.name == n {
        assert IsLast(tools, k, n);
      } else if n in Wanted(tools[..k]) {
        var i :| IsLast(tools[..k], i, n) && OffersTool(tools[..k][i].value, Wanted(tools[..k])[n]);
        assert IsLast(tools, i, n) && OffersTool(tools[i].value, Wanted(tools)[n]);
      }
    }
  }

  /** The tool as it was listed, with the schema of any object if it had none. */
  predicate OffersTool(listed: Tool, offered: Tool) {
    && offered.name == listed.name && offered.rest == listed.rest
    && offered.inputSchema == if listed.inputSchema.None? then Some("{\"type\":\"object\"}") else listed.inputSchema
  }

  predicate IsLast(tools: seq<Option<Tool>>, i: int, n: string) {
    && 0 <= i < |tools| && tools[i].Some? && tools[i].value.name == n
    && forall j :: i < j < |tools| && tools[j].Some? ==> tools[j].value.name != n
  }
}
