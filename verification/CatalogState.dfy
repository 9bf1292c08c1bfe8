/** The catalog over all servers: what every update and removal keeps, and how
    the difference handed to the SDK keeps its registry equal to the catalog
    (internal/catalog/catalog.go, internal/inbound/publisher.go). */
module CatalogState {
  import opened MapSums
  import opened CatalogModel
  import opened Options
  import Naming

  /** What the catalog stores, without the derived snapshot. */
  datatype Content = Content(servers: Servers, unpublished: Rejects, revision: nat)

  ghost function Counts(servers: Servers): map<string, nat> {
    map s | s in servers :: |servers[s]|
  }

  ghost function Weights(servers: Servers): map<string, nat> {
    map s | s in servers :: ToolBytes(servers[s])
  }

  ghost function TotalTools(servers: Servers): nat { Sum(Counts(servers)) }

  ghost function TotalBytes(servers: Servers): nat { Sum(Weights(servers)) }

  function Names(servers: Servers): set<string> {
    set s, n | s in servers && n in servers[s] :: n
  }

  predicate Disjoint(servers: Servers) {
    forall s, t, n :: s in servers && t in servers && n in servers[s] && n in servers[t] ==> s == t
  }

  predicate WellFiledAll(servers: Servers) {
    forall s :: s in servers ==> WellFiled(s, servers[s]) && |servers[s]| <= MAX_TOOLS_PER_SERVER
  }

  /** Names are valid and pairwise disjoint across servers, and every limit holds. */
  ghost predicate Consistent(servers: Servers) {
    && WellFiledAll(servers)
    && Disjoint(servers)
    && TotalTools(servers) <= MAX_TOTAL_TOOLS
    && TotalBytes(servers) <= MAX_CATALOG_BYTES
  }

  type Rejects = map<string, seq<Unpublished>>

  /** The unpublished tools are filed under their own servers. */
  predicate AllFiled(unpublished: Rejects) {
    forall s :: s in unpublished ==> FiledUnder(s, unpublished[s])
  }

  ghost function OthersOf(servers: Servers, id: string): Others {
    Others(TotalTools(servers - {id}), TotalBytes(servers - {id}))
  }

  function ToolsOf(servers: Servers, id: string): map<string, Registered> {
    if id in servers then servers[id] else map[]
  }

  function UnpublishedOf(unpublished: Rejects, id: string): seq<Unpublished> {
    if id in unpublished then unpublished[id] else []
  }

  // ---- totals

  lemma SumSplit(all: map<string, nat>, others: map<string, nat>, id: string, v: nat)
    requires others == all - {id}
    requires v == if id in all then all[id] else 0
    ensures Sum(all) == Sum(others) + v
  {
    if id in all {
      SumWithout(all, id);
    } else {
      assert others == all;
    }
  }

  lemma CountWithout(servers: Servers, id: string)
    ensures TotalTools(servers) == TotalTools(servers - {id}) + |ToolsOf(servers, id)|
  {
    var all, others := Counts(servers), Counts(servers - {id});
    assert others == all - {id};
    SumSplit(all, others, id, |ToolsOf(servers, id)|);
  }

  lemma EmptyHasNoBytes()
    ensures ToolBytes(map[]) == 0
  {
    assert Sizes(map[]) == map[];
  }

  lemma WeightWithout(servers: Servers, id: string)
    ensures TotalBytes(servers) == TotalBytes(servers - {id}) + ToolBytes(ToolsOf(servers, id))
  {
    var all, others := Weights(servers), Weights(servers - {id});
    assert others == all - {id};
    EmptyHasNoBytes();
    SumSplit(all, others, id, ToolBytes(ToolsOf(servers, id)));
  }

  lemma TotalsWithout(servers: Servers, id: string)
    ensures TotalTools(servers) == TotalTools(servers - {id}) + |ToolsOf(servers, id)|
    ensures TotalBytes(servers) == TotalBytes(servers - {id}) + ToolBytes(ToolsOf(servers, id))
  {
    CountWithout(servers, id);
    WeightWithout(servers, id);
  }

  lemma TotalsWith(servers: Servers, id: string, tools: map<string, Registered>)
    ensures TotalTools(servers[id := tools]) == TotalTools(servers - {id}) + |tools|
    ensures TotalBytes(servers[id := tools]) == TotalBytes(servers - {id}) + ToolBytes(tools)
  {
    TotalsWithout(servers[id := tools], id);
    OthersUnchanged(servers, id, tools);
  }

  lemma OthersUnchanged(servers: Servers, id: string, tools: map<string, Registered>)
    ensures servers[id := tools] - {id} == servers - {id}
  {
  }

  lemma RemoveKeepsConsistent(servers: Servers, id: string)
    requires Consistent(servers)
    ensures Consistent(servers - {id})
  {
    TotalsWithout(servers, id);
  }

  // ---- updates

  datatype Status = BadServer | NilTool | Accepted

  /** An invalid server ID is an error; a nil tool without a disabled list is a panic. */
  function StatusOf(id: string, raw: seq<Option<Tool>>, disabled: seq<string>): Status {
    if !Naming.ValidServerID(id) then BadServer
    else if disabled == [] && None in raw then NilTool
    else Accepted
  }

  /** The candidates for the enabled tools. */
  function Candidates(w: World, servers: Servers, id: string, enabled: seq<Tool>): seq<Naming.Candidate> {
    Naming.Outcomes(w.hash, id, ToolNames(enabled), Names(servers - {id}))
  }

  /** What an update computes from the other servers and the discovered tools. */
  ghost function NewDraft(w: World, servers: Servers, id: string, raw: seq<Tool>, disabled: seq<string>): Draft {
    var enabled := Select(raw, disabled, false);
    AdmitAll(w, id, enabled, Candidates(w, servers, id, enabled), OthersOf(servers, id),
             DisabledEntries(id, Select(raw, disabled, true)), |enabled|)
  }

  lemma CandidatesAreSeparate(w: World, servers: Servers, id: string, enabled: seq<Tool>)
    requires Naming.ValidServerID(id)
    ensures Aligned(enabled, Candidates(w, servers, id, enabled))
    ensures Separate(Candidates(w, servers, id, enabled), Names(servers - {id}))
  {
    OutcomesAreSeparate(w.hash, id, ToolNames(enabled), Names(servers - {id}));
  }

  /** A draft is within the limits, uses no name of another server and accounts for every tool discovered. */
  lemma DraftIsSound(w: World, servers: Servers, id: string, raw: seq<Tool>, disabled: seq<string>)
    requires Naming.ValidServerID(id)
    ensures var d := NewDraft(w, servers, id, raw, disabled);
      && WellFiled(id, d.tools) && d.tools.Keys !! Names(servers - {id})
      && WithinLimits(OthersOf(servers, id), d, |raw|)
  {
    var enabled := Select(raw, disabled, false);
    var cs := Candidates(w, servers, id, enabled);
    var start := DisabledEntries(id, Select(raw, disabled, true));
    CandidatesAreSeparate(w, servers, id, enabled);
    DraftIsWellFiled(w, id, enabled, cs, OthersOf(servers, id), start, Names(servers - {id}), |enabled|);
    DraftWithinLimits(w, id, enabled, cs, OthersOf(servers, id), start, Names(servers - {id}), |enabled|);
    SplitConservesTools(id, raw, disabled, "");
  }

  lemma DraftIsFiled(w: World, servers: Servers, id: string, raw: seq<Tool>, disabled: seq<string>)
    ensures FiledUnder(id, NewDraft(w, servers, id, raw, disabled).rejected)
  {
    var enabled := Select(raw, disabled, false);
    RejectedAreFiled(w, id, enabled, Candidates(w, servers, id, enabled), OthersOf(servers, id),
                     DisabledEntries(id, Select(raw, disabled, true)), |enabled|);
  }

  /** Tool conservation: of the discovered tools called x, each is published once or unpublished once. */
  lemma EveryToolIsAccountedFor(w: World, servers: Servers, id: string, raw: seq<Tool>, disabled: seq<string>, x: string)
    requires Naming.ValidServerID(id)
    ensures var d := NewDraft(w, servers, id, raw, disabled);
      Accounted(d, x) == ListedTimes(raw, x)
  {
    var enabled := Select(raw, disabled, false);
    var cs := Candidates(w, servers, id, enabled);
    var start := DisabledEntries(id, Select(raw, disabled, true));
    CandidatesAreSeparate(w, servers, id, enabled);
    DraftConservesTools(w, id, enabled, cs, OthersOf(servers, id), start, Names(servers - {id}), |enabled|, x);
    SplitConservesTools(id, raw, disabled, x);
    assert enabled[..|enabled|] == enabled;
  }

  /** An update publishes exactly the discovered tools that are not disabled, can be named and
      described, and find room beside the other servers; the others are listed with the reason. */
  lemma UpdatePublishesExactly(w: World, servers: Servers, id: string, raw: seq<Tool>, disabled: seq<string>, i: nat)
    requires Naming.ValidServerID(id) && i < |Select(raw, disabled, false)|
    ensures var enabled := Select(raw, disabled, false);
      var cs := Candidates(w, servers, id, enabled);
      var d := NewDraft(w, servers, id, raw, disabled);
      var fits := Fits(w, enabled, cs, OthersOf(servers, id), d.tools.Keys, i);
      && (cs[i].err.NoError? ==> (cs[i].publicName in d.tools <==> fits))
      && (!fits ==> Unpublished(id, enabled[i].name, cs[i].publicName,
                                Because(w, enabled[i], cs[i], OthersOf(servers, id), CountIn(cs, d.tools.Keys, i))) in d.rejected)
  {
    var enabled := Select(raw, disabled, false);
    var cs := Candidates(w, servers, id, enabled);
    var start := DisabledEntries(id, Select(raw, disabled, true));
    CandidatesAreSeparate(w, servers, id, enabled);
    RefusedBecause(w, id, enabled, cs, OthersOf(servers, id), start, Names(servers - {id}), i);
    if cs[i].err.NoError? {
      PublishedExactly(w, id, enabled, cs, OthersOf(servers, id), start, Names(servers - {id}), i);
    }
  }

  /** No disabled tool is published. */
  lemma DisabledIsNeverPublished(w: World, servers: Servers, id: string, raw: seq<Tool>, disabled: seq<string>, p: string)
    requires Naming.ValidServerID(id) && p in NewDraft(w, servers, id, raw, disabled).tools
    ensures NewDraft(w, servers, id, raw, disabled).tools[p].original !in disabled
  {
    var enabled := Select(raw, disabled, false);
    var cs := Candidates(w, servers, id, enabled);
    CandidatesAreSeparate(w, servers, id, enabled);
    DraftEntries(w, id, enabled, cs, OthersOf(servers, id), DisabledEntries(id, Select(raw, disabled, true)), |enabled|, p);
    var r := NewDraft(w, servers, id, raw, disabled).tools[p];
    var k :| 0 <= k < |enabled| && cs[k].publicName == p && EntryOf(w, id, enabled[k], cs[k], r);
    SelectMembers(raw, disabled, false, enabled[k]);
  }

  /** Every disabled tool is listed as such. */
  lemma DisabledIsListed(w: World, servers: Servers, id: string, raw: seq<Tool>, disabled: seq<string>, t: Tool)
    requires t in raw && t.name in disabled
    ensures Unpublished(id, t.name, "", Disabled) in NewDraft(w, servers, id, raw, disabled).rejected
  {
    var enabled, off := Select(raw, disabled, false), Select(raw, disabled, true);
    var start := DisabledEntries(id, off);
    SelectMembers(raw, disabled, true, t);
    RejectedGrow(w, id, enabled, Candidates(w, servers, id, enabled), OthersOf(servers, id), start, 0, |enabled|);
    var k :| 0 <= k < |off| && off[k] == t;
    assert NewDraft(w, servers, id, raw, disabled).rejected[k] == start[k];
  }

  lemma OwnedElsewhere(servers: Servers, id: string, s: string, n: string)
    requires s != id && s in servers && n in servers[s]
    ensures n in Names(servers - {id})
  {
    assert n in (servers - {id})[s];
  }

  lemma ReplaceKeepsDisjoint(servers: Servers, id: string, tools: map<string, Registered>)
    requires Disjoint(servers) && tools.Keys !! Names(servers - {id})
    ensures Disjoint(servers[id := tools])
  {
    var next: Servers := servers[id := tools];
    forall s, t, n | s in next && t in next && n in next[s] && n in next[t] ensures s == t {
      if s != id && t != id {
        assert n in servers[s] && n in servers[t];
      } else if s != t {
        OwnedElsewhere(servers, id, if s == id then t else s, n);
        assert false;
      }
    }
  }

  lemma UpdateKeepsConsistent(w: World, servers: Servers, id: string, raw: seq<Tool>, disabled: seq<string>)
    requires Consistent(servers) && Naming.ValidServerID(id)
    ensures Consistent(servers[id := NewDraft(w, servers, id, raw, disabled).tools])
  {
    var d := NewDraft(w, servers, id, raw, disabled);
    DraftIsSound(w, servers, id, raw, disabled);
    ReplaceKeepsConsistent(servers, id, d);
  }

  lemma ReplaceKeepsConsistent(servers: Servers, id: string, d: Draft)
    requires Consistent(servers)
    requires WellFiled(id, d.tools) && d.tools.Keys !! Names(servers - {id})
    requires WithinLimits(OthersOf(servers, id), d, |d.tools| + |d.rejected|)
    ensures Consistent(servers[id := d.tools])
  {
    ReplaceKeepsFiling(servers, id, d.tools);
    ReplaceKeepsDisjoint(servers, id, d.tools);
    ReplaceKeepsTotals(servers, id, d);
  }

  lemma ReplaceKeepsFiling(servers: Servers, id: string, tools: map<string, Registered>)
    requires WellFiledAll(servers) && WellFiled(id, tools) && |tools| <= MAX_TOOLS_PER_SERVER
    ensures WellFiledAll(servers[id := tools])
  {
  }

  lemma ReplaceKeepsTotals(servers: Servers, id: string, d: Draft)
    requires TotalTools(servers) <= MAX_TOTAL_TOOLS && TotalBytes(servers) <= MAX_CATALOG_BYTES
    requires WithinLimits(OthersOf(servers, id), d, |d.tools| + |d.rejected|)
    ensures TotalTools(servers[id := d.tools]) <= MAX_TOTAL_TOOLS
    ensures TotalBytes(servers[id := d.tools]) <= MAX_CATALOG_BYTES
  {
    TotalsWithout(servers, id);
    TotalsWith(servers, id, d.tools);
  }

  // ---- differences

  function RemovedNames(before: map<string, Registered>, after: map<string, Registered>): set<string> {
    before.Keys - after.Keys
  }

  function ChangedNames(before: map<string, Registered>, after: map<string, Registered>): set<string> {
    set n | n in after && (n !in before || before[n].json != after[n].json)
  }

  /** An update is stored only when it shows: a name, a definition or the unpublished list differs. */
  predicate Changed(c: Content, id: string, d: Draft) {
    || RemovedNames(ToolsOf(c.servers, id), d.tools) != {}
    || ChangedNames(ToolsOf(c.servers, id), d.tools) != {}
    || UnpublishedOf(c.unpublished, id) != d.rejected
  }

  ghost function Updated(w: World, c: Content, id: string, raw: seq<Tool>, disabled: seq<string>): Content {
    var d := NewDraft(w, c.servers, id, raw, disabled);
    if Naming.ValidServerID(id) && Changed(c, id, d)
    then Content(c.servers[id := d.tools], c.unpublished[id := d.rejected], c.revision + 1)
    else c
  }

  predicate Present(c: Content, id: string) {
    |ToolsOf(c.servers, id)| != 0 || id in c.unpublished
  }

  function Removed(c: Content, id: string): Content {
    if Present(c, id) then Content(c.servers - {id}, c.unpublished - {id}, c.revision + 1) else c
  }

  /** Repeating an update changes nothing, hands the SDK nothing and keeps the revision. */
  lemma UpdateIsIdempotent(w: World, c: Content, id: string, raw: seq<Tool>, disabled: seq<string>)
    requires Naming.ValidServerID(id)
    ensures var c' := Updated(w, c, id, raw, disabled);
      && Updated(w, c', id, raw, disabled) == c'
      && var d := NewDraft(w, c'.servers, id, raw, disabled);
         RemovedNames(ToolsOf(c'.servers, id), d.tools) == {} && ChangedNames(ToolsOf(c'.servers, id), d.tools) == {}
  {
    var d := NewDraft(w, c.servers, id, raw, disabled);
    OthersUnchanged(c.servers, id, d.tools);
  }

  /** What an update leaves: the names and definitions and the unpublished list of the draft for
      this server, everything else as it was, and a new revision exactly when something shows. */
  lemma UpdateLeavesTheDraft(w: World, c: Content, id: string, raw: seq<Tool>, disabled: seq<string>)
    requires Naming.ValidServerID(id)
    ensures var d := NewDraft(w, c.servers, id, raw, disabled);
      var c' := Updated(w, c, id, raw, disabled);
      && SamePublic(ToolsOf(c'.servers, id), d.tools) && UnpublishedOf(c'.unpublished, id) == d.rejected
      && c'.servers - {id} == c.servers - {id} && c'.unpublished - {id} == c.unpublished - {id}
      && c'.revision == c.revision
         + if SamePublic(ToolsOf(c.servers, id), d.tools) && UnpublishedOf(c.unpublished, id) == d.rejected then 0 else 1
  {
    var d := NewDraft(w, c.servers, id, raw, disabled);
    OthersUnchanged(c.servers, id, d.tools);
    SamePublicExactly(ToolsOf(c.servers, id), d.tools);
  }

  /** Equal names with equal definitions. */
  predicate SamePublic(a: map<string, Registered>, b: map<string, Registered>) {
    a.Keys == b.Keys && forall n :: n in a && n in b ==> a[n].json == b[n].json
  }

  lemma SamePublicExactly(a: map<string, Registered>, b: map<string, Registered>)
    ensures SamePublic(a, b) <==> RemovedNames(a, b) == {} && ChangedNames(a, b) == {}
  {
    if RemovedNames(a, b) == {} && ChangedNames(a, b) == {} {
      forall n ensures n in a <==> n in b {
        assert n !in RemovedNames(a, b) && n !in ChangedNames(a, b);
      }
      forall n | n in a && n in b ensures a[n].json == b[n].json {
        assert n !in ChangedNames(a, b);
      }
    }
  }

  /** What a removal leaves: nothing of this server, everything else as it was, and a new
      revision exactly when there was something of it. */
  lemma RemovalLeavesTheRest(c: Content, id: string)
    ensures var c' := Removed(c, id);
      && ToolsOf(c'.servers, id) == map[] && UnpublishedOf(c'.unpublished, id) == [] && id !in c'.unpublished
      && c'.servers - {id} == c.servers - {id} && c'.unpublished - {id} == c.unpublished - {id}
      && c'.revision == c.revision + if ToolsOf(c.servers, id) == map[] && id !in c.unpublished then 0 else 1
  {
    assert |ToolsOf(c.servers, id)| == 0 <==> ToolsOf(c.servers, id) == map[];
  }

  // ---- the SDK registry: public name to JSON text

  type Registry = map<string, string>

  /** The registry holds exactly the published tools of all servers, with their current definitions. */
  predicate Mirrors(registry: Registry, servers: Servers) {
    && registry.Keys == Names(servers)
    && forall s, n :: s in servers && n in servers[s] ==> n in registry && registry[n] == servers[s][n].json
  }

  /** RemoveTools, then AddTool for each changed tool. */
  function Synchronised(registry: Registry, before: map<string, Registered>, after: map<string, Registered>): Registry {
    (registry - RemovedNames(before, after)) + map n | n in ChangedNames(before, after) :: after[n].json
  }

  lemma SynchronisedAt(registry: Registry, before: map<string, Registered>, after: map<string, Registered>, n: string)
    requires forall p :: p in before ==> p in registry && registry[p] == before[p].json
    ensures n in Synchronised(registry, before, after) <==> n in after || (n in registry && n !in before)
    ensures n in after ==> Synchronised(registry, before, after)[n] == after[n].json
    ensures n !in after && n in registry && n !in before ==> Synchronised(registry, before, after)[n] == registry[n]
  {
  }

  /** Incremental synchronisation refines republishing everything. */
  lemma UpdateMirrors(registry: Registry, servers: Servers, id: string, after: map<string, Registered>)
    requires Mirrors(registry, servers) && Disjoint(servers) && after.Keys !! Names(servers - {id})
    ensures Mirrors(Synchronised(registry, ToolsOf(servers, id), after), servers[id := after])
  {
    var before := ToolsOf(servers, id);
    var next: Servers := servers[id := after];
    var synced := Synchronised(registry, before, after);
    forall s, n | s in next && n in next[s] ensures n in synced && synced[n] == next[s][n].json {
      SynchronisedAt(registry, before, after, n);
      if s != id {
        assert n in (servers - {id})[s];
        assert n in Names(servers - {id}) && n !in after && n !in before;
      }
    }
    forall n | n in synced ensures n in Names(next) {
      SynchronisedAt(registry, before, after, n);
      if n in after {
        assert n in next[id];
      } else {
        var s :| s in servers && n in servers[s];
        assert n in next[s];
      }
    }
    assert synced.Keys == Names(next);
  }

  lemma RemoveMirrors(registry: Registry, servers: Servers, id: string)
    requires Mirrors(registry, servers) && Disjoint(servers)
    ensures Mirrors(registry - ToolsOf(servers, id).Keys, servers - {id})
  {
    var left: Registry := registry - ToolsOf(servers, id).Keys;
    var next: Servers := servers - {id};
    forall n | n in left ensures n in Names(next) {
      var s :| s in servers && n in servers[s];
      assert n in next[s];
    }
    forall s, n | s in next && n in next[s] ensures n in left && left[n] == next[s][n].json {
      assert n in servers[s];
    }
    assert left.Keys == Names(next);
  }
}
