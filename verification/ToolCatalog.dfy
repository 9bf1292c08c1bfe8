/** Sums over the values of a map, in whatever order the keys are visited. */
module MapSums {
  ghost function Sum(m: map<string, nat>): nat
    decreases |m|
  {
    if m == map[] then 0
    else
      var k: string :| k in m;
      m[k] + Sum(m - {k})
  }

  /** Any key may be visited first. */
  lemma {:induction false} SumWithout(m: map<string, nat>, k: string)
    requires k in m
    ensures Sum(m) == m[k] + Sum(m - {k})
    decreases |m|
  {
    var j: string :| j in m && Sum(m) == m[j] + Sum(m - {j});
    if j != k {
      SumWithout(m - {j}, k);
      SumWithout(m - {k}, j);
      assert m - {j} - {k} == m - {k} - {j};
    }
  }

  lemma SumWith(m: map<string, nat>, k: string, v: nat)
    requires k !in m
    ensures Sum(m[k := v]) == Sum(m) + v
  {
    SumWithout(m[k := v], k);
    assert m[k := v] - {k} == m;
  }
}

/** The multi-server tool catalog as values: admission of one server's tools
    against the names and the space taken by all other servers
    (internal/catalog/catalog.go, filter.go, validation.go).

    A tool definition is identified with its JSON text; the encoder, the SDK's
    registration test and SHA-256 are arbitrary functions. */
module CatalogModel {
  import opened MapSums
  import opened Options
  import Naming

  const MAX_TOOLS_PER_SERVER: nat := 512
  const MAX_TOTAL_TOOLS: nat := 2048
  const MAX_CATALOG_BYTES: nat := 8 * 1024 * 1024
  const MAX_DEFINITION_BYTES: nat := 256 * 1024

  /** What JSON encoding makes of a schema; `kind` is its top-level "type". */
  datatype Schema = Absent | Unencodable | NotAnObject | Null | Object(kind: Option<string>)

  datatype Tool = Tool(name: string, input: Schema, output: Schema, definition: string)

  datatype Registered = Registered(serverID: string, original: string, publicName: string, json: string)

  datatype Unpublished = Unpublished(serverID: string, original: string, publicName: string, reason: Reason)

  datatype Reason =
    | Disabled
    | BadName(error: Naming.NameError)
    | BadDefinition(message: string)
    | ServerFull
    | CatalogFull
    | CatalogTooLarge

  type Servers = map<string, map<string, Registered>>

  datatype Encoded = Json(text: string) | Failed(message: string)

  /** What lies outside the catalog: `encode` is the JSON text of a tool, `register` the
      SDK's own test, `rename` the JSON text of the decoded copy that carries the public name. */
  datatype World = World(
    encode: Tool -> Encoded,
    register: Tool -> bool,
    rename: (Tool, string) -> Encoded,
    hash: Naming.Hash)

  function SchemaError(schema: Schema, what: string): string {
    match schema
    case Absent => what + " cannot be nil"
    case Unencodable => what + " cannot be marshaled to JSON"
    case NotAnObject => what + " must be a JSON object"
    case Null => what + " must be a non-null JSON object"
    case Object(kind) => if kind == Some("object") then "" else what + " must have type object"
  }

  /** The first complaint about a tool, or none. */
  function ValidateTool(w: World, t: Tool): Option<string> {
    if t.name == "" then Some("tool name is empty")
    else if SchemaError(t.input, "input schema") != "" then Some(SchemaError(t.input, "input schema"))
    else if !t.output.Absent? && SchemaError(t.output, "output schema") != "" then Some(SchemaError(t.output, "output schema"))
    else if w.encode(t).Failed? then Some(w.encode(t).message)
    else if |w.encode(t).text| > MAX_DEFINITION_BYTES then Some("tool definition size exceeds limit")
    else if !w.register(t) then Some("tool definition is incompatible with MCP SDK registration")
    else None
  }

  /** The JSON text of the tool as it is published. */
  function CloneAndAssignPublicName(w: World, t: Tool, publicName: string): (r: Encoded)
    ensures r.Json? ==> |r.text| <= MAX_DEFINITION_BYTES
  {
    if ValidateTool(w, t).Some? then Failed(ValidateTool(w, t).value)
    else if w.rename(t, publicName).Failed? then w.rename(t, publicName)
    else if |w.rename(t, publicName).text| > MAX_DEFINITION_BYTES then Failed("tool definition size exceeds limit")
    else w.rename(t, publicName)
  }

  predicate ObjectSchema(schema: Schema) {
    schema == Object(Some("object"))
  }

  predicate Encodes(e: Encoded) {
    e.Json? && |e.text| <= 262144
  }

  /** Exactly the tools that have a name, object schemas, the SDK's approval and, before and after
      the renaming, an encoding within the limit are accepted, with the text of the renamed copy. */
  lemma AcceptedExactly(w: World, t: Tool, publicName: string)
    ensures var r := CloneAndAssignPublicName(w, t, publicName);
      && (r.Json? <==>
            && t.name != "" && ObjectSchema(t.input) && (t.output.Absent? || ObjectSchema(t.output))
            && Encodes(w.encode(t)) && w.register(t) && Encodes(w.rename(t, publicName)))
      && (r.Json? ==> r == w.rename(t, publicName))
  {
    assert SchemaError(t.input, "input schema") == "" <==> ObjectSchema(t.input) by {
      SchemaErrorMeaning(t.input, "input schema");
    }
    assert SchemaError(t.output, "output schema") == "" <==> ObjectSchema(t.output) by {
      SchemaErrorMeaning(t.output, "output schema");
    }
  }

  lemma SchemaErrorMeaning(schema: Schema, what: string)
    requires what != ""
    ensures SchemaError(schema, what) == "" <==> ObjectSchema(schema)
  {
    if !ObjectSchema(schema) {
      assert SchemaError(schema, what)[0] == what[0];
    }
  }

  // ---- disabled tools

  /** The tools whose original name is, or is not, in the disabled list. */
  function Select(tools: seq<Tool>, disabled: seq<string>, listed: bool): seq<Tool> {
    if tools == [] then []
    else
      var rest := Select(tools[..|tools| - 1], disabled, listed);
      if (tools[|tools| - 1].name in disabled) == listed then rest + [tools[|tools| - 1]] else rest
  }

  lemma {:induction false} SelectAll(tools: seq<Tool>)
    ensures Select(tools, [], false) == tools && Select(tools, [], true) == []
  {
    if tools != [] {
      SelectAll(tools[..|tools| - 1]);
    }
  }

  /** One half holds exactly the tools of the list that are disabled, the other exactly the rest. */
  lemma {:induction false} SelectMembers(tools: seq<Tool>, disabled: seq<string>, listed: bool, t: Tool)
    ensures t in Select(tools, disabled, listed) <==> t in tools && ((t.name in disabled) == listed)
  {
    if tools != [] {
      SelectMembers(tools[..|tools| - 1], disabled, listed, t);
      assert tools == tools[..|tools| - 1] + [tools[|tools| - 1]];
    }
  }

  /** The tools of a list that may hold nil pointers. */
  function Given(tools: seq<Option<Tool>>): seq<Tool> {
    if tools == [] then []
    else
      var rest, last := Given(tools[..|tools| - 1]), tools[|tools| - 1];
      if last.Some? then rest + [last.value] else rest
  }

  /** Concatenation, the nil pointer and the single tool determine Given. */
  lemma {:induction false} GivenIsTheList(a: seq<Option<Tool>>, b: seq<Option<Tool>>, t: Tool)
    ensures Given(a + b) == Given(a) + Given(b)
    ensures Given([]) == [] && Given([None]) == [] && Given([Some(t)]) == [t]
    decreases |b|
  {
    var nil: seq<Option<Tool>>, one: seq<Option<Tool>> := [None], [Some(t)];
    assert nil[..0] == [] && one[..0] == [];
    if b == [] {
      assert a + b == a;
    } else {
      GivenIsTheList(a, b[..|b| - 1], t);
      assert (a + b)[..|a + b| - 1] == a + b[..|b| - 1];
    }
  }

  /** Nil pointers are skipped when there is a disabled list, and passed on when there is none. */
  method FilterDisabledTools(tools: seq<Option<Tool>>, disabled: seq<string>)
    returns (enabled: seq<Option<Tool>>, off: seq<Tool>)
    ensures Given(enabled) == Select(Given(tools), disabled, false)
    ensures off == Select(Given(tools), disabled, true)
    ensures None in enabled <==> disabled == [] && None in tools
  {
    SelectAll(Given(tools));
    if disabled == [] {
      return tools, [];
    }
    enabled, off := [], [];
    for i := 0 to |tools|
      invariant Given(enabled) == Select(Given(tools[..i]), disabled, false)
      invariant off == Select(Given(tools[..i]), disabled, true)
      invariant None !in enabled
    {
      assert tools[..i + 1][..i] == tools[..i];
      if tools[i].None? {
        continue;
      }
      if tools[i].value.name in disabled {
        off := off + [tools[i].value];
      } else {
        assert (enabled + [tools[i]])[..|enabled|] == enabled;
        enabled := enabled + [tools[i]];
      }
    }
    assert tools[..|tools|] == tools;
  }

  /** Reading the names of the enabled tools; a nil pointer is a run-time panic. */
  method Dereference(tools: seq<Option<Tool>>) returns (r: Option<seq<Tool>>)
    ensures r == if None in tools then None else Some(Given(tools))
  {
    var out: seq<Tool> := [];
    for i := 0 to |tools|
      invariant out == Given(tools[..i]) && None !in tools[..i]
    {
      assert tools[..i + 1][..i] == tools[..i];
      if tools[i].None? {
        return None;
      }
      out := out + [tools[i].value];
    }
    assert tools[..|tools|] == tools;
    r := Some(out);
  }

  function ToolNames(tools: seq<Tool>): (r: seq<string>)
    ensures |r| == |tools|
    ensures forall i :: 0 <= i < |r| ==> r[i] == tools[i].name
  {
    seq(|tools|, i requires 0 <= i < |tools| => tools[i].name)
  }

  // ---- admission

  datatype Others = Others(count: nat, bytes: nat)

  datatype Draft = Draft(tools: map<string, Registered>, rejected: seq<Unpublished>, bytes: nat)

  /** One tool against the limits, given the other servers and the tools admitted before it. */
  function Admit(w: World, id: string, t: Tool, c: Naming.Candidate, others: Others, d: Draft): Draft {
    if !c.err.NoError? then Reject(d, Unpublished(id, c.original, c.publicName, BadName(c.err)))
    else
      var clone := CloneAndAssignPublicName(w, t, c.publicName);
      if clone.Failed? then Reject(d, Unpublished(id, t.name, c.publicName, BadDefinition(clone.message)))
      else if |d.tools| >= MAX_TOOLS_PER_SERVER then Reject(d, Unpublished(id, t.name, c.publicName, ServerFull))
      else if others.count + |d.tools| >= MAX_TOTAL_TOOLS then
        Reject(d, Unpublished(id, t.name, c.publicName, CatalogFull))
      else if others.bytes + d.bytes + |clone.text| > MAX_CATALOG_BYTES then
        Reject(d, Unpublished(id, t.name, c.publicName, CatalogTooLarge))
      else Draft(d.tools[c.publicName := Registered(id, t.name, c.publicName, clone.text)],
                 d.rejected, d.bytes + |clone.text|)
  }

  function Reject(d: Draft, u: Unpublished): Draft {
    d.(rejected := d.rejected + [u])
  }

  /** The disabled tools, in order, as unpublished entries. */
  function DisabledEntries(id: string, off: seq<Tool>): (r: seq<Unpublished>)
    ensures |r| == |off|
    ensures forall i :: 0 <= i < |r| ==> r[i] == Unpublished(id, off[i].name, "", Disabled)
  {
    seq(|off|, i requires 0 <= i < |off| => Unpublished(id, off[i].name, "", Disabled))
  }

  /** The draft after the first n enabled tools. */
  function AdmitAll(w: World, id: string, enabled: seq<Tool>, cs: seq<Naming.Candidate>, others: Others,
                    start: seq<Unpublished>, n: nat): Draft
    requires n <= |enabled| == |cs|
  {
    if n == 0 then Draft(map[], start, 0)
    else Admit(w, id, enabled[n - 1], cs[n - 1], others, AdmitAll(w, id, enabled, cs, others, start, n - 1))
  }

  method AdmitTools(w: World, id: string, enabled: seq<Tool>, cs: seq<Naming.Candidate>, others: Others,
                    start: seq<Unpublished>)
    returns (tools: map<string, Registered>, rejected: seq<Unpublished>)
    requires |enabled| == |cs|
    ensures tools == AdmitAll(w, id, enabled, cs, others, start, |cs|).tools
    ensures rejected == AdmitAll(w, id, enabled, cs, others, start, |cs|).rejected
  {
    tools, rejected := map[], start;
    var bytes: nat := 0;
    for i := 0 to |cs|
      invariant Draft(tools, rejected, bytes) == AdmitAll(w, id, enabled, cs, others, start, i)
    {
      var raw, c := enabled[i], cs[i];
      if !c.err.NoError? {
        rejected := rejected + [Unpublished(id, c.original, c.publicName, BadName(c.err))];
        continue;
      }
      var clone := CloneAndAssignPublicName(w, raw, c.publicName);
      if clone.Failed? {
        rejected := rejected + [Unpublished(id, raw.name, c.publicName, BadDefinition(clone.message))];
        continue;
      }
      if |tools| >= MAX_TOOLS_PER_SERVER {
        rejected := rejected + [Unpublished(id, raw.name, c.publicName, ServerFull)];
        continue;
      }
      if others.count + |tools| >= MAX_TOTAL_TOOLS {
        rejected := rejected + [Unpublished(id, raw.name, c.publicName, CatalogFull)];
        continue;
      }
      if others.bytes + bytes + |clone.text| > MAX_CATALOG_BYTES {
        rejected := rejected + [Unpublished(id, raw.name, c.publicName, CatalogTooLarge)];
        continue;
      }
      tools := tools[c.publicName := Registered(id, raw.name, c.publicName, clone.text)];
      bytes := bytes + |clone.text|;
    }
  }

  // ---- what a draft contains

  ghost function Sizes(m: map<string, Registered>): map<string, nat> {
    map n | n in m :: |m[n].json|
  }

  ghost function ToolBytes(m: map<string, Registered>): nat {
    Sum(Sizes(m))
  }

  lemma ToolBytesWith(m: map<string, Registered>, k: string, r: Registered)
    requires k !in m
    ensures ToolBytes(m[k := r]) == ToolBytes(m) + |r.json|
  {
    assert Sizes(m[k := r]) == Sizes(m)[k := |r.json|];
    SumWith(Sizes(m), k, |r.json|);
  }

  /** Every entry is filed under its own public name, a valid one, and is within the size limit. */
  predicate WellFiled(id: string, m: map<string, Registered>) {
    forall n :: n in m ==>
      m[n].publicName == n && m[n].serverID == id && Naming.ValidPublicName(n) && |m[n].json| <= MAX_DEFINITION_BYTES
  }

  /** The entry a tool gets when it is published. */
  predicate EntryOf(w: World, id: string, t: Tool, c: Naming.Candidate, r: Registered) {
    && c.err.NoError?
    && CloneAndAssignPublicName(w, t, c.publicName).Json?
    && r == Registered(id, t.name, c.publicName, CloneAndAssignPublicName(w, t, c.publicName).text)
  }

  /** Candidates that do not collide have different names outside `claimed`. */
  predicate Separate(cs: seq<Naming.Candidate>, claimed: set<string>) {
    && (forall i :: 0 <= i < |cs| && cs[i].err.NoError? ==>
          cs[i].publicName !in claimed && Naming.ValidPublicName(cs[i].publicName))
    && (forall i, j :: 0 <= i < j < |cs| && cs[i].err.NoError? && cs[j].err.NoError? ==>
          cs[i].publicName != cs[j].publicName)
  }

  lemma OutcomesAreSeparate(hash: Naming.Hash, id: string, originals: seq<string>, claimed: set<string>)
    requires Naming.ValidServerID(id)
    ensures Separate(Naming.Outcomes(hash, id, originals, claimed), claimed)
  {
    var cs := Naming.Outcomes(hash, id, originals, claimed);
    forall i | 0 <= i < |cs| && cs[i].err.NoError?
      ensures cs[i].publicName !in claimed && Naming.ValidPublicName(cs[i].publicName)
    {
      Naming.CandidateNameIsValid(hash, id, originals[i]);
    }
    forall i, j | 0 <= i < j < |cs| && cs[i].err.NoError? && cs[j].err.NoError?
      ensures cs[i].publicName != cs[j].publicName
    {
      Naming.SuccessesAreSound(hash, id, originals, claimed, i, j);
    }
  }

  /** The tool of candidate c went into the draft. */
  predicate Admitted(w: World, id: string, t: Tool, c: Naming.Candidate, others: Others, d: Draft, after: Draft) {
    && c.publicName in after.tools
    && EntryOf(w, id, t, c, after.tools[c.publicName])
    && after == Draft(d.tools[c.publicName := after.tools[c.publicName]], d.rejected,
                      d.bytes + |after.tools[c.publicName].json|)
    && |d.tools| < MAX_TOOLS_PER_SERVER
    && others.count + |d.tools| < MAX_TOTAL_TOOLS
    && others.bytes + after.bytes <= MAX_CATALOG_BYTES
  }

  /** A tool of that name was added to the unpublished ones. */
  predicate Refused(name: string, d: Draft, after: Draft) {
    && after.tools == d.tools && after.bytes == d.bytes
    && |after.rejected| == |d.rejected| + 1
    && after.rejected[..|d.rejected|] == d.rejected
    && after.rejected[|d.rejected|].original == name
  }

  lemma AdmitDecides(w: World, id: string, t: Tool, c: Naming.Candidate, others: Others, d: Draft)
    requires c.original == t.name
    ensures var after := Admit(w, id, t, c, others, d);
      Admitted(w, id, t, c, others, d, after) || Refused(t.name, d, after)
  {
  }

  /** Candidates are listed with the tools they belong to. */
  predicate Aligned(enabled: seq<Tool>, cs: seq<Naming.Candidate>) {
    |enabled| == |cs| && forall i :: 0 <= i < |cs| ==> cs[i].original == enabled[i].name
  }

  /** The entry is the one of tool i, for some i below n. */
  predicate FromTools(w: World, id: string, enabled: seq<Tool>, cs: seq<Naming.Candidate>, n: nat, p: string, r: Registered)
    requires n <= |enabled| == |cs|
  {
    exists i :: 0 <= i < n && cs[i].publicName == p && EntryOf(w, id, enabled[i], cs[i], r)
  }

  /** Everything in the draft is one of the first n tools, under its own name and with its own definition. */
  lemma {:induction false} DraftEntries(w: World, id: string, enabled: seq<Tool>, cs: seq<Naming.Candidate>, others: Others,
                                        start: seq<Unpublished>, n: nat, p: string)
    requires n <= |enabled| && Aligned(enabled, cs)
    ensures var d := AdmitAll(w, id, enabled, cs, others, start, n);
      p in d.tools ==> FromTools(w, id, enabled, cs, n, p, d.tools[p])
  {
    if n > 0 {
      DraftEntries(w, id, enabled, cs, others, start, n - 1, p);
      var d := AdmitAll(w, id, enabled, cs, others, start, n - 1);
      AdmitDecides(w, id, enabled[n - 1], cs[n - 1], others, d);
    }
  }

  lemma DraftIsWellFiled(w: World, id: string, enabled: seq<Tool>, cs: seq<Naming.Candidate>, others: Others,
                         start: seq<Unpublished>, claimed: set<string>, n: nat)
    requires n <= |enabled| && Aligned(enabled, cs) && Separate(cs, claimed)
    ensures var d := AdmitAll(w, id, enabled, cs, others, start, n);
      WellFiled(id, d.tools) && d.tools.Keys !! claimed
  {
    var d := AdmitAll(w, id, enabled, cs, others, start, n);
    forall p | p in d.tools
      ensures d.tools[p].publicName == p && d.tools[p].serverID == id && Naming.ValidPublicName(p)
      ensures |d.tools[p].json| <= MAX_DEFINITION_BYTES && p !in claimed
    {
      DraftEntries(w, id, enabled, cs, others, start, n, p);
    }
  }

  /** The name of the next tool to be admitted is free. */
  lemma NextNameIsFree(w: World, id: string, enabled: seq<Tool>, cs: seq<Naming.Candidate>, others: Others,
                       start: seq<Unpublished>, claimed: set<string>, n: nat)
    requires n < |enabled| && Aligned(enabled, cs) && Separate(cs, claimed)
    ensures cs[n].err.NoError? ==> cs[n].publicName !in AdmitAll(w, id, enabled, cs, others, start, n).tools
  {
    DraftEntries(w, id, enabled, cs, others, start, n, cs[n].publicName);
  }

  /** The limits that the other servers leave room for, and the number of tools seen. */
  ghost predicate WithinLimits(others: Others, d: Draft, seen: nat) {
    && |d.tools| <= MAX_TOOLS_PER_SERVER
    && (others.count <= MAX_TOTAL_TOOLS ==> others.count + |d.tools| <= MAX_TOTAL_TOOLS)
    && d.bytes == ToolBytes(d.tools)
    && (others.bytes <= MAX_CATALOG_BYTES ==> others.bytes + d.bytes <= MAX_CATALOG_BYTES)
    && |d.tools| + |d.rejected| == seen
  }

  lemma AdmitKeepsLimits(w: World, id: string, t: Tool, c: Naming.Candidate, others: Others, d: Draft, seen: nat)
    requires WithinLimits(others, d, seen) && c.original == t.name
    requires c.err.NoError? ==> c.publicName !in d.tools
    ensures WithinLimits(others, Admit(w, id, t, c, others, d), seen + 1)
  {
    var after := Admit(w, id, t, c, others, d);
    AdmitDecides(w, id, t, c, others, d);
    if !Refused(t.name, d, after) {
      ToolBytesWith(d.tools, c.publicName, after.tools[c.publicName]);
    }
  }

  lemma EmptyWithinLimits(others: Others, start: seq<Unpublished>)
    ensures WithinLimits(others, Draft(map[], start, 0), |start|)
  {
    assert Sizes(map[]) == map[];
  }

  lemma StepWithinLimits(w: World, id: string, enabled: seq<Tool>, cs: seq<Naming.Candidate>, others: Others,
                         start: seq<Unpublished>, claimed: set<string>, n: nat)
    requires 0 < n <= |enabled| && Aligned(enabled, cs) && Separate(cs, claimed)
    requires WithinLimits(others, AdmitAll(w, id, enabled, cs, others, start, n - 1), |start| + n - 1)
    ensures WithinLimits(others, AdmitAll(w, id, enabled, cs, others, start, n), |start| + n)
  {
    NextNameIsFree(w, id, enabled, cs, others, start, claimed, n - 1);
    var d := AdmitAll(w, id, enabled, cs, others, start, n - 1);
    AdmitKeepsLimits(w, id, enabled[n - 1], cs[n - 1], others, d, |start| + n - 1);
  }

  lemma {:induction false} DraftWithinLimits(w: World, id: string, enabled: seq<Tool>, cs: seq<Naming.Candidate>, others: Others,
                                             start: seq<Unpublished>, claimed: set<string>, n: nat)
    requires n <= |enabled| && Aligned(enabled, cs) && Separate(cs, claimed)
    ensures WithinLimits(others, AdmitAll(w, id, enabled, cs, others, start, n), |start| + n)
  {
    if n > 0 {
      DraftWithinLimits(w, id, enabled, cs, others, start, claimed, n - 1);
      StepWithinLimits(w, id, enabled, cs, others, start, claimed, n);
    } else {
      EmptyWithinLimits(others, start);
    }
  }

  /** Every unpublished entry names the server. */
  predicate FiledUnder(id: string, us: seq<Unpublished>) {
    forall i :: 0 <= i < |us| ==> us[i].serverID == id
  }

  lemma {:induction false} RejectedAreFiled(w: World, id: string, enabled: seq<Tool>, cs: seq<Naming.Candidate>, others: Others,
                                            start: seq<Unpublished>, n: nat)
    requires n <= |enabled| == |cs| && FiledUnder(id, start)
    ensures FiledUnder(id, AdmitAll(w, id, enabled, cs, others, start, n).rejected)
  {
    if n > 0 {
      RejectedAreFiled(w, id, enabled, cs, others, start, n - 1);
    }
  }

  // ---- which tools are published

  /** The tool has a name of its own and a definition the SDK accepts. */
  predicate Publishable(w: World, t: Tool, c: Naming.Candidate) {
    && c.err.NoError?
    && t.name != "" && ObjectSchema(t.input) && (t.output.Absent? || ObjectSchema(t.output))
    && Encodes(w.encode(t)) && w.register(t) && Encodes(w.rename(t, c.publicName))
  }

  /** The size of the definition as it is published. */
  function PublishedSize(w: World, t: Tool, c: Naming.Candidate): nat {
    if w.rename(t, c.publicName).Json? then |w.rename(t, c.publicName).text| else 0
  }

  /** How many of the first i candidates are in `tools`. */
  function CountIn(cs: seq<Naming.Candidate>, tools: set<string>, i: nat): nat
    requires i <= |cs|
  {
    if i == 0 then 0
    else CountIn(cs, tools, i - 1) + if cs[i - 1].err.NoError? && cs[i - 1].publicName in tools then 1 else 0
  }

  /** The bytes of those. */
  function BytesIn(w: World, enabled: seq<Tool>, cs: seq<Naming.Candidate>, tools: set<string>, i: nat): nat
    requires i <= |enabled| == |cs|
  {
    if i == 0 then 0
    else BytesIn(w, enabled, cs, tools, i - 1)
         + if cs[i - 1].err.NoError? && cs[i - 1].publicName in tools then PublishedSize(w, enabled[i - 1], cs[i - 1]) else 0
  }

  /** There is room for a tool of that size after `count` tools of its server with `bytes` bytes. */
  predicate Room(others: Others, count: nat, bytes: nat, size: nat) {
    count < 512 && others.count + count < 2048 && others.bytes + bytes + size <= 8388608
  }

  /** Why a tool is not published: the first condition that fails. */
  function Because(w: World, t: Tool, c: Naming.Candidate, others: Others, count: nat): Reason {
    if !c.err.NoError? then BadName(c.err)
    else if !Publishable(w, t, c) then
      BadDefinition(if ValidateTool(w, t).Some? then ValidateTool(w, t).value
                    else if w.rename(t, c.publicName).Failed? then w.rename(t, c.publicName).message
                    else "tool definition size exceeds limit")
    else if count >= 512 then ServerFull
    else if others.count + count >= 2048 then CatalogFull
    else CatalogTooLarge
  }

  lemma PublishableIsAccepted(w: World, t: Tool, c: Naming.Candidate)
    requires c.err.NoError?
    ensures CloneAndAssignPublicName(w, t, c.publicName).Json? <==> Publishable(w, t, c)
    ensures Publishable(w, t, c) ==>
      CloneAndAssignPublicName(w, t, c.publicName) == w.rename(t, c.publicName)
      && |w.rename(t, c.publicName).text| == PublishedSize(w, t, c)
  {
    AcceptedExactly(w, t, c.publicName);
  }

  /** One tool: admitted if and only if it is publishable and there is room; otherwise listed with the reason. */
  lemma AdmitExactly(w: World, id: string, t: Tool, c: Naming.Candidate, others: Others, d: Draft)
    requires c.original == t.name
    ensures Admit(w, id, t, c, others, d) ==
      if Publishable(w, t, c) && Room(others, |d.tools|, d.bytes, PublishedSize(w, t, c))
      then Draft(d.tools[c.publicName := Registered(id, t.name, c.publicName, w.rename(t, c.publicName).text)],
                 d.rejected, d.bytes + PublishedSize(w, t, c))
      else d.(rejected := d.rejected + [Unpublished(id, t.name, c.publicName, Because(w, t, c, others, |d.tools|))])
  {
    if c.err.NoError? {
      PublishableIsAccepted(w, t, c);
    }
  }

  /** The unpublished list only grows. */
  lemma {:induction false} RejectedGrow(w: World, id: string, enabled: seq<Tool>, cs: seq<Naming.Candidate>, others: Others,
                                        start: seq<Unpublished>, i: nat, n: nat)
    requires i <= n <= |enabled| && Aligned(enabled, cs)
    ensures AdmitAll(w, id, enabled, cs, others, start, i).rejected <= AdmitAll(w, id, enabled, cs, others, start, n).rejected
    decreases n
  {
    if i < n {
      RejectedGrow(w, id, enabled, cs, others, start, i, n - 1);
      AdmitOnlyAppends(w, id, enabled[n - 1], cs[n - 1], others, AdmitAll(w, id, enabled, cs, others, start, n - 1));
    }
  }

  lemma AdmitOnlyAppends(w: World, id: string, t: Tool, c: Naming.Candidate, others: Others, d: Draft)
    ensures d.rejected <= Admit(w, id, t, c, others, d).rejected
  {
  }

  /** The entry of candidate i is settled at its turn: the tools after it neither add nor change it. */
  lemma {:induction false} SettledAtItsTurn(w: World, id: string, enabled: seq<Tool>, cs: seq<Naming.Candidate>, others: Others,
                                            start: seq<Unpublished>, claimed: set<string>, i: nat, n: nat)
    requires i < n <= |enabled| && Aligned(enabled, cs) && Separate(cs, claimed) && cs[i].err.NoError?
    ensures var early, late := AdmitAll(w, id, enabled, cs, others, start, i + 1), AdmitAll(w, id, enabled, cs, others, start, n);
      var p := cs[i].publicName;
      && (p in late.tools <==> p in early.tools)
      && (p in late.tools ==> late.tools[p] == early.tools[p])
    decreases n
  {
    if i + 1 < n {
      SettledAtItsTurn(w, id, enabled, cs, others, start, claimed, i, n - 1);
      AdmitDecides(w, id, enabled[n - 1], cs[n - 1], others, AdmitAll(w, id, enabled, cs, others, start, n - 1));
      assert cs[n - 1].err.NoError? ==> cs[n - 1].publicName != cs[i].publicName;
    }
  }

  lemma {:induction false} DraftCounts(w: World, id: string, enabled: seq<Tool>, cs: seq<Naming.Candidate>, others: Others,
                                       start: seq<Unpublished>, claimed: set<string>, i: nat)
    requires i <= |enabled| && Aligned(enabled, cs) && Separate(cs, claimed)
    ensures var final := AdmitAll(w, id, enabled, cs, others, start, |enabled|).tools.Keys;
      var d := AdmitAll(w, id, enabled, cs, others, start, i);
      |d.tools| == CountIn(cs, final, i) && d.bytes == BytesIn(w, enabled, cs, final, i)
  {
    if i > 0 {
      DraftCounts(w, id, enabled, cs, others, start, claimed, i - 1);
      NextNameIsFree(w, id, enabled, cs, others, start, claimed, i - 1);
      var d := AdmitAll(w, id, enabled, cs, others, start, i - 1);
      AdmitExactly(w, id, enabled[i - 1], cs[i - 1], others, d);
      if cs[i - 1].err.NoError? {
        SettledAtItsTurn(w, id, enabled, cs, others, start, claimed, i - 1, |enabled|);
      }
    }
  }

  /** There is room for tool i after the ones before it that are published. */
  predicate Fits(w: World, enabled: seq<Tool>, cs: seq<Naming.Candidate>, others: Others, published: set<string>, i: nat)
    requires i < |enabled| == |cs|
  {
    && Publishable(w, enabled[i], cs[i])
    && Room(others, CountIn(cs, published, i), BytesIn(w, enabled, cs, published, i), PublishedSize(w, enabled[i], cs[i]))
  }

  lemma TurnOf(w: World, id: string, enabled: seq<Tool>, cs: seq<Naming.Candidate>, others: Others,
               start: seq<Unpublished>, claimed: set<string>, i: nat)
    requires i < |enabled| && Aligned(enabled, cs) && Separate(cs, claimed)
    ensures var published := AdmitAll(w, id, enabled, cs, others, start, |enabled|).tools.Keys;
      var d, after := AdmitAll(w, id, enabled, cs, others, start, i), AdmitAll(w, id, enabled, cs, others, start, i + 1);
      var p := cs[i].publicName;
      && (cs[i].err.NoError? ==> p !in d.tools)
      && if Fits(w, enabled, cs, others, published, i)
         then after.tools == d.tools[p := Registered(id, enabled[i].name, p, w.rename(enabled[i], p).text)]
         else && after.tools == d.tools
              && after.rejected == d.rejected + [Unpublished(id, enabled[i].name, p, Because(w, enabled[i], cs[i], others, CountIn(cs, published, i)))]
  {
    DraftCounts(w, id, enabled, cs, others, start, claimed, i);
    NextNameIsFree(w, id, enabled, cs, others, start, claimed, i);
    AdmitExactly(w, id, enabled[i], cs[i], others, AdmitAll(w, id, enabled, cs, others, start, i));
  }

  /** Exactly which tools are published, in terms of the published names alone: a candidate
      without a naming error is published if and only if its definition is acceptable and
      there is room after the ones published before it, and then as its own entry. */
  lemma PublishedExactly(w: World, id: string, enabled: seq<Tool>, cs: seq<Naming.Candidate>, others: Others,
                         start: seq<Unpublished>, claimed: set<string>, i: nat)
    requires i < |enabled| && Aligned(enabled, cs) && Separate(cs, claimed) && cs[i].err.NoError?
    ensures var tools := AdmitAll(w, id, enabled, cs, others, start, |enabled|).tools;
      var p := cs[i].publicName;
      && (p in tools <==> Fits(w, enabled, cs, others, tools.Keys, i))
      && (p in tools ==> tools[p] == Registered(id, enabled[i].name, p, w.rename(enabled[i], p).text))
  {
    TurnOf(w, id, enabled, cs, others, start, claimed, i);
    SettledAtItsTurn(w, id, enabled, cs, others, start, claimed, i, |enabled|);
  }

  /** A tool that is not published is listed with the first condition that fails. */
  lemma RefusedBecause(w: World, id: string, enabled: seq<Tool>, cs: seq<Naming.Candidate>, others: Others,
                       start: seq<Unpublished>, claimed: set<string>, i: nat)
    requires i < |enabled| && Aligned(enabled, cs) && Separate(cs, claimed)
    ensures var d := AdmitAll(w, id, enabled, cs, others, start, |enabled|);
      !Fits(w, enabled, cs, others, d.tools.Keys, i) ==>
      Unpublished(id, enabled[i].name, cs[i].publicName, Because(w, enabled[i], cs[i], others, CountIn(cs, d.tools.Keys, i))) in d.rejected
  {
    TurnOf(w, id, enabled, cs, others, start, claimed, i);
    RejectedGrow(w, id, enabled, cs, others, start, i + 1, |enabled|);
    var d, after := AdmitAll(w, id, enabled, cs, others, start, i), AdmitAll(w, id, enabled, cs, others, start, i + 1);
    var final := AdmitAll(w, id, enabled, cs, others, start, |enabled|);
    if |after.rejected| > |d.rejected| {
      assert final.rejected[|d.rejected|] == after.rejected[|d.rejected|];
    }
  }

  // ---- when everything fits

  function PublishableCount(w: World, enabled: seq<Tool>, cs: seq<Naming.Candidate>, i: nat): nat
    requires i <= |enabled| == |cs|
  {
    if i == 0 then 0 else PublishableCount(w, enabled, cs, i - 1) + if Publishable(w, enabled[i - 1], cs[i - 1]) then 1 else 0
  }

  function PublishableBytes(w: World, enabled: seq<Tool>, cs: seq<Naming.Candidate>, i: nat): nat
    requires i <= |enabled| == |cs|
  {
    if i == 0 then 0
    else PublishableBytes(w, enabled, cs, i - 1)
         + if Publishable(w, enabled[i - 1], cs[i - 1]) then PublishedSize(w, enabled[i - 1], cs[i - 1]) else 0
  }

  lemma {:induction false} PublishableGrows(w: World, enabled: seq<Tool>, cs: seq<Naming.Candidate>, i: nat, n: nat)
    requires i <= n <= |enabled| == |cs|
    ensures PublishableCount(w, enabled, cs, i) <= PublishableCount(w, enabled, cs, n)
    ensures PublishableBytes(w, enabled, cs, i) <= PublishableBytes(w, enabled, cs, n)
    decreases n
  {
    if i < n {
      PublishableGrows(w, enabled, cs, i, n - 1);
    }
  }

  lemma {:induction false} OnlyPublishablesCount(w: World, id: string, enabled: seq<Tool>, cs: seq<Naming.Candidate>, others: Others,
                                                 start: seq<Unpublished>, claimed: set<string>, i: nat)
    requires i <= |enabled| && Aligned(enabled, cs) && Separate(cs, claimed)
    ensures var final := AdmitAll(w, id, enabled, cs, others, start, |enabled|).tools.Keys;
      && CountIn(cs, final, i) <= PublishableCount(w, enabled, cs, i)
      && BytesIn(w, enabled, cs, final, i) <= PublishableBytes(w, enabled, cs, i)
  {
    if i > 0 {
      OnlyPublishablesCount(w, id, enabled, cs, others, start, claimed, i - 1);
      if cs[i - 1].err.NoError? {
        PublishedExactly(w, id, enabled, cs, others, start, claimed, i - 1);
      }
    }
  }

  /** If all publishable tools together keep the limits, every one of them is published. */
  lemma EverythingThatFitsIsPublished(w: World, id: string, enabled: seq<Tool>, cs: seq<Naming.Candidate>, others: Others,
                                      start: seq<Unpublished>, claimed: set<string>, i: nat)
    requires i < |enabled| && Aligned(enabled, cs) && Separate(cs, claimed)
    requires PublishableCount(w, enabled, cs, |enabled|) <= 512
    requires others.count + PublishableCount(w, enabled, cs, |enabled|) <= 2048
    requires others.bytes + PublishableBytes(w, enabled, cs, |enabled|) <= 8388608
    requires Publishable(w, enabled[i], cs[i])
    ensures cs[i].publicName in AdmitAll(w, id, enabled, cs, others, start, |enabled|).tools
  {
    OnlyPublishablesCount(w, id, enabled, cs, others, start, claimed, i);
    PublishableGrows(w, enabled, cs, i + 1, |enabled|);
    PublishedExactly(w, id, enabled, cs, others, start, claimed, i);
  }

  // ---- conservation of tools

  /** Which entries publish a tool whose original name is x. */
  ghost function Marks(m: map<string, Registered>, x: string): map<string, nat> {
    map n | n in m :: if m[n].original == x then 1 else 0
  }

  /** How many published tools have the original name x. */
  ghost function PublishedTimes(m: map<string, Registered>, x: string): nat {
    Sum(Marks(m, x))
  }

  function UnpublishedTimes(us: seq<Unpublished>, x: string): nat {
    if us == [] then 0
    else UnpublishedTimes(us[..|us| - 1], x) + if us[|us| - 1].original == x then 1 else 0
  }

  function ListedTimes(tools: seq<Tool>, x: string): nat {
    if tools == [] then 0
    else ListedTimes(tools[..|tools| - 1], x) + if tools[|tools| - 1].name == x then 1 else 0
  }

  lemma AdmitConserves(w: World, id: string, t: Tool, c: Naming.Candidate, others: Others, d: Draft, x: string)
    requires c.original == t.name
    requires c.err.NoError? ==> c.publicName !in d.tools
    ensures var after := Admit(w, id, t, c, others, d);
      PublishedTimes(after.tools, x) + UnpublishedTimes(after.rejected, x) ==
      PublishedTimes(d.tools, x) + UnpublishedTimes(d.rejected, x) + if t.name == x then 1 else 0
  {
    var after := Admit(w, id, t, c, others, d);
    AdmitDecides(w, id, t, c, others, d);
    if !Refused(t.name, d, after) {
      var p := c.publicName;
      var mark: nat := if t.name == x then 1 else 0;
      assert Marks(after.tools, x) == Marks(d.tools, x)[p := mark];
      SumWith(Marks(d.tools, x), p, mark);
    }
  }

  lemma NothingPublished(x: string)
    ensures PublishedTimes(map[], x) == 0
  {
    assert Marks(map[], x) == map[];
  }

  lemma ListedStep(tools: seq<Tool>, n: nat, x: string)
    requires 0 < n <= |tools|
    ensures ListedTimes(tools[..n], x) == ListedTimes(tools[..n - 1], x) + if tools[n - 1].name == x then 1 else 0
  {
    assert tools[..n][..n - 1] == tools[..n - 1];
  }

  /** How often the draft accounts for a tool called x, published or not. */
  ghost function Accounted(d: Draft, x: string): nat {
    PublishedTimes(d.tools, x) + UnpublishedTimes(d.rejected, x)
  }

  lemma StepConserves(w: World, id: string, enabled: seq<Tool>, cs: seq<Naming.Candidate>, others: Others,
                      start: seq<Unpublished>, claimed: set<string>, n: nat, x: string)
    requires 0 < n <= |enabled| && Aligned(enabled, cs) && Separate(cs, claimed)
    ensures Accounted(AdmitAll(w, id, enabled, cs, others, start, n), x) ==
      Accounted(AdmitAll(w, id, enabled, cs, others, start, n - 1), x) + if enabled[n - 1].name == x then 1 else 0
  {
    NextNameIsFree(w, id, enabled, cs, others, start, claimed, n - 1);
    AdmitConserves(w, id, enabled[n - 1], cs[n - 1], others, AdmitAll(w, id, enabled, cs, others, start, n - 1), x);
  }

  lemma StartAccounts(start: seq<Unpublished>, x: string)
    ensures Accounted(Draft(map[], start, 0), x) == UnpublishedTimes(start, x)
  {
    NothingPublished(x);
  }

  /** Each of the first n enabled tools is published once or listed as unpublished once. */
  lemma {:induction false} DraftConservesTools(w: World, id: string, enabled: seq<Tool>, cs: seq<Naming.Candidate>, others: Others,
                                               start: seq<Unpublished>, claimed: set<string>, n: nat, x: string)
    requires n <= |enabled| && Aligned(enabled, cs) && Separate(cs, claimed)
    ensures Accounted(AdmitAll(w, id, enabled, cs, others, start, n), x) ==
      UnpublishedTimes(start, x) + ListedTimes(enabled[..n], x)
  {
    if n > 0 {
      DraftConservesTools(w, id, enabled, cs, others, start, claimed, n - 1, x);
      StepConserves(w, id, enabled, cs, others, start, claimed, n, x);
      ListedStep(enabled, n, x);
    } else {
      StartAccounts(start, x);
    }
  }

  /** No tool is lost or copied by the split into enabled and disabled ones. */
  lemma {:induction false} SplitConservesTools(id: string, tools: seq<Tool>, disabled: seq<string>, x: string)
    ensures ListedTimes(tools, x) == ListedTimes(Select(tools, disabled, false), x)
                                     + UnpublishedTimes(DisabledEntries(id, Select(tools, disabled, true)), x)
    ensures |tools| == |Select(tools, disabled, false)| + |Select(tools, disabled, true)|
  {
    if tools != [] {
      var rest, t := tools[..|tools| - 1], tools[|tools| - 1];
      SplitConservesTools(id, rest, disabled, x);
      var off := Select(rest, disabled, true);
      assert DisabledEntries(id, off + [t]) == DisabledEntries(id, off) + [Unpublished(id, t.name, "", Disabled)];
    }
  }
}
