/** Redaction of a configuration for display and restoration of the redacted
    values when it comes back (internal/admin/admin.go: redactConfig,
    mergeSecrets, putServerLocked). */
module AdminSecrets {
  const SENTINEL := "__MCP_HUB_SECRET_SET__"

  import opened Options

  type Values = map<string, string>

  datatype Server = Server(env: Values, headers: Values, rest: string)

  datatype Config = Config(bearerToken: string, bearerTokens: seq<string>, adminToken: string, servers: map<string, Server>, rest: string)

  // ---- redaction, in place

  function Hidden(values: Values): Values {
    map k | k in values :: SENTINEL
  }

  function HiddenServer(s: Server): Server {
    s.(env := Hidden(s.env), headers := Hidden(s.headers))
  }

  function HiddenText(s: string): string {
    if s == "" then "" else SENTINEL
  }

  /** What a redacted configuration looks like. */
  predicate IsRedacted(cfg: Config, shown: Config) {
    && shown.bearerToken == HiddenText(cfg.bearerToken)
    && shown.adminToken == HiddenText(cfg.adminToken)
    && |shown.bearerTokens| == |cfg.bearerTokens|
    && (forall i :: 0 <= i < |shown.bearerTokens| ==> shown.bearerTokens[i] == SENTINEL)
    && shown.servers == (map id | id in cfg.servers :: HiddenServer(cfg.servers[id]))
    && shown.rest == cfg.rest
  }

  method HideValues(values: Values) returns (r: Values)
    ensures r == Hidden(values)
  {
    r := values;
    var rest := values.Keys;
    while rest != {}
      invariant rest <= values.Keys == r.Keys
      invariant forall k :: k in values && k !in rest ==> r[k] == SENTINEL
      decreases rest
    {
      var k :| k in rest;
      rest := rest - {k};
      r := r[k := SENTINEL];
    }
  }

  method RedactServers(servers: map<string, Server>) returns (r: map<string, Server>)
    ensures r == map id | id in servers :: HiddenServer(servers[id])
  {
    r := servers;
    var rest := servers.Keys;
    while rest != {}
      invariant rest <= servers.Keys == r.Keys
      invariant forall id :: id in rest ==> r[id] == servers[id]
      invariant forall id :: id in servers && id !in rest ==> r[id] == HiddenServer(servers[id])
      decreases rest
    {
      var id :| id in rest;
      rest := rest - {id};
      var env := HideValues(servers[id].env);
      var headers := HideValues(servers[id].headers);
      r := r[id := servers[id].(env := env, headers := headers)];
    }
  }

  method RedactConfig(cfg: Config) returns (shown: Config)
    ensures IsRedacted(cfg, shown)
  {
    shown := cfg;
    if shown.bearerToken != "" {
      shown := shown.(bearerToken := SENTINEL);
    }
    var tokens := cfg.bearerTokens;
    for i := 0 to |tokens|
      invariant |tokens| == |cfg.bearerTokens|
      invariant forall k :: 0 <= k < i ==> tokens[k] == SENTINEL
    {
      tokens := tokens[i := SENTINEL];
    }
    shown := shown.(bearerTokens := tokens);
    if shown.adminToken != "" {
      shown := shown.(adminToken := SENTINEL);
    }
    var servers := RedactServers(cfg.servers);
    shown := shown.(servers := servers);
  }

  /** Equal up to the values of secrets. */
  predicate SameShape(a: Config, b: Config) {
    && (a.bearerToken == "" <==> b.bearerToken == "") && (a.adminToken == "" <==> b.adminToken == "")
    && |a.bearerTokens| == |b.bearerTokens| && a.rest == b.rest
    && a.servers.Keys == b.servers.Keys
    && forall id :: id in a.servers ==>
         && a.servers[id].env.Keys == b.servers[id].env.Keys
         && a.servers[id].headers.Keys == b.servers[id].headers.Keys
         && a.servers[id].rest == b.servers[id].rest
  }

  /** What is shown does not depend on the secrets: configurations that differ
      only in them are shown alike, and only those. */
  lemma ShownAlikeExactlyUpToSecrets(a: Config, b: Config, shownA: Config, shownB: Config)
    requires IsRedacted(a, shownA) && IsRedacted(b, shownB)
    ensures shownA == shownB <==> SameShape(a, b)
  {
    if SameShape(a, b) {
      forall id | id in a.servers ensures HiddenServer(a.servers[id]) == HiddenServer(b.servers[id]) {
        assert Hidden(a.servers[id].env) == Hidden(b.servers[id].env);
        assert Hidden(a.servers[id].headers) == Hidden(b.servers[id].headers);
      }
      assert shownA.servers == shownB.servers;
      assert shownA.bearerTokens == shownB.bearerTokens;
    }
    if shownA == shownB {
      assert shownA.servers.Keys == a.servers.Keys && shownB.servers.Keys == b.servers.Keys;
      forall id | id in a.servers
        ensures id in b.servers && a.servers[id].env.Keys == b.servers[id].env.Keys
        ensures a.servers[id].headers.Keys == b.servers[id].headers.Keys && a.servers[id].rest == b.servers[id].rest
      {
        assert shownA.servers[id] == HiddenServer(a.servers[id]) == HiddenServer(b.servers[id]);
        assert Hidden(a.servers[id].env).Keys == a.servers[id].env.Keys;
        assert Hidden(b.servers[id].env).Keys == b.servers[id].env.Keys;
        assert Hidden(a.servers[id].headers).Keys == a.servers[id].headers.Keys;
        assert Hidden(b.servers[id].headers).Keys == b.servers[id].headers.Keys;
      }
    }
  }

  // ---- restoration

  /** A sentinel stands for the existing value, if there is one; everything else is taken as sent. */
  function Merged(existing: Values, incoming: Values): Values {
    map k | k in incoming && (incoming[k] != SENTINEL || k in existing) ::
      if incoming[k] == SENTINEL then existing[k] else incoming[k]
  }

  /** An absent map stays absent. */
  method MergeSecrets(existing: Values, incoming: Option<Values>) returns (r: Option<Values>)
    ensures r == if incoming.None? then None else Some(Merged(existing, incoming.value))
  {
    if incoming.None? {
      return None;
    }
    var out: Values := map[];
    var rest := incoming.value.Keys;
    while rest != {}
      invariant rest <= incoming.value.Keys
      invariant forall k :: k in out <==> k in Merged(existing, incoming.value) && k !in rest
      invariant forall k :: k in out ==> out[k] == Merged(existing, incoming.value)[k]
      decreases rest
    {
      var k :| k in rest;
      rest := rest - {k};
      var value := incoming.value[k];
      if value == SENTINEL {
        if k in existing {
          out := out[k := existing[k]];
        }
      } else {
        out := out[k := value];
      }
    }
    assert out == Merged(existing, incoming.value);
    r := Some(out);
  }

  /** Saving what is shown, unchanged, restores every secret. */
  lemma ShownValuesRestore(existing: Values)
    ensures Merged(existing, Hidden(existing)) == existing
  {
  }

  /** A sentinel survives only where it is the stored value; a client can never store one it did not find. */
  lemma NoSentinelIsStored(existing: Values, incoming: Values, k: string)
    requires k in Merged(existing, incoming) && Merged(existing, incoming)[k] == SENTINEL
    ensures k in existing && existing[k] == SENTINEL && incoming[k] == SENTINEL
  {
  }

  /** An edit of one value touches that value alone. */
  lemma EditTouchesOneValue(existing: Values, k: string, value: string)
    requires value != SENTINEL
    ensures Merged(existing, Hidden(existing)[k := value]) == existing[k := value]
    ensures Merged(existing, Hidden(existing) - {k}) == existing - {k}
  {
  }
}
