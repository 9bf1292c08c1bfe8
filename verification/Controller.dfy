/** The reload controller (internal/runtime/controller.go).

    Reading the file, loading (parsing and resolving) its bytes and applying a
    configuration to the manager are inputs of each operation: two reads of the
    file in one operation may return different contents, and an application
    that fails may have changed the manager's servers or not.  Operations hold
    the transaction lock, so they happen one after the other. */
module Controllers {
  type Bytes = string

  import opened Options

  datatype Server = Server(stdio: bool, env: map<string, string>, rest: string)

  type Servers = map<string, Server>

  /** The parts of a resolved configuration that the controller looks at. */
  datatype Resolved = Resolved(
    listen: string, publicMode: string, publicURL: string, allowedHosts: seq<string>, trustedProxies: seq<string>,
    adminEnabled: bool, adminToken: string, adminTimeout: int,
    bearerToken: string, bearerTokens: seq<string>, servers: Servers)

  predicate IsHex(s: string) {
    s != "" && forall i :: 0 <= i < |s| ==> '0' <= s[i] <= '9' || 'a' <= s[i] <= 'f'
  }

  type Hex = s: string | IsHex(s) witness "0"

  datatype Setup = Setup(startup: Option<Resolved>, listen: string, digest: Bytes -> Hex, load: Bytes -> Option<Resolved>)

  datatype ApplyResult = Applied | Stopped | TimedOut

  /** What one operation meets: the file when it is read and when its digest is
      taken again, None when unreadable, and the manager's answer. */
  datatype Io = Io(read: Option<Bytes>, reread: Option<Bytes>, result: ApplyResult)

  datatype Reason = Unavailable | Invalid | ApplyFailed

  datatype Status = Initial | Rejected(reason: Reason) | RestartListen | RestartBound | Reloaded

  datatype View = View(
    current: Option<Resolved>, restartRequired: bool, lastReload: Status,
    applied: string, candidate: string, count: nat, managed: Servers)

  // ---- secrets kept from child processes

  function Secrets(startup: Resolved): seq<string> {
    (if startup.bearerTokens == [] && startup.bearerToken != "" then [startup.bearerToken] else startup.bearerTokens)
    + [startup.adminToken]
  }

  predicate IsSecret(value: string, secrets: seq<string>) {
    value != "" && value in secrets
  }

  function StrippedEnv(env: map<string, string>, secrets: seq<string>): map<string, string> {
    map k | k in env && !IsSecret(env[k], secrets) :: env[k]
  }

  function StrippedServer(srv: Server, secrets: seq<string>): Server {
    if srv.stdio then srv.(env := StrippedEnv(srv.env, secrets)) else srv
  }

  function StrippedServers(servers: Servers, secrets: seq<string>): Servers {
    map id | id in servers :: StrippedServer(servers[id], secrets)
  }

  function Stripped(resolved: Resolved, startup: Option<Resolved>): Resolved {
    if startup.None? then resolved
    else resolved.(servers := StrippedServers(resolved.servers, Secrets(startup.value)))
  }

  /** The loop over the secrets for one value. */
  method Matches(value: string, secrets: seq<string>) returns (found: bool)
    ensures found <==> IsSecret(value, secrets)
  {
    for i := 0 to |secrets|
      invariant forall k :: 0 <= k < i ==> !(secrets[k] != "" && value == secrets[k])
    {
      if secrets[i] != "" && value == secrets[i] {
        return true;
      }
    }
    found := false;
  }

  method StripEnv(env: map<string, string>, secrets: seq<string>) returns (r: map<string, string>)
    ensures r == StrippedEnv(env, secrets)
  {
    r := env;
    var rest := env.Keys;
    while rest != {}
      invariant rest <= env.Keys
      invariant forall k :: k in r <==> k in env && (k in rest || !IsSecret(env[k], secrets))
      invariant forall k :: k in r ==> r[k] == env[k]
      decreases rest
    {
      var k :| k in rest;
      rest := rest - {k};
      var found := Matches(env[k], secrets);
      if found {
        r := r - {k};
      }
    }
  }

  method StripStartupSecrets(resolved: Resolved, startup: Option<Resolved>) returns (r: Resolved)
    ensures r == Stripped(resolved, startup)
  {
    if startup.None? {
      return resolved;
    }
    var secrets := startup.value.bearerTokens;
    if |secrets| == 0 && startup.value.bearerToken != "" {
      secrets := secrets + [startup.value.bearerToken];
    }
    secrets := secrets + [startup.value.adminToken];
    assert secrets == Secrets(startup.value);
    var servers := StripServers(resolved.servers, secrets);
    r := resolved.(servers := servers);
  }

  method StripServers(servers: Servers, secrets: seq<string>) returns (r: Servers)
    ensures r == StrippedServers(servers, secrets)
  {
    r := servers;
    var rest := servers.Keys;
    while rest != {}
      invariant rest <= servers.Keys == r.Keys
      invariant forall id :: id in rest ==> r[id] == servers[id]
      invariant forall id :: id in servers && id !in rest ==> r[id] == StrippedServer(servers[id], secrets)
      decreases rest
    {
      var id :| id in rest;
      rest := rest - {id};
      var srv := servers[id];
      if !srv.stdio || |srv.env| == 0 {
        assert StrippedEnv(srv.env, secrets) == srv.env || !srv.stdio;
        continue;
      }
      var env := StripEnv(srv.env, secrets);
      r := r[id := srv.(env := env)];
    }
  }

  /** No child process is given a startup credential. */
  predicate KeepsSecrets(servers: Servers, secrets: seq<string>) {
    forall id, k :: id in servers && servers[id].stdio && k in servers[id].env ==> !IsSecret(servers[id].env[k], secrets)
  }

  lemma StrippedKeepsSecrets(servers: Servers, secrets: seq<string>)
    ensures KeepsSecrets(StrippedServers(servers, secrets), secrets)
    ensures KeepsSecrets(servers, secrets) ==> StrippedServers(servers, secrets) == servers
  {
    if KeepsSecrets(servers, secrets) {
      forall id | id in servers ensures StrippedServer(servers[id], secrets) == servers[id] {
        if servers[id].stdio {
          assert StrippedEnv(servers[id].env, secrets) == servers[id].env;
        }
      }
    }
  }

  /** Exactly the entries of stdio servers whose value is a credential go; everything else stays. */
  lemma StrippedExactly(servers: Servers, secrets: seq<string>, id: string)
    requires id in servers
    ensures var before, after := servers[id], StrippedServers(servers, secrets)[id];
      && after.stdio == before.stdio && after.rest == before.rest
      && (forall k :: k in after.env <==> k in before.env && !(before.stdio && IsSecret(before.env[k], secrets)))
      && (forall k :: k in after.env ==> after.env[k] == before.env[k])
    ensures StrippedServers(servers, secrets).Keys == servers.Keys
  {
  }

  // ---- the operations as functions of the controller's fields

  /** A startup credential would become an MCP token. */
  predicate Leaks(x: Setup, resolved: Resolved) {
    && x.startup.Some? && x.startup.value.adminEnabled
    && IsSecret(x.startup.value.adminToken, [resolved.bearerToken] + resolved.bearerTokens)
  }

  predicate BoundChanged(x: Setup, r: Resolved) {
    && x.startup.Some?
    && var s := x.startup.value;
    || r.publicMode != s.publicMode || r.publicURL != s.publicURL || r.allowedHosts != s.allowedHosts
    || r.trustedProxies != s.trustedProxies || r.adminEnabled != s.adminEnabled || r.adminToken != s.adminToken
    || r.adminTimeout != s.adminTimeout
  }

  predicate RestartNeeded(x: Setup, r: Resolved) {
    r.listen != x.listen || BoundChanged(x, r)
  }

  function Reject(v: View, reason: Reason): View {
    v.(lastReload := Rejected(reason), candidate := "", count := 0)
  }

  /** The file still has the digest of the bytes that were loaded, and no credential leaks. */
  predicate Admissible(x: Setup, io: Io, resolved: Resolved, d: string) {
    io.reread.Some? && x.digest(io.reread.value) == d && !Leaks(x, resolved)
  }

  function Installed(x: Setup, v: View, resolved: Resolved, d: string): View {
    var r := Stripped(resolved, x.startup);
    View(Some(r), RestartNeeded(x, r),
         if BoundChanged(x, r) then RestartBound else if RestartNeeded(x, r) then RestartListen else Reloaded,
         d, "", 0, r.servers)
  }

  function AfterApply(x: Setup, v: View, io: Io, resolved: Resolved, d: string): View {
    if !Admissible(x, io, resolved, d) || io.result.Stopped? then Reject(v, ApplyFailed)
    else if io.result.TimedOut? then Reject(v.(managed := Stripped(resolved, x.startup).servers), ApplyFailed)
    else Installed(x, v, resolved, d)
  }

  function AfterLoad(x: Setup, v: View, io: Io, data: Bytes): View {
    if x.load(data).None? then Reject(v, Invalid) else AfterApply(x, v, io, x.load(data).value, x.digest(data))
  }

  function AfterReload(x: Setup, v: View, io: Io): View {
    if io.read.None? then Reject(v, Unavailable) else AfterLoad(x, v, io, io.read.value)
  }

  /** The reload reported no error. */
  predicate ReloadSucceeds(x: Setup, io: Io) {
    && io.read.Some? && x.load(io.read.value).Some?
    && Admissible(x, io, x.load(io.read.value).value, x.digest(io.read.value)) && io.result.Applied?
  }

  function Observed(v: View, d: string): View {
    if d == v.applied then v.(candidate := "", count := 0)
    else if d != v.candidate then v.(candidate := d, count := 1)
    else v.(count := v.count + 1)
  }

  predicate Stable(v: View, d: string) {
    d != v.applied && d == v.candidate && v.count >= 1
  }

  function AfterPoll(x: Setup, v: View, io: Io): View {
    if io.read.None? then Reject(v, Unavailable)
    else
      var d := x.digest(io.read.value);
      if Stable(v, d) then AfterLoad(x, Observed(v, d), io, io.read.value) else Observed(v, d)
  }

  // ---- the object

  class Controller {
    const setup: Setup
    var current: Option<Resolved>
    var restartRequired: bool
    var lastReload: Status
    var applied: string
    var candidate: string
    var count: nat
    var managed: Servers

    ghost function Value(): View
      reads this
    {
      View(current, restartRequired, lastReload, applied, candidate, count, managed)
    }

    /** `file` is what the configuration file held at the start. */
    constructor (x: Setup, file: Option<Bytes>, servers: Servers)
      ensures setup == x
      ensures Value() == View(x.startup, false, Initial, if file.Some? then x.digest(file.value) else "", "", 0, servers)
    {
      setup, current, restartRequired, lastReload := x, x.startup, false, Initial;
      applied := if file.Some? then x.digest(file.value) else "";
      candidate, count, managed := "", 0, servers;
    }

    method RejectWith(reason: Reason)
      modifies this
      ensures Value() == Reject(old(Value()), reason)
    {
      lastReload, candidate, count := Rejected(reason), "", 0;
    }

    method Apply(resolved: Resolved, d: string, io: Io) returns (ok: bool)
      modifies this
      ensures ok <==> Admissible(setup, io, resolved, d) && io.result.Applied?
      ensures ok ==> Value() == AfterApply(setup, old(Value()), io, resolved, d)
      ensures !ok ==> Reject(Value(), ApplyFailed) == AfterApply(setup, old(Value()), io, resolved, d)
    {
      if io.reread.None? || setup.digest(io.reread.value) != d {
        return false;
      }
      if setup.startup.Some? && setup.startup.value.adminEnabled {
        var leaks := Matches(setup.startup.value.adminToken, [resolved.bearerToken] + resolved.bearerTokens);
        if leaks {
          return false;
        }
      }
      var r := StripStartupSecrets(resolved, setup.startup);
      if io.result.Stopped? {
        return false;
      }
      managed := r.servers;
      if io.result.TimedOut? {
        return false;
      }
      var bound := BoundChanged(setup, r);
      restartRequired := r.listen != setup.listen || bound;
      if restartRequired {
        lastReload := if bound then RestartBound else RestartListen;
      } else {
        lastReload := Reloaded;
      }
      current, applied, candidate, count := Some(r), d, "", 0;
      ok := true;
    }

    method Load(data: Bytes, io: Io) returns (ok: bool)
      modifies this
      ensures Value() == AfterLoad(setup, old(Value()), io, data)
      ensures ok <==> setup.load(data).Some?
                      && Admissible(setup, io, setup.load(data).value, setup.digest(data)) && io.result.Applied?
    {
      if setup.load(data).None? {
        RejectWith(Invalid);
        return false;
      }
      ok := Apply(setup.load(data).value, setup.digest(data), io);
      if !ok {
        RejectWith(ApplyFailed);
      }
    }

    method ReloadNow(io: Io) returns (ok: bool)
      modifies this
      ensures Value() == AfterReload(setup, old(Value()), io)
      ensures ok <==> ReloadSucceeds(setup, io)
    {
      if io.read.None? {
        RejectWith(Unavailable);
        return false;
      }
      ok := Load(io.read.value, io);
    }

    method ObserveCandidate(d: string) returns (stable: bool)
      requires d != ""
      modifies this
      ensures Value() == Observed(old(Value()), d)
      ensures old(count) <= 1 && (old(candidate) == "" <==> old(count) == 0) ==> (stable <==> Stable(old(Value()), d))
    {
      if d == applied {
        candidate, count := "", 0;
        return false;
      }
      if d != candidate {
        candidate, count := d, 1;
        return false;
      }
      count := count + 1;
      stable := count >= 2;
    }

    method Poll(io: Io)
      requires count <= 1 && (candidate == "" <==> count == 0)
      modifies this
      ensures Value() == AfterPoll(setup, old(Value()), io)
      ensures count <= 1 && (candidate == "" <==> count == 0)
    {
      if io.read.None? {
        RejectWith(Unavailable);
        return;
      }
      var stable := ObserveCandidate(setup.digest(io.read.value));
      if stable {
        var _ := Load(io.read.value, io);
      }
    }
  }
}

/** What holds after any sequence of polls and reloads; a transaction's reloads are reloads. */
module ControllerRuns {
  import opened Controllers
  import opened Options

  datatype Op = PollOp(io: Io) | ReloadOp(io: Io)

  function After(x: Setup, v: View, op: Op): View {
    match op
    case PollOp(io) => AfterPoll(x, v, io)
    case ReloadOp(io) => AfterReload(x, v, io)
  }

  /** The controller after the operations, in order. */
  function Replay(x: Setup, start: View, ops: seq<Op>): View {
    if ops == [] then start else After(x, Replay(x, start, ops[..|ops| - 1]), ops[|ops| - 1])
  }

  /** A new controller. */
  predicate Fresh(x: Setup, v: View) {
    v.current == x.startup && !v.restartRequired && v.candidate == "" && v.count == 0
  }

  predicate Samples(x: Setup, op: Op, d: string) {
    op.PollOp? && op.io.read.Some? && x.digest(op.io.read.value) == d
  }

  /** Whenever the lock is free the count is at most 1, and a candidate is what the very last operation, a poll, sampled. */
  lemma {:induction false} CandidateWasJustSampled(x: Setup, start: View, ops: seq<Op>)
    requires Fresh(x, start)
    ensures var v := Replay(x, start, ops);
      && v.count <= 1 && (v.candidate == "" <==> v.count == 0)
      && (v.count == 1 ==> ops != [] && Samples(x, ops[|ops| - 1], v.candidate) && v.candidate != v.applied)
  {
    if ops != [] {
      CandidateWasJustSampled(x, start, ops[..|ops| - 1]);
    }
  }

  /** What an application changes. */
  predicate Untouched(v: View, v': View) {
    && v'.current == v.current && v'.applied == v.applied
    && v'.restartRequired == v.restartRequired && v'.managed == v.managed
  }

  /** A poll that touches the running configuration or the manager sampled a
      digest that the operation right before it, also a poll, had sampled. */
  lemma PollAppliesOnlyStableContents(x: Setup, start: View, ops: seq<Op>, io: Io)
    requires Fresh(x, start)
    requires !Untouched(Replay(x, start, ops), After(x, Replay(x, start, ops), PollOp(io)))
    ensures io.read.Some? && ops != [] && Samples(x, ops[|ops| - 1], x.digest(io.read.value))
    ensures x.digest(io.read.value) != Replay(x, start, ops).applied
    ensures io.reread.Some? && x.digest(io.reread.value) == x.digest(io.read.value)
  {
    CandidateWasJustSampled(x, start, ops);
  }

  predicate Succeeds(x: Setup, v: View, op: Op) {
    && ReloadSucceeds(x, op.io)
    && (op.PollOp? ==> Stable(v, x.digest(op.io.read.value)))
  }

  /** An operation that does not succeed leaves the configuration, its digest and
      the restart flag alone, and a success installs exactly the contents read. */
  lemma OnlySuccessInstalls(x: Setup, v: View, op: Op)
    ensures var v' := After(x, v, op);
      if Succeeds(x, v, op) then
        && v'.applied == x.digest(op.io.read.value)
        && v'.current == Some(Stripped(x.load(op.io.read.value).value, x.startup))
        && v'.managed == v'.current.value.servers
        && (v'.restartRequired <==> RestartNeeded(x, v'.current.value))
      else v'.current == v.current && v'.applied == v.applied && v'.restartRequired == v.restartRequired
  {
  }

  /** Some operation of the run succeeded. */
  predicate SomeSuccess(x: Setup, start: View, ops: seq<Op>) {
    ops != [] && (
      || SomeSuccess(x, start, ops[..|ops| - 1])
      || Succeeds(x, Replay(x, start, ops[..|ops| - 1]), ops[|ops| - 1]))
  }

  /** The restart flag is a function of the startup configuration and the last configuration applied. */
  lemma {:induction false} RestartFlagFollowsLastApplied(x: Setup, start: View, ops: seq<Op>)
    requires Fresh(x, start)
    ensures var v := Replay(x, start, ops);
      if SomeSuccess(x, start, ops) then v.current.Some? && (v.restartRequired <==> RestartNeeded(x, v.current.value))
      else !v.restartRequired && v.current == x.startup && v.applied == start.applied
  {
    if ops != [] {
      RestartFlagFollowsLastApplied(x, start, ops[..|ops| - 1]);
      OnlySuccessInstalls(x, Replay(x, start, ops[..|ops| - 1]), ops[|ops| - 1]);
    }
  }

  /** The MCP tokens the hub accepts at the moment. */
  function ActiveTokens(current: Option<Resolved>): seq<string> {
    if current.None? then []
    else if current.value.bearerTokens != [] then current.value.bearerTokens
    else if current.value.bearerToken != "" then [current.value.bearerToken]
    else []
  }

  /** Resolving a configuration demands a credential for an enabled console that is no MCP token. */
  predicate DistinctCredentials(r: Resolved) {
    r.adminEnabled ==>
      && r.adminToken != ""
      && r.adminToken != r.bearerToken && r.adminToken !in r.bearerTokens
  }

  /** The credential of the running console never becomes an MCP token, whatever the file says later. */
  lemma {:induction false} AdminTokenIsNeverActive(x: Setup, start: View, ops: seq<Op>)
    requires Fresh(x, start) && x.startup.Some? && x.startup.value.adminEnabled && DistinctCredentials(x.startup.value)
    ensures x.startup.value.adminToken !in ActiveTokens(Replay(x, start, ops).current)
  {
    if ops != [] {
      var before, op := Replay(x, start, ops[..|ops| - 1]), ops[|ops| - 1];
      AdminTokenIsNeverActive(x, start, ops[..|ops| - 1]);
      OnlySuccessInstalls(x, before, op);
      if Succeeds(x, before, op) {
        var r := x.load(op.io.read.value).value;
        assert x.startup.value.adminToken !in [r.bearerToken] + r.bearerTokens;
        assert ActiveTokens(Some(Stripped(r, x.startup))) <= [r.bearerToken] + r.bearerTokens
               || ActiveTokens(Some(Stripped(r, x.startup))) == r.bearerTokens;
      }
    }
  }

  /** The credentials kept from child processes are the admin token and the MCP tokens that were active at startup. */
  lemma SecretsExactly(startup: Resolved, value: string)
    ensures IsSecret(value, Secrets(startup)) <==>
      value != "" && (value == startup.adminToken || value in ActiveTokens(Some(startup)))
  {
  }

  /** The configuration without the parts that can change while the process runs. */
  function Bound(r: Resolved): Resolved {
    r.(listen := "", bearerToken := "", bearerTokens := [], servers := map[])
  }

  /** No restart is needed exactly when the configuration differs from the startup one in the
      MCP tokens and the servers alone and listens where the process does. */
  lemma RestartNeededExactly(x: Setup, r: Resolved)
    ensures !RestartNeeded(x, r) <==> r.listen == x.listen && (x.startup.Some? ==> Bound(r) == Bound(x.startup.value))
    ensures RestartNeeded(x, Stripped(r, x.startup)) <==> RestartNeeded(x, r)
  {
  }

  /** A reload succeeds exactly when the file can be read and loads, still has the same digest,
      passes no admin credential on as an MCP token, and the manager applies it. */
  lemma ReloadSucceedsExactly(x: Setup, io: Io)
    ensures ReloadSucceeds(x, io) <==>
      && io.read.Some? && x.load(io.read.value).Some?
      && io.reread.Some? && x.digest(io.reread.value) == x.digest(io.read.value)
      && io.result.Applied?
      && var r := x.load(io.read.value).value;
         !(&& x.startup.Some? && x.startup.value.adminEnabled && x.startup.value.adminToken != ""
           && (r.bearerToken == x.startup.value.adminToken || x.startup.value.adminToken in r.bearerTokens))
  {
    if io.read.Some? && x.load(io.read.value).Some? && x.startup.Some? {
      var r := x.load(io.read.value).value;
      assert x.startup.value.adminToken in [r.bearerToken] + r.bearerTokens <==>
        r.bearerToken == x.startup.value.adminToken || x.startup.value.adminToken in r.bearerTokens;
    }
  }

  /** The status says how the last reload ended. */
  lemma ReloadStatusExactly(x: Setup, v: View, io: Io)
    ensures var status := AfterReload(x, v, io).lastReload;
      && (status == Rejected(Unavailable) <==> io.read.None?)
      && (status == Rejected(Invalid) <==> io.read.Some? && x.load(io.read.value).None?)
      && (status == Rejected(ApplyFailed) <==> io.read.Some? && x.load(io.read.value).Some? && !ReloadSucceeds(x, io))
      && (status == Reloaded <==> ReloadSucceeds(x, io) && !RestartNeeded(x, x.load(io.read.value).value))
      && (status == RestartBound <==>
            ReloadSucceeds(x, io) && x.startup.Some? && Bound(x.load(io.read.value).value) != Bound(x.startup.value))
  {
    if io.read.Some? && x.load(io.read.value).Some? {
      RestartNeededExactly(x, x.load(io.read.value).value);
    }
  }

  /** Two polls in a row that find the same new contents apply them, if the second could reload
      them: exactly unless the first one acted on them already and failed. */
  lemma TwoPollsApply(x: Setup, start: View, ops: seq<Op>, first: Io, second: Io)
    requires Fresh(x, start)
    requires first.read.Some? && second.read.Some? && x.digest(first.read.value) == x.digest(second.read.value)
    requires ReloadSucceeds(x, second) && Replay(x, start, ops).applied != x.digest(second.read.value)
    ensures var v := Replay(x, start, ops);
      var v'' := After(x, After(x, v, PollOp(first)), PollOp(second));
      v''.applied == x.digest(second.read.value) <==>
        v.candidate != x.digest(second.read.value) || ReloadSucceeds(x, first)
  {
    CandidateWasJustSampled(x, start, ops);
    var v := Replay(x, start, ops);
    OnlySuccessInstalls(x, v, PollOp(first));
    OnlySuccessInstalls(x, After(x, v, PollOp(first)), PollOp(second));
  }

  // ---- the manager's servers

  /** The operation gets as far as handing its configuration to a running manager. */
  predicate Reaches(x: Setup, v: View, op: Op) {
    && op.io.read.Some? && x.load(op.io.read.value).Some?
    && Admissible(x, op.io, x.load(op.io.read.value).value, x.digest(op.io.read.value)) && !op.io.result.Stopped?
    && (op.PollOp? ==> Stable(v, x.digest(op.io.read.value)))
  }

  /** The servers an operation hands over. */
  function Handed(x: Setup, op: Op): Servers
    requires op.io.read.Some? && x.load(op.io.read.value).Some?
  {
    Stripped(x.load(op.io.read.value).value, x.startup).servers
  }

  /** The manager's servers change by nothing but a configuration handed over. */
  lemma ManagedIsHanded(x: Setup, v: View, op: Op)
    ensures After(x, v, op).managed == if Reaches(x, v, op) then Handed(x, op) else v.managed
  {
  }

  /** When a failed operation nevertheless changed the manager: exactly when the
      manager ran into its deadline after taking over servers that differ. */
  lemma FailureChangesManagerExactly(x: Setup, v: View, op: Op)
    requires !Succeeds(x, v, op)
    ensures After(x, v, op).managed != v.managed <==>
      Reaches(x, v, op) && op.io.result.TimedOut? && Handed(x, op) != v.managed
  {
    ManagedIsHanded(x, v, op);
  }

  /** An instance: a reload that fails and changes the manager. */
  lemma FailedApplyMayChangeManager(x: Setup, v: View, data: Bytes)
    requires x.load(data).Some? && !Leaks(x, x.load(data).value)
    requires Stripped(x.load(data).value, x.startup).servers != v.managed
    ensures var op := ReloadOp(Io(Some(data), Some(data), TimedOut));
      !Succeeds(x, v, op) && After(x, v, op).managed != v.managed && After(x, v, op).applied == v.applied
  {
    FailureChangesManagerExactly(x, v, ReloadOp(Io(Some(data), Some(data), TimedOut)));
  }

  /** The startup credentials; none when there was no startup configuration. */
  function Credentials(x: Setup): seq<string> {
    if x.startup.Some? then Secrets(x.startup.value) else []
  }

  lemma HandedKeepsSecrets(x: Setup, op: Op)
    requires op.io.read.Some? && x.load(op.io.read.value).Some?
    ensures KeepsSecrets(Handed(x, op), Credentials(x))
  {
    if x.startup.Some? {
      StrippedKeepsSecrets(x.load(op.io.read.value).value.servers, Secrets(x.startup.value));
    }
  }

  /** Some operation of the run reached the manager. */
  predicate SomeReach(x: Setup, start: View, ops: seq<Op>) {
    ops != [] && (
      || SomeReach(x, start, ops[..|ops| - 1])
      || Reaches(x, Replay(x, start, ops[..|ops| - 1]), ops[|ops| - 1]))
  }

  /** A stdio server has no startup credential in its environment exactly when an
      operation reached the manager or the servers applied at startup, which are
      not stripped, had none. */
  lemma {:induction false} ManagedServersKeepSecretsExactly(x: Setup, start: View, ops: seq<Op>)
    ensures KeepsSecrets(Replay(x, start, ops).managed, Credentials(x)) <==>
      SomeReach(x, start, ops) || KeepsSecrets(start.managed, Credentials(x))
  {
    if ops != [] {
      var before, op := Replay(x, start, ops[..|ops| - 1]), ops[|ops| - 1];
      ManagedServersKeepSecretsExactly(x, start, ops[..|ops| - 1]);
      ManagedIsHanded(x, before, op);
      if Reaches(x, before, op) {
        HandedKeepsSecrets(x, op);
      }
    }
  }

  /** The failing case: a startup configuration that passes a credential on in a
      server's own environment, applied as it is. */
  lemma StartupMayPassCredentials(x: Setup, token: string, applied: string)
    requires x.startup == Some(PassesOn(token)) && token != ""
    ensures var start := View(x.startup, false, Initial, applied, "", 0, PassesOn(token).servers);
      Fresh(x, start) && DistinctCredentials(PassesOn(token)) && !KeepsSecrets(Replay(x, start, []).managed, Credentials(x))
  {
    var servers := PassesOn(token).servers;
    assert "a" in servers && servers["a"].stdio && "T" in servers["a"].env && servers["a"].env["T"] == token;
    assert token in Credentials(x);
  }

  /** One stdio server that is given the MCP token in its environment. */
  function PassesOn(token: string): Resolved {
    Resolved("", "", "", [], [], false, "", 0, token, [token], map["a" := Server(true, map["T" := token], "")])
  }
}
