/** The resolved configuration of one downstream server and the classification
    of its edits (internal/config/types.go, internal/manager/coordinator.go). */
module ServerConfig {
  /** What a live session depends on. */
  datatype Connection = Connection(
    enabled: bool,
    kind: string,
    command: string,
    args: seq<string>,
    cwd: string,
    env: map<string, string>,
    url: string,
    headers: map<string, string>,
    startupTimeout: int,
    maxConcurrency: int)

  datatype ResolvedServer = ResolvedServer(
    id: string,
    conn: Connection,
    disabledTools: set<string>,
    callTimeout: int)

  datatype Change = ChangeNone | ChangeToolsOnly | ChangeTimeoutOnly | ChangeToolsAndTimeout | ChangeConnection

  /** The edit that separates two configurations, stated without the comparison order. */
  function Classify(a: ResolvedServer, b: ResolvedServer): Change {
    if a.conn != b.conn then ChangeConnection
    else if a.disabledTools != b.disabledTools && a.callTimeout != b.callTimeout then ChangeToolsAndTimeout
    else if a.disabledTools != b.disabledTools then ChangeToolsOnly
    else if a.callTimeout != b.callTimeout then ChangeTimeoutOnly
    else ChangeNone
  }

  method SlicesEqual(a: seq<string>, b: seq<string>) returns (equal: bool)
    ensures equal <==> a == b
  {
    if |a| != |b| {
      return false;
    }
    for i := 0 to |a|
      invariant a[..i] == b[..i]
    {
      if a[i] != b[i] {
        return false;
      }
    }
    return true;
  }

  lemma SubsetOfSameSize<T>(a: set<T>, b: set<T>)
    requires a <= b && |a| == |b|
    ensures a == b
  {
    assert b == a + (b - a);
  }

  /** Equal sizes and one inclusion suffice, although only `a` is walked. */
  method MapsEqual(a: map<string, string>, b: map<string, string>) returns (equal: bool)
    ensures equal <==> a == b
  {
    if |a| != |b| {
      return false;
    }
    var todo := a.Keys;
    while todo != {}
      invariant todo <= a.Keys
      invariant forall k :: k in a.Keys - todo ==> k in b && b[k] == a[k]
    {
      var k :| k in todo;
      if k !in b || b[k] != a[k] {
        return false;
      }
      todo := todo - {k};
    }
    assert |a.Keys| == |a| && |b.Keys| == |b|;
    SubsetOfSameSize(a.Keys, b.Keys);
    return true;
  }

  method ToolSetsEqual(a: set<string>, b: set<string>) returns (equal: bool)
    ensures equal <==> a == b
  {
    if |a| != |b| {
      return false;
    }
    var todo := a;
    while todo != {}
      invariant todo <= a
      invariant a - todo <= b
    {
      var k :| k in todo;
      if k !in b {
        return false;
      }
      todo := todo - {k};
    }
    SubsetOfSameSize(a, b);
    return true;
  }

  method DiffConfig(old_: ResolvedServer, new_: ResolvedServer) returns (change: Change)
    ensures change == Classify(old_, new_)
  {
    var args := SlicesEqual(old_.conn.args, new_.conn.args);
    var env := MapsEqual(old_.conn.env, new_.conn.env);
    var headers := MapsEqual(old_.conn.headers, new_.conn.headers);
    if || old_.conn.enabled != new_.conn.enabled
       || old_.conn.kind != new_.conn.kind
       || old_.conn.command != new_.conn.command
       || old_.conn.cwd != new_.conn.cwd
       || old_.conn.url != new_.conn.url
       || old_.conn.maxConcurrency != new_.conn.maxConcurrency
       || old_.conn.startupTimeout != new_.conn.startupTimeout
       || !args || !env || !headers
    {
      return ChangeConnection;
    }
    var sameTools := ToolSetsEqual(old_.disabledTools, new_.disabledTools);
    var sameTimeout := old_.callTimeout == new_.callTimeout;
    if !sameTools && !sameTimeout {
      return ChangeToolsAndTimeout;
    }
    if !sameTools {
      return ChangeToolsOnly;
    }
    if !sameTimeout {
      return ChangeTimeoutOnly;
    }
    return ChangeNone;
  }
}
