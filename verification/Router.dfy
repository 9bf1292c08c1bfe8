/** Routing of one tool call (internal/router/router.go) on top of the lease
    provider of internal/manager/manager.go.  What the clients and the
    downstream server do is an input of the call. */
module Router {
  import opened GenerationState
  import Naming

  import opened Options

  datatype Route = Route(serverID: string, original: string)

  /** What the manager knows about one server: coordinator state and current generation. */
  datatype Server = Server(ready: bool, gen: Generation?, hasSession: bool)

  datatype Provider = Provider(stopped: bool, servers: map<string, Server>)

  datatype ContextState = Live | DeadlineExceeded | Canceled

  datatype Answer = CallError | NilResult | Result(isError: bool)

  /** How a downstream call ends: the caller's context, the call's own context, and the answer. */
  datatype Downstream = Downstream(callerDone: bool, callCtx: ContextState, answer: Answer)

  datatype Category = NoCategory | UnavailableCategory | Busy | TimeoutCategory | DownstreamError | InternalError | Cancelled

  datatype Outcome = Success | ToolError | ErrorOutcome

  datatype Reply =
    | InvalidParams
    | UnknownTool
    | Internal
    | Failed(category: Category)
    | CallerCancelled
    | Passed(isError: bool)

  datatype Record = Record(tool: string, serverID: string, outcome: Outcome, category: Category)

  /** Why a lease is refused, or the generation to ask. */
  function Select(p: Provider, id: string): Option<Generation> {
    if p.stopped || id !in p.servers || !p.servers[id].ready || p.servers[id].gen == null then None
    else Some(p.servers[id].gen as Generation)
  }

  /** How the end of a downstream call is reported, in the order the code asks. */
  function Report(d: Downstream): (Reply, Outcome, Category) {
    if d.callerDone then (CallerCancelled, ErrorOutcome, Cancelled)
    else if d.callCtx.DeadlineExceeded? then (Failed(TimeoutCategory), ErrorOutcome, TimeoutCategory)
    else if d.callCtx.Canceled? then (Failed(UnavailableCategory), ErrorOutcome, UnavailableCategory)
    else if d.answer.CallError? then (Failed(DownstreamError), ErrorOutcome, DownstreamError)
    else if d.answer.NilResult? then (Passed(false), Success, NoCategory)
    else if d.answer.isError then (Passed(true), ToolError, DownstreamError)
    else (Passed(false), Success, NoCategory)
  }

  /** The generation that is asked for a lease, if the request gets that far. */
  function Asked(name: string, routes: Option<map<string, Route>>, provider: Option<Provider>): Option<Generation> {
    if Naming.ValidPublicName(name) && routes.Some? && name in routes.value && provider.Some?
    then Select(provider.value, routes.value[name].serverID)
    else None
  }

  /** Why no downstream call is made, given what the generation asked would answer. */
  function Refusal(name: string, routes: Option<map<string, Route>>, provider: Option<Provider>, grant: Grant): Reply {
    if !Naming.ValidPublicName(name) then InvalidParams
    else if routes.None? then Internal
    else if name !in routes.value then UnknownTool
    else if provider.None? then Failed(InternalError)
    else if grant.ConcurrencyLimit? then Failed(Busy)
    else Failed(UnavailableCategory)
  }

  /** The category recorded with a reply; an internal error of a caller that is gone is recorded as cancelled. */
  function RecordedCategory(reply: Reply, callerDone: bool): Category {
    match reply
    case Passed(isError) => if isError then DownstreamError else NoCategory
    case CallerCancelled => Cancelled
    case UnknownTool => UnavailableCategory
    case Failed(c) => if c.InternalError? && callerDone then Cancelled else c
    case _ => if callerDone then Cancelled else InternalError
  }

  function RecordedOutcome(reply: Reply): Outcome {
    if reply.Passed? then if reply.isError then ToolError else Success else ErrorOutcome
  }

  /** Which generation is asked, in the manager's own terms. */
  lemma AskedExactly(name: string, routes: Option<map<string, Route>>, provider: Option<Provider>, g: Generation)
    ensures Asked(name, routes, provider) == Some(g) <==>
      && Naming.ValidPublicName(name) && routes.Some? && name in routes.value
      && provider.Some? && !provider.value.stopped
      && var id := routes.value[name].serverID;
         id in provider.value.servers && provider.value.servers[id].ready && provider.value.servers[id].gen == g
  {
  }

  /** How a call that was made is reported: the caller's own end goes first, then the call's, then the answer. */
  lemma ReportExactly(d: Downstream)
    ensures var r := Report(d);
      && (r.0 == CallerCancelled <==> d.callerDone)
      && (r.0 == Failed(TimeoutCategory) <==> !d.callerDone && d.callCtx.DeadlineExceeded?)
      && (r.0 == Failed(UnavailableCategory) <==> !d.callerDone && d.callCtx.Canceled?)
      && (r.0 == Failed(DownstreamError) <==> !d.callerDone && d.callCtx.Live? && d.answer.CallError?)
      && (r.0 == Passed(true) <==> !d.callerDone && d.callCtx.Live? && d.answer == Result(true))
      && (r.0 == Passed(false) <==> !d.callerDone && d.callCtx.Live? && (d.answer.NilResult? || d.answer == Result(false)))
  {
  }

  /** How a call that was not made is refused. */
  lemma RefusalExactly(name: string, routes: Option<map<string, Route>>, provider: Option<Provider>, grant: Grant)
    ensures var r := Refusal(name, routes, provider, grant);
      var known := Naming.ValidPublicName(name) && routes.Some? && name in routes.value;
      && (r == InvalidParams <==> !Naming.ValidPublicName(name))
      && (r == Internal <==> Naming.ValidPublicName(name) && routes.None?)
      && (r == UnknownTool <==> Naming.ValidPublicName(name) && routes.Some? && name !in routes.value)
      && (r == Failed(InternalError) <==> known && provider.None?)
      && (r == Failed(Busy) <==> known && provider.Some? && grant.ConcurrencyLimit?)
      && (r == Failed(UnavailableCategory) <==> known && provider.Some? && !grant.ConcurrencyLimit?)
  {
  }

  /** The record shows no error exactly for a success, and tells the errors apart as the reply does. */
  lemma RecordExactly(reply: Reply, callerDone: bool)
    ensures (RecordedOutcome(reply).Success? <==> reply == Passed(false)) && (RecordedOutcome(reply).ToolError? <==> reply == Passed(true))
    ensures RecordedCategory(reply, callerDone).NoCategory? <==> reply == Passed(false) || reply == Failed(NoCategory)
    ensures reply == Failed(Busy) ==> RecordedCategory(reply, callerDone).Busy?
    ensures reply == Failed(TimeoutCategory) ==> RecordedCategory(reply, callerDone).TimeoutCategory?
    ensures reply == Failed(UnavailableCategory) || reply == UnknownTool ==> RecordedCategory(reply, callerDone).UnavailableCategory?
    ensures reply == Failed(DownstreamError) || reply == Passed(true) ==> RecordedCategory(reply, callerDone).DownstreamError?
    ensures reply == CallerCancelled ==> RecordedCategory(reply, callerDone).Cancelled?
    ensures reply == Internal || reply == Failed(InternalError) ==>
      RecordedCategory(reply, callerDone) == if callerDone then Cancelled else InternalError
  {
  }

  /** The part of a call that holds a lease, and the refusal when there is none. */
  method CallWithLease(g: Generation, hasSession: bool, original: string, d: Downstream)
    returns (reply: Reply, outcome: Outcome, category: Category, calls: seq<string>)
    requires g.Valid()
    modifies g
    ensures g.Valid() && g.outstanding == old(g.outstanding) && g.active == old(g.active)
    ensures g.admission == old(g.admission) && g.closed == old(g.closed) && g.sessionCloses == old(g.sessionCloses)
    ensures calls == if old(Decide(g.View())).Granted? && hasSession then [original] else []
    ensures calls != [] ==> (reply, outcome, category) == Report(d)
    ensures calls == [] ==> outcome.ErrorOutcome? && reply == Failed(category)
                            && category == if old(Decide(g.View())).ConcurrencyLimit? then Busy else UnavailableCategory
  {
    calls, outcome := [], ErrorOutcome;
    var grant, lease := g.Acquire();
    if !grant.Granted? {
      category := if grant.ConcurrencyLimit? then Busy else UnavailableCategory;
      reply := Failed(category);
      return;
    }
    if !hasSession {
      reply, category := Failed(UnavailableCategory), UnavailableCategory;
    } else {
      calls := [original];
      var report := Report(d);
      reply, outcome, category := report.0, report.1, report.2;
    }
    lease.Release();
  }

  /** One call.  `calls` lists the downstream calls made, in order.  Whatever
      happens, the lease taken is given back, exactly once; the downstream
      server is called at most once, under the routed original name, and only
      with a lease in hand; every request with a valid name leaves one record,
      which the reply determines. */
  method RouteTool(
      name: string, routes: Option<map<string, Route>>, provider: Option<Provider>, callerDone: bool, d: Downstream,
      ghost gens: set<Generation>)
    returns (reply: Reply, record: Option<Record>, calls: seq<string>)
    requires provider.Some? ==> forall id :: id in provider.value.servers && provider.value.servers[id].gen != null ==>
      provider.value.servers[id].gen in gens
    requires forall g :: g in gens ==> g.Valid()
    modifies gens
    ensures forall g :: g in gens ==>
      && g.Valid() && g.outstanding == old(g.outstanding) && g.active == old(g.active)
      && g.admission == old(g.admission) && g.closed == old(g.closed) && g.sessionCloses == old(g.sessionCloses)
    ensures |calls| <= 1
    ensures calls != [] <==>
      && var g := Asked(name, routes, provider);
      g.Some? && old(Decide(g.value.View())).Granted? && provider.value.servers[routes.value[name].serverID].hasSession
    ensures calls != [] ==> calls == [routes.value[name].original] && reply == Report(d).0
    ensures calls == [] ==>
      && var g := Asked(name, routes, provider);
      reply == Refusal(name, routes, provider, if g.Some? then old(Decide(g.value.View())) else NotAdmitting)
    ensures record == if !Naming.ValidPublicName(name) then None
                      else Some(Record(name, if routes.Some? && name in routes.value then routes.value[name].serverID else "",
                                       RecordedOutcome(reply), RecordedCategory(reply, callerDone)))
  {
    calls := [];
    if name == "" || !Naming.ValidPublicName(name) {
      return InvalidParams, None, [];
    }
    var outcome, category, serverID := ErrorOutcome, InternalError, "";
    if routes.None? {
      reply := Internal;
    } else if name !in routes.value {
      reply, category := UnknownTool, UnavailableCategory;
    } else {
      var route := routes.value[name];
      serverID := route.serverID;
      if provider.None? {
        reply := Failed(InternalError);
      } else {
        var selected := Select(provider.value, route.serverID);
        if selected.None? {
          reply, category := Failed(UnavailableCategory), UnavailableCategory;
        } else {
          reply, outcome, category, calls :=
            CallWithLease(selected.value, provider.value.servers[route.serverID].hasSession, route.original, d);
        }
      }
    }
    if callerDone && category.InternalError? {
      category := Cancelled;
    }
    record := Some(Record(name, serverID, outcome, category));
  }
}
