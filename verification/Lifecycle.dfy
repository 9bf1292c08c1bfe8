/** The coordinator of one downstream server as a transition system
    (internal/manager/coordinator.go).

    A step is one critical section under `mu`, one channel operation or one
    call out.  `publishMu` is explicit, because it is held across several
    steps; `mu` is not, because every section under it is one step.  The run
    goroutine has a program counter, and so have the caller of `UpdateConfig`
    (serialised by the manager) and the one `Stop` that gets past the
    `stopped` test.  Network and catalog calls succeed or fail at will. */
module Lifecycle {
  import opened ServerConfig

  import opened Options

  datatype Desired = Desired(rev: nat, cfg: ResolvedServer)

  datatype Status = Disabled | Connecting | Ready | Unavailable | Backoff | Draining | Closed

  /** closeOnce of a generation: not entered, body running, body finished. */
  datatype Latch = Open | Closing | Shut

  datatype Generation = Generation(from: Desired, session: nat, admission: bool, latch: Latch, callTimeout: int)

  datatype Holder = Free | HeldByRun | HeldByUpdate

  /** The three waits inside `drain` followed by `Close`. */
  datatype Stage = BeforeDrain | BeforeClose | AwaitClose

  /** run and handleDisabled. */
  datatype OuterPc =
    | Top
    | DisabledEnter
    | DisabledRemove(old_: Option<nat>)
    | DisabledRetire(g: nat, stage: Stage)
    | DisabledWait
    | ConnectEnter
    | Finished

  /** handleConnectingAndReady before a session exists, and handleConnectFailure. */
  datatype AttemptPc =
    | TakeOld
    | OldRetire(g: nat, stage: Stage)
    | AwaitLimiter
    | Creating
    | FailCheck
    | FailFirst
    | FailSecond
    | BackoffWait
    | Exit

  datatype AfterClose = GiveUp | CheckThenFail | Fail

  /** handleConnectingAndReady with a session that is not yet a generation. */
  datatype SessionPc =
    | Opened
    | Listing
    | CloseAttempt(next: AfterClose)
    | WantPublish(tools: seq<string>)
    | PublishCheck(tools: seq<string>)
    | PublishCall(tools: seq<string>)
    | Recheck(tools: seq<string>)
    | RecheckUndo

  /** readyLoop and refreshTools. */
  datatype ServePc =
    | Installed
    | Loop
    | Reconciling
    | Lost
    | RetireOwn(stage: Stage, fail: bool)
    | RefreshEnter
    | RefreshList(r: Desired)
    | RefreshWant(r: Desired, tools: seq<string>)
    | RefreshCheck(r: Desired, tools: seq<string>)
    | RefreshCall(r: Desired, tools: seq<string>)
    | RefreshStore(r: Desired, tools: seq<string>)

  datatype RunPc =
    | Outer(o: OuterPc)
    | Attempt(t: Desired, a: AttemptPc)
    | Session(t: Desired, x: nat, p: SessionPc)
    | Serve(t: Desired, g: nat, v: ServePc)

  datatype UpdatePc =
    | Idle
    | Section(d: Desired)
    | CancelOp(d: Desired, change: Change, cancel: Option<nat>, g: Option<nat>, publish: bool, tools: seq<string>)
    | SetTimeout(d: Desired, g: Option<nat>, publish: bool, tools: seq<string>)
    | Republish(d: Desired, tools: seq<string>)
    | Signal
    | Unlock

  datatype StopPc = NotStopped | StopRetire(g: nat, stage: Stage) | StopCancel | StopDone

  /** operationCancel, operationRevision and the context they belong to. */
  datatype Operation = Operation(
    owned: bool,                   // operationCancel != nil
    rev: nat,
    cancelled: bool,               // the context of the latest attempt
    attempts: nat)                 // attempts begun; names the context a cancel function belongs to

  /** What a PublishServer handed to the catalog: the tools, filtered by the configuration. */
  datatype Publication = Publication(d: Desired, tools: seq<string>)

  /** What the coordinator has done to the outside. */
  datatype Log = Log(
    sessions: nat,                 // sessions ever opened
    open: set<nat>,                // sessions opened and not yet closed
    published: seq<Desired>,       // configuration used by each PublishServer that succeeded
    live: Option<Publication>,     // the publication the catalog still shows
    removed: bool,                 // the manager removed the routes since the last publication
    missed: bool,                  // the republication of an edit failed since the last publication
    publishedAtStop: nat,
    gensAtStop: nat)

  datatype State = State(
    desired: Desired,
    managerRev: nat,               // the revision counter of the manager
    status: Status,
    stopped: bool,
    current: Option<nat>,          // currentGen, an index into gens
    gens: seq<Generation>,         // every generation ever installed; genSeq is its length
    cached: seq<string>,
    publishMu: Holder,
    reconcile: bool,               // the one slot of reconcileCh
    ctxDone: bool,
    op: Operation,
    run: RunPc,
    update: UpdatePc,
    stop: StopPc,
    log: Log)

  /** What the outside decides at a step of the run goroutine. */
  datatype Choice =
    | Go                           // the only continuation, or success
    | Failure                      // a call returned an error
    | Tools(tools: seq<string>)    // a discovery succeeded
    | TakeReconcile                // a select took reconcileCh
    | TakeDone                     // a select took a cancelled context
    | TakeRefresh                  // a select took toolChangedCh or refreshCh
    | SessionLost                  // the ticker saw a closed session
    | TakeTimer

  datatype Step =
    | RunStep(choice: Choice)
    | UpdateBegin(rev: nat, cfg: ResolvedServer)
    | UpdateStep(ok: bool)
    | StopBegin
    | StopStep
    | CloseFinish(g: nat)
    | CancelParent
    | ManagerRemove                // Apply removes a dropped server without publishMu

  predicate TargetCurrent(s: State, t: Desired) {
    !s.stopped && s.desired.cfg.conn.enabled && s.desired.rev == t.rev
  }

  predicate OpDone(s: State) {
    s.op.cancelled || s.ctxDone
  }

  ghost predicate Init(s: State) {
    && s.desired.rev <= s.managerRev
    && s.status == (if s.desired.cfg.conn.enabled then Connecting else Disabled)
    && !s.stopped && s.current.None? && s.gens == [] && s.cached == []
    && s.publishMu.Free? && !s.reconcile && !s.ctxDone && !s.op.owned && !s.op.cancelled
    && s.run == Outer(Top) && s.update.Idle? && s.stop.NotStopped?
    && s.log.open == {} && s.log.published == [] && s.log.live.None? && !s.log.removed && !s.log.missed
  }

  // ---- steps that several program points share

  function StopAdmission(s: State, g: nat): State
    requires g < |s.gens|
  {
    s.(gens := s.gens[g := s.gens[g].(admission := false)])
  }

  /** Enter closeOnce: the first caller marks the generation closed. */
  function EnterClose(s: State, g: nat): State
    requires g < |s.gens|
  {
    if s.gens[g].latch.Open? then s.(gens := s.gens[g := s.gens[g].(admission := false, latch := Closing)]) else s
  }

  function Publish(s: State, d: Desired, tools: seq<string>): State {
    s.(log := s.log.(published := s.log.published + [d], live := Some(Publication(d, tools)), removed := false, missed := false))
  }

  predicate KnownGen(s: State, g: Option<nat>) {
    g.Some? ==> g.value < |s.gens|
  }

  /** The waits of `drain` and `Close` on generation g are over. */
  predicate MayLeave(s: State, g: nat, stage: Stage) {
    g < |s.gens| && (stage.AwaitClose? ==> s.gens[g].latch.Shut?)
  }

  function RetireEffect(s: State, g: nat, stage: Stage): State
    requires g < |s.gens|
  {
    match stage
    case BeforeDrain => StopAdmission(s, g)
    case BeforeClose => EnterClose(s, g)
    case AwaitClose => s
  }

  function NextStage(stage: Stage): Stage {
    if stage.BeforeDrain? then BeforeClose else AwaitClose
  }

  // ---- the run goroutine

  /** The run goroutine never writes the desired revision, `stopped` or the other callers' progress. */
  predicate Untouched(s: State, s': State) {
    && s'.desired == s.desired && s'.managerRev == s.managerRev && s'.stopped == s.stopped
    && s'.update == s.update && s'.stop == s.stop && s'.log.gensAtStop == s.log.gensAtStop
  }

  /** run and handleDisabled (lines 329-378). */
  predicate OuterEnabled(s: State, o: OuterPc, c: Choice) {
    match o
    case DisabledRemove(_) => c.Go? && s.publishMu.Free?
    case DisabledRetire(g, stage) => c.Go? && MayLeave(s, g, stage)
    case DisabledWait => (c.TakeReconcile? && s.reconcile) || c.TakeRefresh? || (c.TakeDone? && s.ctxDone)
    case Finished => false
    case _ => c.Go?
  }

  function OuterDo(s: State, o: OuterPc, c: Choice): (s': State)
    requires OuterEnabled(s, o, c)
    ensures Untouched(s, s') && s'.log.published == s.log.published
  {
    match o
    case Top =>
      s.(run := Outer(if s.ctxDone || s.stopped then Finished
                      else if s.desired.cfg.conn.enabled then ConnectEnter else DisabledEnter))
    case DisabledEnter =>
      if s.stopped then s.(run := Outer(Top))
      else s.(status := Disabled, current := None, run := Outer(DisabledRemove(s.current)))
    case DisabledRemove(g) =>
      s.(log := s.log.(live := None), run := Outer(if g.Some? then DisabledRetire(g.value, BeforeDrain) else DisabledWait))
    case DisabledRetire(g, stage) =>
      RetireEffect(s, g, stage).(run := Outer(if stage.AwaitClose? then DisabledWait else DisabledRetire(g, NextStage(stage))))
    case DisabledWait => s.(reconcile := s.reconcile && !c.TakeReconcile?, run := Outer(Top))
    case ConnectEnter =>
      if s.stopped || s.ctxDone then s.(run := Outer(Top))
      else s.(status := Connecting, op := Operation(true, s.desired.rev, false, s.op.attempts + 1), run := Attempt(s.desired, TakeOld))
  }

  /** handleConnectingAndReady up to CreateSession and after a failure (lines 393-420, 508-517, 607-635). */
  predicate AttemptEnabled(s: State, a: AttemptPc, c: Choice) {
    match a
    case OldRetire(g, stage) => c.Go? && MayLeave(s, g, stage)
    case AwaitLimiter => c.Go? || (c.TakeDone? && OpDone(s)) || (c.TakeReconcile? && s.reconcile)
    case Creating => c.Go? || c.Failure?
    case BackoffWait =>
      c.TakeTimer? || c.TakeRefresh? || (c.TakeReconcile? && s.reconcile) || (c.TakeDone? && s.ctxDone)
    case _ => c.Go?
  }

  function AttemptDo(s: State, t: Desired, a: AttemptPc, c: Choice): (s': State)
    requires AttemptEnabled(s, a, c)
    ensures Untouched(s, s') && s'.log.published == s.log.published
  {
    match a
    case TakeOld =>
      s.(current := None,
         run := Attempt(t, if s.current.Some? then OldRetire(s.current.value, BeforeDrain) else AwaitLimiter))
    case OldRetire(g, stage) =>
      RetireEffect(s, g, stage).(run := Attempt(t, if stage.AwaitClose? then AwaitLimiter else OldRetire(g, NextStage(stage))))
    case AwaitLimiter =>
      if c.Go? then s.(run := Attempt(t, Creating))
      else s.(reconcile := s.reconcile && !c.TakeReconcile?, run := Attempt(t, Exit))
    case Creating =>
      if c.Failure? then s.(run := Attempt(t, FailCheck))
      else s.(log := s.log.(sessions := s.log.sessions + 1, open := s.log.open + {s.log.sessions}),
              run := Session(t, s.log.sessions, Opened))
    case FailCheck => s.(run := Attempt(t, if OpDone(s) || !TargetCurrent(s, t) then Exit else FailFirst))
    case FailFirst =>
      if s.stopped || s.ctxDone then s.(run := Attempt(t, Exit))
      else s.(status := Unavailable, run := Attempt(t, FailSecond))
    case FailSecond =>
      if s.stopped then s.(run := Attempt(t, Exit)) else s.(status := Backoff, run := Attempt(t, BackoffWait))
    case BackoffWait => s.(reconcile := s.reconcile && !c.TakeReconcile?, run := Attempt(t, Exit))
    case Exit => s.(op := s.op.(cancelled := true, owned := s.op.owned && s.op.rev != t.rev), run := Outer(Top))
  }

  /** From a created session to an installed generation (lines 421-489). */
  predicate SessionEnabled(s: State, p: SessionPc, c: Choice) {
    match p
    case Listing => c.Tools? || c.Failure?
    case WantPublish(_) => c.Go? && s.publishMu.Free?
    case PublishCall(_) => c.Go? || c.Failure?
    case _ => c.Go?
  }

  function SessionDo(s: State, t: Desired, x: nat, p: SessionPc, c: Choice): (s': State)
    requires SessionEnabled(s, p, c)
    ensures Untouched(s, s')
  {
    match p
    case Opened => s.(run := Session(t, x, if TargetCurrent(s, t) then Listing else CloseAttempt(GiveUp)))
    case Listing => s.(run := Session(t, x, if c.Tools? then WantPublish(c.tools) else CloseAttempt(CheckThenFail)))
    case CloseAttempt(next) =>
      s.(log := s.log.(open := s.log.open - {x}),
         run := Attempt(t, match next case GiveUp => Exit case CheckThenFail => FailCheck case Fail => FailFirst))
    case WantPublish(tools) => s.(publishMu := HeldByRun, run := Session(t, x, PublishCheck(tools)))
    case PublishCheck(tools) =>
      if TargetCurrent(s, t) then s.(run := Session(t, x, PublishCall(tools)))
      else s.(publishMu := Free, run := Session(t, x, CloseAttempt(GiveUp)))
    case PublishCall(tools) =>
      if c.Failure? then s.(publishMu := Free, run := Session(t, x, CloseAttempt(Fail)))
      else Publish(s, t, tools).(run := Session(t, x, Recheck(tools)))
    case Recheck(tools) =>
      if s.desired.rev != t.rev || !s.desired.cfg.conn.enabled || s.stopped then s.(run := Session(t, x, RecheckUndo))
      else s.(gens := s.gens + [Generation(t, x, true, Open, t.cfg.callTimeout)], current := Some(|s.gens|),
              cached := tools, status := Ready, op := s.op.(owned := false),
              run := Serve(t, |s.gens|, Installed))
    case RecheckUndo => s.(log := s.log.(live := None), publishMu := Free, run := Session(t, x, CloseAttempt(GiveUp)))
  }

  /** readyLoop and refreshTools (lines 489-491, 519-605). */
  predicate ServeEnabled(s: State, g: nat, v: ServePc, c: Choice) {
    match v
    case Loop =>
      || c.TakeTimer? || c.TakeRefresh? || c.SessionLost?
      || (c.TakeReconcile? && s.reconcile) || (c.TakeDone? && s.ctxDone)
    case RetireOwn(stage, _) => c.Go? && MayLeave(s, g, stage)
    case RefreshList(_) => c.Tools? || c.Failure?
    case RefreshWant(_, _) => c.Go? && s.publishMu.Free?
    case RefreshCall(_, _) => c.Go? || c.Failure?
    case _ => c.Go?
  }

  function ServeDo(s: State, t: Desired, g: nat, v: ServePc, c: Choice): (s': State)
    requires ServeEnabled(s, g, v, c)
    ensures Untouched(s, s')
  {
    match v
    case Installed => s.(publishMu := Free, run := Serve(t, g, Loop))
    case Loop => (
      match c
      case TakeRefresh => s.(run := Serve(t, g, RefreshEnter))
      case TakeReconcile => s.(reconcile := false, run := Serve(t, g, Reconciling))
      case SessionLost => s.(run := Serve(t, g, Lost))
      case TakeDone => s.(run := Serve(t, g, RetireOwn(BeforeDrain, false)))
      case _ => s)
    case Reconciling => s.(status := Draining, run := Serve(t, g, RetireOwn(BeforeDrain, false)))
    case Lost => s.(status := Unavailable, run := Serve(t, g, RetireOwn(BeforeDrain, true)))
    case RetireOwn(stage, fail) =>
      RetireEffect(s, g, stage).(
        run := if stage.AwaitClose? then Attempt(t, if fail then FailFirst else Exit)
               else Serve(t, g, RetireOwn(NextStage(stage), fail)))
    case RefreshEnter =>
      s.(run := Serve(t, g, if s.current != Some(g) || !s.status.Ready? then Loop else RefreshList(s.desired)))
    case RefreshList(r) => s.(run := Serve(t, g, if c.Tools? then RefreshWant(r, c.tools) else Loop))
    case RefreshWant(r, tools) => s.(publishMu := HeldByRun, run := Serve(t, g, RefreshCheck(r, tools)))
    case RefreshCheck(r, tools) =>
      if s.stopped || s.current != Some(g) || !s.status.Ready? || s.desired.rev != r.rev
      then s.(publishMu := Free, run := Serve(t, g, Loop))
      else s.(run := Serve(t, g, RefreshCall(r, tools)))
    case RefreshCall(r, tools) =>
      if c.Failure? then s.(publishMu := Free, run := Serve(t, g, Loop))
      else Publish(s, r, tools).(run := Serve(t, g, RefreshStore(r, tools)))
    case RefreshStore(r, tools) =>
      s.(cached := if s.current == Some(g) && s.desired.rev == r.rev then tools else s.cached,
         publishMu := Free, run := Serve(t, g, Loop))
  }

  predicate RunEnabled(s: State, c: Choice) {
    match s.run
    case Outer(o) => OuterEnabled(s, o, c)
    case Attempt(_, a) => AttemptEnabled(s, a, c)
    case Session(_, _, p) => SessionEnabled(s, p, c)
    case Serve(_, g, v) => ServeEnabled(s, g, v, c)
  }

  function RunDo(s: State, c: Choice): State
    requires RunEnabled(s, c)
  {
    match s.run
    case Outer(o) => OuterDo(s, o, c)
    case Attempt(t, a) => AttemptDo(s, t, a, c)
    case Session(t, x, p) => SessionDo(s, t, x, p, c)
    case Serve(t, g, v) => ServeDo(s, t, g, v, c)
  }

  // ---- UpdateConfig (lines 173-262)

  predicate UpdateEnabled(s: State, ok: bool) {
    match s.update
    case Idle => false
    case SetTimeout(_, g, _, _) => KnownGen(s, g)
    case _ => true
  }

  function UpdateDo(s: State, ok: bool): State
    requires UpdateEnabled(s, ok)
  {
    match s.update
    case Section(d) =>
      var change := Classify(s.desired.cfg, d.cfg);
      if change.ChangeNone? then s.(update := Unlock)
      else
        var tools := change.ChangeToolsOnly? || change.ChangeToolsAndTimeout?;
        var publish := tools && s.status.Ready? && |s.cached| > 0;
        s.(desired := d,
           update := CancelOp(d, change, if s.op.owned && s.op.rev != d.rev then Some(s.op.attempts) else None,
                              s.current, publish, s.cached))
    case CancelOp(d, change, cancel, g, publish, tools) =>
      s.(op := s.op.(cancelled := s.op.cancelled || cancel == Some(s.op.attempts)),
         update := match change
                   case ChangeConnection => Signal
                   case ChangeToolsOnly => if publish then Republish(d, tools) else Unlock
                   case _ => SetTimeout(d, g, publish, tools))
    case SetTimeout(d, g, publish, tools) =>
      var next := if publish then Republish(d, tools) else Unlock;
      if g.Some? then
        s.(gens := s.gens[g.value := s.gens[g.value].(callTimeout := d.cfg.callTimeout)], update := next)
      else s.(update := next)
    case Republish(d, tools) =>
      if ok then Publish(s, d, tools).(update := Unlock) else s.(log := s.log.(missed := true), update := Unlock)
    case Signal => s.(reconcile := true, update := Unlock)
    case Unlock => s.(publishMu := Free, update := Idle)
  }

  // ---- Stop (lines 141-169)

  predicate StopEnabled(s: State) {
    match s.stop
    case StopRetire(g, stage) => MayLeave(s, g, stage)
    case StopCancel => true
    case _ => false
  }

  function StopDo(s: State): State
    requires StopEnabled(s)
  {
    match s.stop
    case StopRetire(g, stage) =>
      RetireEffect(s, g, stage).(stop := if stage.AwaitClose? then StopCancel else StopRetire(g, NextStage(stage)))
    case StopCancel => s.(ctxDone := true, stop := StopDone)
  }

  function StopSection(s: State): State {
    s.(stopped := true, op := s.op.(cancelled := s.op.cancelled || s.op.owned, owned := false), current := None, status := Closed,
       stop := if s.current.Some? then StopRetire(s.current.value, BeforeDrain) else StopCancel,
       log := s.log.(publishedAtStop := |s.log.published|, gensAtStop := |s.gens|))
  }

  // ---- all steps

  predicate Enabled(s: State, step: Step) {
    match step
    case RunStep(c) => RunEnabled(s, c)
    case UpdateBegin(rev, cfg) => s.update.Idle? && s.publishMu.Free? && rev > s.managerRev
    case UpdateStep(ok) => UpdateEnabled(s, ok)
    case StopBegin => s.publishMu.Free? && !s.stopped
    case StopStep => StopEnabled(s)
    case CloseFinish(g) => g < |s.gens| && s.gens[g].latch.Closing?
    case CancelParent => true
    case ManagerRemove => true
  }

  function Do(s: State, step: Step): State
    requires Enabled(s, step)
  {
    match step
    case RunStep(c) => RunDo(s, c)
    case UpdateBegin(rev, cfg) =>
      s.(managerRev := rev, publishMu := HeldByUpdate, update := Section(Desired(rev, cfg)))
    case UpdateStep(ok) => UpdateDo(s, ok)
    case StopBegin => StopSection(s)
    case StopStep => StopDo(s)
    case CloseFinish(g) =>
      s.(gens := s.gens[g := s.gens[g].(latch := Shut)], log := s.log.(open := s.log.open - {s.gens[g].session}))
    case CancelParent => s.(ctxDone := true)
    case ManagerRemove => s.(log := s.log.(live := None, removed := true))
  }
}
