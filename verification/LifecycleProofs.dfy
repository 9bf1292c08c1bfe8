/** Invariants of the coordinator's transition system, and what they give over
    whole runs: revision fencing, break-before-make, no publication after
    Stop, no lost reconciliation. */
module LifecycleProofs {
  import opened ServerConfig
  import opened Lifecycle
  import opened Options

  // ---- what a program point is working on

  predicate HoldsLock(pc: RunPc) {
    match pc
    case Session(_, _, p) => p.PublishCheck? || p.PublishCall? || p.Recheck? || p.RecheckUndo?
    case Serve(_, _, v) => v.Installed? || v.RefreshCheck? || v.RefreshCall? || v.RefreshStore?
    case _ => false
  }

  /** In the part of handleConnectingAndReady that can still wait for the network. */
  predicate Attempting(pc: RunPc) {
    match pc
    case Attempt(_, a) => a.TakeOld? || a.OldRetire? || a.AwaitLimiter? || a.Creating?
    case Session(_, _, p) => !p.CloseAttempt? && !p.RecheckUndo?
    case _ => false
  }

  predicate RefreshHolds(v: ServePc) {
    v.RefreshList? || v.RefreshWant? || v.RefreshCheck? || v.RefreshCall? || v.RefreshStore?
  }

  predicate WillPublish(u: UpdatePc) {
    u.Republish? || ((u.CancelOp? || u.SetTimeout?) && u.publish)
  }

  predicate WillSignal(u: UpdatePc) {
    u.Signal? || (u.CancelOp? && u.change.ChangeConnection?)
  }

  predicate WillSetTimeout(u: UpdatePc, g: nat) {
    (u.SetTimeout? || (u.CancelOp? && (u.change.ChangeTimeoutOnly? || u.change.ChangeToolsAndTimeout?))) && u.g == Some(g)
  }

  // ---- the invariants

  predicate LocksOk(s: State) {
    && (s.publishMu.HeldByRun? <==> HoldsLock(s.run))
    && (s.publishMu.HeldByUpdate? <==> !s.update.Idle?)
    && (s.stopped <==> !s.stop.NotStopped?)
  }

  /** A captured revision is never ahead of the desired one, and equal numbers mean equal configurations. */
  predicate Captured(s: State, t: Desired) {
    t.rev <= s.desired.rev && (t.rev == s.desired.rev ==> t == s.desired)
  }

  predicate TargetsOk(s: State) {
    && s.desired.rev <= s.managerRev
    && (!s.run.Outer? ==> Captured(s, s.run.t))
    && (s.run.Serve? && RefreshHolds(s.run.v) ==> Captured(s, s.run.v.r))
    && (s.update.Section? ==> s.desired.rev < s.update.d.rev <= s.managerRev)
  }

  /** What the tests made under publishMu still guarantee while it is held. */
  predicate FencesOk(s: State) {
    && (s.run.Session? && (s.run.p.PublishCall? || s.run.p.Recheck?) ==> s.run.t == s.desired && TargetCurrent(s, s.run.t))
    && (s.run.Session? ==> !s.run.p.RecheckUndo?)
    && (s.run.Serve? && s.run.v.Installed? ==> s.run.t == s.desired)
    && (s.run.Serve? && (s.run.v.RefreshCall? || s.run.v.RefreshStore?) ==> s.run.v.r == s.desired && !s.stopped)
    && (s.run.Serve? ==> s.run.t.cfg.conn.enabled)
    && (s.update.CancelOp? || s.update.SetTimeout? || s.update.Republish? ==> s.update.d == s.desired)
  }

  predicate StopOk(s: State) {
    && (s.stopped ==>
          && (s.status.Closed? || s.status.Draining? || s.status.Unavailable?)
          && |s.log.published| == s.log.publishedAtStop
          && |s.gens| == s.log.gensAtStop
          && s.current.None?)
    && (WillPublish(s.update) ==> !s.stopped)
  }

  predicate GenOk(gen: Generation, owned: bool) {
    (!owned ==> gen.latch.Shut?) && (gen.admission ==> gen.latch.Open?)
  }

  /** The generation readyLoop owns, or -1. */
  function OwnerOf(pc: RunPc): int {
    if pc.Serve? then pc.g else -1
  }

  predicate AllGensOk(gens: seq<Generation>, owner: int) {
    forall g :: 0 <= g < |gens| ==> GenOk(gens[g], owner == g)
  }

  /** Only the generation readyLoop owns may be open; it is the latest and the current one. */
  predicate GensOk(s: State) {
    && (s.current.Some? ==> s.current.value == |s.gens| - 1)
    && (s.run.Serve? ==> s.run.g == |s.gens| - 1 && (!s.stopped ==> s.current == Some(s.run.g)))
    && AllGensOk(s.gens, OwnerOf(s.run))
  }

  predicate KnownOk(s: State) {
    && (s.run.Outer? && s.run.o.DisabledRetire? ==> s.run.o.g < |s.gens|)
    && (s.run.Outer? && s.run.o.DisabledRemove? ==> KnownGen(s, s.run.o.old_))
    && (s.run.Attempt? && s.run.a.OldRetire? ==> s.run.a.g < |s.gens|)
    && (s.stop.StopRetire? ==> s.stop.g < |s.gens|)
    && (s.update.CancelOp? || s.update.SetTimeout? ==> KnownGen(s, s.update.g))
  }

  /** The sessions that may be open at a program point: at most one. */
  predicate SessionsOk(s: State) {
    match s.run
    case Session(_, x, _) => s.log.open == {x}
    case Serve(_, g, _) => g < |s.gens| && s.log.open == if s.gens[g].latch.Shut? then {} else {s.gens[g].session}
    case _ => s.log.open == {}
  }

  predicate RevisionsSorted(log: seq<Desired>) {
    forall i, j :: 0 <= i < j < |log| ==> log[i].rev <= log[j].rev
  }

  predicate LogOk(s: State) {
    && RevisionsSorted(s.log.published)
    && (s.log.published != [] ==> s.log.published[|s.log.published| - 1].rev <= s.desired.rev)
    && (s.log.live.Some? ==> s.log.live.value.d.rev <= s.desired.rev)
  }

  predicate ParkedDisabled(pc: RunPc) {
    pc.Outer? && (pc.o.DisabledWait? || pc.o.DisabledRetire?)
  }

  predicate LiveOk(s: State) {
    && ((s.run.Outer? && s.run.o.DisabledRemove?) || ParkedDisabled(s.run) ==> !s.status.Ready?)
    && (ParkedDisabled(s.run) ==> s.log.live.None? && !WillPublish(s.update))
  }

  /** The session in use serves the desired connection settings and call timeout. */
  predicate Settled(s: State, t: Desired, g: nat) {
    && g < |s.gens|
    && t.cfg.conn == s.desired.cfg.conn
    && (s.gens[g].callTimeout == s.desired.cfg.callTimeout || WillSetTimeout(s.update, g))
  }

  predicate InReadyLoop(v: ServePc) {
    v.Installed? || v.Loop? || v.RefreshEnter? || RefreshHolds(v)
  }

  predicate ReconcileOk(s: State) {
    && (s.run.Outer? && (s.run.o.DisabledEnter? || s.run.o.DisabledRemove? || ParkedDisabled(s.run)) ==>
          s.stopped || s.reconcile || WillSignal(s.update) || !s.desired.cfg.conn.enabled)
    && (s.run.Serve? && InReadyLoop(s.run.v) ==>
          s.stopped || s.reconcile || WillSignal(s.update) || Settled(s, s.run.t, s.run.g))
  }

  /** The catalog shows nothing at all, or what the desired tool filter leaves. */
  predicate Filtered(s: State) {
    || s.log.removed || s.log.missed
    || (&& s.log.live.Some?
        && (s.log.live.value.tools == [] || s.log.live.value.d.cfg.disabledTools == s.desired.cfg.disabledTools))
  }

  /** The tools last published by readyLoop; a refresh publishes before it stores them. */
  function ShownTools(s: State): seq<string> {
    if s.run.Serve? && s.run.v.RefreshStore? then s.run.v.tools else s.cached
  }

  /** What the catalog shows comes from the given tools. */
  predicate Shows(s: State, tools: seq<string>) {
    s.log.removed || (s.log.live.Some? && s.log.live.value.tools == tools)
  }

  predicate FilterOk(s: State) {
    && (s.run.Session? && s.run.p.Recheck? ==> Filtered(s) && Shows(s, s.run.p.tools))
    && (s.run.Serve? && InReadyLoop(s.run.v) && !s.stopped ==>
          && s.status.Ready?
          && Shows(s, ShownTools(s))
          && (s.reconcile || WillSignal(s.update) || WillPublish(s.update) || Filtered(s)))
    && (s.update.CancelOp? || s.update.SetTimeout? || s.update.Republish? ==> s.update.tools == s.cached)
  }

  /** The state shown tells where the run goroutine is. */
  predicate StatusOk(s: State) {
    s.stopped || (
      match s.run
      case Outer(o) => o.DisabledRemove? || o.DisabledRetire? || o.DisabledWait? ==> s.status.Disabled?
      case Attempt(_, a) => (
        match a
        case TakeOld => s.status.Connecting?
        case OldRetire(_, _) => s.status.Connecting?
        case AwaitLimiter => s.status.Connecting?
        case Creating => s.status.Connecting?
        case FailSecond => s.status.Unavailable?
        case BackoffWait => s.status.Backoff?
        case _ => true)
      case Session(_, _, _) => s.status.Connecting?
      case Serve(_, _, v) => (
        match v
        case Reconciling => s.status.Ready?
        case Lost => s.status.Ready?
        case RetireOwn(_, fail) => if fail then s.status.Unavailable? else s.status.Draining? || (s.status.Ready? && s.ctxDone)
        case _ => s.status.Ready?))
  }

  /** A generation that is being retired admits no calls once its drain has begun. */
  predicate RetiringOk(s: State) {
    s.run.Serve? && s.run.v.RetireOwn? && !s.run.v.stage.BeforeDrain? && s.run.g < |s.gens| ==> !s.gens[s.run.g].admission
  }

  predicate DoneOk(s: State) {
    && (s.run == Outer(Finished) ==> s.stopped || s.ctxDone)
    && (s.stop.StopDone? ==> s.ctxDone)
    && (s.stop.StopDone? || s.stop.StopCancel? ==> AllShut(s.gens))
    && (s.stop.StopRetire? ==> s.stop.g == |s.gens| - 1)
  }

  predicate AllShut(gens: seq<Generation>) {
    forall g :: 0 <= g < |gens| ==> gens[g].latch.Shut?
  }

  /** Whoever waits for a session to be closed waits for a Close that has begun. */
  predicate AwaitOk(s: State) {
    && (s.run.Outer? && s.run.o.DisabledRetire? ==> Begun(s, s.run.o.g, s.run.o.stage))
    && (s.run.Attempt? && s.run.a.OldRetire? ==> Begun(s, s.run.a.g, s.run.a.stage))
    && (s.run.Serve? && s.run.v.RetireOwn? ==> Begun(s, s.run.g, s.run.v.stage))
    && (s.stop.StopRetire? ==> Begun(s, s.stop.g, s.stop.stage))
  }

  predicate Begun(s: State, g: nat, stage: Stage) {
    stage.AwaitClose? && g < |s.gens| ==> !s.gens[g].latch.Open?
  }

  /** An attempt is for the desired revision, or its context is cancelled, or
      the update that superseded it is about to cancel it. */
  predicate AttemptOk(s: State) {
    Attempting(s.run) ==>
      || s.op.cancelled
      || (&& s.op.owned && s.op.rev == s.run.t.rev && !s.stopped
          && (s.run.t == s.desired || (s.update.CancelOp? && s.update.cancel == Some(s.op.attempts))))
  }

  predicate Inv(s: State) {
    && LocksOk(s) && TargetsOk(s) && FencesOk(s) && StopOk(s) && GensOk(s) && KnownOk(s) && SessionsOk(s)
    && LogOk(s) && LiveOk(s) && ReconcileOk(s) && FilterOk(s) && AttemptOk(s)
    && AwaitOk(s) && StatusOk(s) && RetiringOk(s) && DoneOk(s)
  }

  predicate Agree(a: Generation, b: Generation) {
    && b.session == a.session && b.callTimeout == a.callTimeout
    && (b.latch.Shut? <==> a.latch.Shut?) && (b.latch.Open? ==> a.latch.Open?)
    && (b.admission ==> a.admission && b.latch == a.latch)
  }

  lemma GensFrame(s: State, gens: seq<Generation>)
    requires Inv(s) && |gens| == |s.gens|
    requires forall g: nat {:trigger gens[g]} :: g < |gens| ==> Agree(s.gens[g], gens[g])
    ensures Inv(s.(gens := gens))
  {
    var s' := s.(gens := gens);
    forall g | 0 <= g < |gens| ensures GenOk(gens[g], OwnerOf(s.run) == g) {
      assert Agree(s.gens[g], gens[g]) && GenOk(s.gens[g], OwnerOf(s.run) == g);
    }
    assert s.run.Serve? ==> Agree(s.gens[s.run.g], gens[s.run.g]);
    AwaitFrame(s, gens);
  }

  lemma AwaitFrame(s: State, gens: seq<Generation>)
    requires AwaitOk(s) && KnownOk(s) && |gens| == |s.gens|
    requires forall g: nat {:trigger gens[g]} :: g < |gens| ==> Agree(s.gens[g], gens[g])
    ensures AwaitOk(s.(gens := gens))
  {
    forall g: nat, stage | Begun(s, g, stage) ensures Begun(s.(gens := gens), g, stage) {
      assert g < |gens| ==> Agree(s.gens[g], gens[g]);
    }
  }

  /** Drain and Close change no more than admission and the first half of the latch. */
  lemma RetireEffectKeepsInv(s: State, g: nat, stage: Stage)
    requires Inv(s) && g < |s.gens|
    ensures Inv(RetireEffect(s, g, stage))
    ensures RetireEffect(s, g, stage) == s.(gens := RetireEffect(s, g, stage).gens)
  {
    assert GenOk(s.gens[g], OwnerOf(s.run) == g);
    GensFrame(s, RetireEffect(s, g, stage).gens);
  }

  lemma TopKeepsInv(s: State, c: Choice)
    requires Inv(s) && RunEnabled(s, c) && s.run.Outer? && s.run.o.Top?
    ensures Inv(OuterDo(s, s.run.o, c))
  {
    var s' := OuterDo(s, s.run.o, c);
    assert s' == s.(run := s'.run);
  }

  lemma DisabledEnterKeepsInv(s: State, c: Choice)
    requires Inv(s) && RunEnabled(s, c) && s.run.Outer? && s.run.o.DisabledEnter?
    ensures Inv(OuterDo(s, s.run.o, c))
  {
    var s' := OuterDo(s, s.run.o, c);
    assert s' == s.(status := s'.status, current := s'.current, run := s'.run);
  }

  lemma DisabledKeepsInv(s: State, c: Choice)
    requires Inv(s) && RunEnabled(s, c) && s.run.Outer? && (s.run.o.DisabledRemove? || s.run.o.DisabledWait?)
    ensures Inv(OuterDo(s, s.run.o, c))
  {
  }

  lemma ConnectEnterKeepsInv(s: State, c: Choice)
    requires Inv(s) && RunEnabled(s, c) && s.run.Outer? && s.run.o.ConnectEnter?
    ensures Inv(OuterDo(s, s.run.o, c))
  {
    var s' := OuterDo(s, s.run.o, c);
    assert s' == s.(status := s'.status, op := s'.op, run := s'.run);
  }

  lemma DisabledRetireKeepsInv(s: State, c: Choice)
    requires Inv(s) && RunEnabled(s, c) && s.run.Outer? && s.run.o.DisabledRetire?
    ensures Inv(OuterDo(s, s.run.o, c))
  {
    RetireEffectKeepsInv(s, s.run.o.g, s.run.o.stage);
  }

  lemma TakeOldKeepsInv(s: State, c: Choice)
    requires Inv(s) && RunEnabled(s, c) && s.run.Attempt? && (s.run.a.TakeOld? || s.run.a.AwaitLimiter?)
    ensures Inv(AttemptDo(s, s.run.t, s.run.a, c))
  {
    var s' := AttemptDo(s, s.run.t, s.run.a, c);
    if s.run.a.TakeOld? {
      assert s' == s.(current := None, run := s'.run);
    } else {
      assert s' == s.(reconcile := s'.reconcile, run := s'.run);
    }
  }

  lemma OldRetireKeepsInv(s: State, c: Choice)
    requires Inv(s) && RunEnabled(s, c) && s.run.Attempt? && s.run.a.OldRetire?
    ensures Inv(AttemptDo(s, s.run.t, s.run.a, c))
  {
    RetireEffectKeepsInv(s, s.run.a.g, s.run.a.stage);
  }

  lemma CreatingKeepsInv(s: State, c: Choice)
    requires Inv(s) && RunEnabled(s, c) && s.run.Attempt? && s.run.a.Creating?
    ensures Inv(AttemptDo(s, s.run.t, s.run.a, c))
  {
    var s' := AttemptDo(s, s.run.t, s.run.a, c);
    assert s' == if c.Failure? then s.(run := s'.run)
                 else s.(log := s'.log, run := s'.run);
  }

  lemma FailCheckKeepsInv(s: State, c: Choice)
    requires Inv(s) && RunEnabled(s, c) && s.run.Attempt? && s.run.a.FailCheck?
    ensures Inv(AttemptDo(s, s.run.t, s.run.a, c))
  {
    var s' := AttemptDo(s, s.run.t, s.run.a, c);
    assert s' == s.(run := s'.run);
  }

  lemma FailureKeepsInv(s: State, c: Choice)
    requires Inv(s) && RunEnabled(s, c) && s.run.Attempt? && (s.run.a.FailFirst? || s.run.a.FailSecond?)
    ensures Inv(AttemptDo(s, s.run.t, s.run.a, c))
  {
    var s' := AttemptDo(s, s.run.t, s.run.a, c);
    assert s' == s.(status := s'.status, run := s'.run);
  }

  lemma ExitKeepsInv(s: State, c: Choice)
    requires Inv(s) && RunEnabled(s, c) && s.run.Attempt? && (s.run.a.BackoffWait? || s.run.a.Exit?)
    ensures Inv(AttemptDo(s, s.run.t, s.run.a, c))
  {
  }

  lemma OpenedKeepsInv(s: State, c: Choice)
    requires Inv(s) && RunEnabled(s, c) && s.run.Session? && (s.run.p.Opened? || s.run.p.Listing?)
    ensures Inv(SessionDo(s, s.run.t, s.run.x, s.run.p, c))
  {
  }

  lemma CloseAttemptKeepsInv(s: State, c: Choice)
    requires Inv(s) && RunEnabled(s, c) && s.run.Session? && s.run.p.CloseAttempt?
    ensures Inv(SessionDo(s, s.run.t, s.run.x, s.run.p, c))
  {
  }

  lemma PublishKeepsInv(s: State, c: Choice)
    requires Inv(s) && RunEnabled(s, c) && s.run.Session? && (s.run.p.WantPublish? || s.run.p.PublishCheck?)
    ensures Inv(SessionDo(s, s.run.t, s.run.x, s.run.p, c))
  {
    var s' := SessionDo(s, s.run.t, s.run.x, s.run.p, c);
    assert s' == s.(publishMu := s'.publishMu, run := s'.run);
  }

  lemma PublishCallKeepsInv(s: State, c: Choice)
    requires Inv(s) && RunEnabled(s, c) && s.run.Session? && s.run.p.PublishCall?
    ensures Inv(SessionDo(s, s.run.t, s.run.x, s.run.p, c))
  {
    var s' := SessionDo(s, s.run.t, s.run.x, s.run.p, c);
    if c.Failure? {
      assert s' == s.(publishMu := Free, run := s'.run);
    } else {
      assert s' == Publish(s, s.desired, s.run.p.tools).(run := s'.run);
    }
  }

  lemma InstallKeepsInv(s: State, c: Choice)
    requires Inv(s) && RunEnabled(s, c) && s.run.Session? && (s.run.p.Recheck? || s.run.p.RecheckUndo?)
    ensures Inv(SessionDo(s, s.run.t, s.run.x, s.run.p, c))
  {
  }

  lemma InstalledKeepsInv(s: State, c: Choice)
    requires Inv(s) && RunEnabled(s, c) && s.run.Serve? && s.run.v.Installed?
    ensures Inv(ServeDo(s, s.run.t, s.run.g, s.run.v, c))
  {
  }

  lemma TakeReconcileKeepsInv(s: State)
    requires Inv(s) && RunEnabled(s, TakeReconcile) && s.run.Serve? && s.run.v.Loop?
    ensures Inv(ServeDo(s, s.run.t, s.run.g, s.run.v, TakeReconcile))
  {
    assert ServeDo(s, s.run.t, s.run.g, s.run.v, TakeReconcile) == s.(reconcile := false, run := s.run.(v := Reconciling));
  }

  lemma MoveOnKeepsInv(s: State, v: ServePc)
    requires Inv(s) && s.run.Serve? && s.run.v.Loop? && (v.RefreshEnter? || v.Lost? || (v == RetireOwn(BeforeDrain, false) && s.ctxDone))
    ensures Inv(s.(run := Serve(s.run.t, s.run.g, v)))
  {
  }

  lemma ReadyKeepsInv(s: State, c: Choice)
    requires Inv(s) && RunEnabled(s, c) && s.run.Serve? && s.run.v.Loop?
    ensures Inv(ServeDo(s, s.run.t, s.run.g, s.run.v, c))
  {
    match c {
      case TakeReconcile => TakeReconcileKeepsInv(s);
      case TakeRefresh => MoveOnKeepsInv(s, RefreshEnter);
      case SessionLost => MoveOnKeepsInv(s, Lost);
      case TakeDone => MoveOnKeepsInv(s, RetireOwn(BeforeDrain, false));
      case _ =>
    }
  }

  lemma LeaveReadyKeepsInv(s: State, c: Choice)
    requires Inv(s) && RunEnabled(s, c) && s.run.Serve? && (s.run.v.Reconciling? || s.run.v.Lost?)
    ensures Inv(ServeDo(s, s.run.t, s.run.g, s.run.v, c))
  {
  }

  lemma RetireOwnEndsKeepsInv(s: State)
    requires Inv(s) && s.run.Serve? && s.run.v.RetireOwn? && s.run.v.stage.AwaitClose? && MayLeave(s, s.run.g, AwaitClose)
    ensures Inv(s.(run := Attempt(s.run.t, if s.run.v.fail then FailFirst else Exit)))
  {
  }

  lemma RetireOwnGoesOn(s: State)
    requires Inv(s) && s.run.Serve? && s.run.v.RetireOwn? && !s.run.v.stage.AwaitClose? && s.run.g < |s.gens|
    requires !s.gens[s.run.g].admission && (s.run.v.stage.BeforeClose? ==> !s.gens[s.run.g].latch.Open?)
    ensures Inv(s.(run := Serve(s.run.t, s.run.g, RetireOwn(NextStage(s.run.v.stage), s.run.v.fail))))
  {
  }

  lemma RetireOwnKeepsInv(s: State, c: Choice)
    requires Inv(s) && RunEnabled(s, c) && s.run.Serve? && s.run.v.RetireOwn?
    ensures Inv(ServeDo(s, s.run.t, s.run.g, s.run.v, c))
  {
    var g, stage := s.run.g, s.run.v.stage;
    if stage.AwaitClose? {
      RetireOwnEndsKeepsInv(s);
    } else {
      RetireEffectKeepsInv(s, g, stage);
      RetireEffectEnds(s, g, stage);
      RetireOwnGoesOn(RetireEffect(s, g, stage));
    }
  }

  lemma RetireEffectEnds(s: State, g: nat, stage: Stage)
    requires Inv(s) && g < |s.gens| && !stage.AwaitClose?
    ensures var s' := RetireEffect(s, g, stage);
      && g < |s'.gens| && !s'.gens[g].admission && (stage.BeforeClose? ==> !s'.gens[g].latch.Open?)
  {
    assert GenOk(s.gens[g], OwnerOf(s.run) == g);
  }

  lemma RefreshKeepsInv(s: State, c: Choice)
    requires Inv(s) && RunEnabled(s, c) && s.run.Serve? && (s.run.v.RefreshEnter? || s.run.v.RefreshList? || s.run.v.RefreshWant?)
    ensures Inv(ServeDo(s, s.run.t, s.run.g, s.run.v, c))
  {
    var s' := ServeDo(s, s.run.t, s.run.g, s.run.v, c);
    assert s' == s.(publishMu := s'.publishMu, run := s'.run);
  }

  lemma RefreshCheckKeepsInv(s: State, c: Choice)
    requires Inv(s) && RunEnabled(s, c) && s.run.Serve? && s.run.v.RefreshCheck?
    ensures Inv(ServeDo(s, s.run.t, s.run.g, s.run.v, c))
  {
    var s' := ServeDo(s, s.run.t, s.run.g, s.run.v, c);
    assert s' == s.(publishMu := s'.publishMu, run := s'.run);
  }

  lemma RefreshedKeepsInv(s: State)
    requires Inv(s) && s.run.Serve? && s.run.v.RefreshCall?
    ensures Inv(Publish(s, s.desired, s.run.v.tools).(run := Serve(s.run.t, s.run.g, RefreshStore(s.run.v.r, s.run.v.tools))))
  {
    var s' := Publish(s, s.desired, s.run.v.tools).(run := Serve(s.run.t, s.run.g, RefreshStore(s.run.v.r, s.run.v.tools)));
    assert s' == s.(log := s'.log, run := s'.run);
  }

  lemma RefreshCallKeepsInv(s: State, c: Choice)
    requires Inv(s) && RunEnabled(s, c) && s.run.Serve? && s.run.v.RefreshCall?
    ensures Inv(ServeDo(s, s.run.t, s.run.g, s.run.v, c))
  {
    var s' := ServeDo(s, s.run.t, s.run.g, s.run.v, c);
    if c.Failure? {
      assert s' == s.(publishMu := Free, run := s'.run);
    } else {
      RefreshedKeepsInv(s);
    }
  }

  lemma RefreshStoreKeepsInv(s: State, c: Choice)
    requires Inv(s) && RunEnabled(s, c) && s.run.Serve? && s.run.v.RefreshStore?
    ensures Inv(ServeDo(s, s.run.t, s.run.g, s.run.v, c))
  {
    var s' := ServeDo(s, s.run.t, s.run.g, s.run.v, c);
    assert s' == s.(cached := s'.cached, publishMu := Free, run := s'.run);
  }

  lemma SectionKeepsSignals(s: State, ok: bool)
    requires Inv(s) && UpdateEnabled(s, ok) && s.update.Section?
    ensures ReconcileOk(UpdateDo(s, ok)) && FilterOk(UpdateDo(s, ok))
  {
  }

  lemma SectionKeepsAttempt(s: State, ok: bool)
    requires Inv(s) && UpdateEnabled(s, ok) && s.update.Section?
    ensures AttemptOk(UpdateDo(s, ok))
  {
    var s' := UpdateDo(s, ok);
    assert s'.run == s.run && s'.op == s.op && s'.stopped == s.stopped;
    if Classify(s.desired.cfg, s.update.d.cfg).ChangeNone? {
      assert s'.desired == s.desired;
    } else if Attempting(s.run) && !s.op.cancelled {
      assert s'.update.cancel == Some(s.op.attempts);
    }
  }

  lemma SectionKeepsLog(s: State, ok: bool)
    requires Inv(s) && UpdateEnabled(s, ok) && s.update.Section?
    ensures LiveOk(UpdateDo(s, ok)) && LogOk(UpdateDo(s, ok))
  {
    var s' := UpdateDo(s, ok);
    assert s'.log.published == s.log.published && s'.log.live == s.log.live && s'.run == s.run && s'.status == s.status;
  }

  lemma SectionKeepsPlaces(s: State, ok: bool)
    requires Inv(s) && UpdateEnabled(s, ok) && s.update.Section?
    ensures var s' := UpdateDo(s, ok);
      GensOk(s') && KnownOk(s') && SessionsOk(s') && AwaitOk(s') && StatusOk(s') && RetiringOk(s') && DoneOk(s')
  {
    var s' := UpdateDo(s, ok);
    assert s' == s.(desired := s'.desired, update := s'.update);
  }

  lemma SectionKeepsInv(s: State, ok: bool)
    requires Inv(s) && UpdateEnabled(s, ok) && s.update.Section?
    ensures Inv(UpdateDo(s, ok))
  {
    var s' := UpdateDo(s, ok);
    SectionKeepsSignals(s, ok);
    SectionKeepsAttempt(s, ok);
    SectionKeepsLog(s, ok);
    SectionKeepsPlaces(s, ok);
    if Classify(s.desired.cfg, s.update.d.cfg).ChangeNone? {
      assert s' == s.(update := Unlock);
    } else {
      assert s' == s.(desired := s.update.d, update := s'.update) && s'.update.CancelOp?;
    }
  }

  lemma CancelOpKeepsInv(s: State, ok: bool)
    requires Inv(s) && UpdateEnabled(s, ok) && s.update.CancelOp?
    ensures Inv(UpdateDo(s, ok))
  {
  }

  lemma SetTimeoutKeepsGens(s: State, ok: bool)
    requires Inv(s) && UpdateEnabled(s, ok) && s.update.SetTimeout?
    ensures GensOk(UpdateDo(s, ok))
  {
    var s' := UpdateDo(s, ok);
    forall k | 0 <= k < |s'.gens| ensures GenOk(s'.gens[k], OwnerOf(s'.run) == k) {
      assert GenOk(s.gens[k], OwnerOf(s.run) == k);
    }
    assert AllGensOk(s'.gens, OwnerOf(s'.run));
  }

  lemma SetTimeoutSettles(s: State, ok: bool)
    requires Inv(s) && UpdateEnabled(s, ok) && s.update.SetTimeout?
    ensures SessionsOk(UpdateDo(s, ok)) && ReconcileOk(UpdateDo(s, ok)) && AwaitOk(UpdateDo(s, ok))
  {
    var s' := UpdateDo(s, ok);
    assert s' == s.(gens := s'.gens, update := s'.update);
    assert forall g: nat {:trigger s'.gens[g]} :: g < |s.gens| ==>
      s'.gens[g].latch == s.gens[g].latch && s'.gens[g].session == s.gens[g].session;
  }

  lemma SetTimeoutKeepsInv(s: State, ok: bool)
    requires Inv(s) && UpdateEnabled(s, ok) && s.update.SetTimeout?
    ensures Inv(UpdateDo(s, ok))
  {
    var s' := UpdateDo(s, ok);
    SetTimeoutKeepsGens(s, ok);
    SetTimeoutSettles(s, ok);
    assert s' == s.(gens := s'.gens, update := s'.update);
  }

  lemma RepublishKeepsInv(s: State)
    requires Inv(s) && s.update.Republish?
    ensures Inv(Publish(s, s.update.d, s.update.tools).(update := Unlock))
    ensures Inv(s.(log := s.log.(missed := true), update := Unlock))
  {
    RepublishedKeepsInv(s);
  }

  lemma RepublishedKeepsInv(s: State)
    requires Inv(s) && s.update.Republish?
    ensures Inv(Publish(s, s.update.d, s.update.tools).(update := Unlock))
  {
    var s' := Publish(s, s.desired, s.update.tools).(update := Unlock);
    assert s' == s.(log := s'.log, update := Unlock);
  }

  lemma SignalKeepsInv(s: State)
    requires Inv(s) && s.update.Signal?
    ensures Inv(s.(reconcile := true, update := Unlock))
  {
  }

  lemma UnlockKeepsInv(s: State)
    requires Inv(s) && s.update.Unlock?
    ensures Inv(s.(publishMu := Free, update := Idle))
  {
  }

  lemma UpdateTailKeepsInv(s: State, ok: bool)
    requires Inv(s) && UpdateEnabled(s, ok) && (s.update.Republish? || s.update.Signal? || s.update.Unlock?)
    ensures Inv(UpdateDo(s, ok))
  {
    match s.update {
      case Republish(_, _) => RepublishKeepsInv(s);
      case Signal => SignalKeepsInv(s);
      case Unlock => UnlockKeepsInv(s);
    }
  }

  lemma StopKeepsInv(s: State)
    requires Inv(s) && StopEnabled(s)
    ensures Inv(StopDo(s))
  {
    if s.stop.StopRetire? {
      RetireEffectKeepsInv(s, s.stop.g, s.stop.stage);
    }
  }

  lemma StopSectionKeepsInv(s: State)
    requires Inv(s) && Enabled(s, StopBegin)
    ensures Inv(StopSection(s))
  {
  }

  lemma CloseFinishKeepsInv(s: State, g: nat)
    requires Inv(s) && Enabled(s, CloseFinish(g))
    ensures Inv(Do(s, CloseFinish(g)))
  {
  }

  lemma UpdateBeginKeepsInv(s: State, step: Step)
    requires Inv(s) && Enabled(s, step) && step.UpdateBegin?
    ensures Inv(Do(s, step))
  {
    var s' := Do(s, step);
    assert s' == s.(managerRev := step.rev, publishMu := HeldByUpdate, update := s'.update);
  }

  lemma CancelParentKeepsInv(s: State)
    requires Inv(s)
    ensures Inv(s.(ctxDone := true))
  {
  }

  lemma ManagerRemoveKeepsInv(s: State)
    requires Inv(s)
    ensures Inv(Do(s, ManagerRemove))
  {
    var s' := Do(s, ManagerRemove);
    assert s' == s.(log := s'.log);
  }

  lemma OuterKeepsInv(s: State, c: Choice)
    requires Inv(s) && RunEnabled(s, c) && s.run.Outer?
    ensures Inv(RunDo(s, c))
  {
    match s.run.o {
      case Top => TopKeepsInv(s, c);
      case DisabledEnter => DisabledEnterKeepsInv(s, c);
      case DisabledRetire(_, _) => DisabledRetireKeepsInv(s, c);
      case ConnectEnter => ConnectEnterKeepsInv(s, c);
      case _ => DisabledKeepsInv(s, c);
    }
  }

  lemma AttemptKeepsInv(s: State, c: Choice)
    requires Inv(s) && RunEnabled(s, c) && s.run.Attempt?
    ensures Inv(RunDo(s, c))
  {
    match s.run.a {
      case OldRetire(_, _) => OldRetireKeepsInv(s, c);
      case Creating => CreatingKeepsInv(s, c);
      case FailCheck => FailCheckKeepsInv(s, c);
      case FailFirst => FailureKeepsInv(s, c);
      case FailSecond => FailureKeepsInv(s, c);
      case BackoffWait => ExitKeepsInv(s, c);
      case Exit => ExitKeepsInv(s, c);
      case _ => TakeOldKeepsInv(s, c);
    }
  }

  lemma SessionKeepsInv(s: State, c: Choice)
    requires Inv(s) && RunEnabled(s, c) && s.run.Session?
    ensures Inv(RunDo(s, c))
  {
    match s.run.p {
      case CloseAttempt(_) => CloseAttemptKeepsInv(s, c);
      case WantPublish(_) => PublishKeepsInv(s, c);
      case PublishCheck(_) => PublishKeepsInv(s, c);
      case PublishCall(_) => PublishCallKeepsInv(s, c);
      case Recheck(_) => InstallKeepsInv(s, c);
      case RecheckUndo => InstallKeepsInv(s, c);
      case _ => OpenedKeepsInv(s, c);
    }
  }

  lemma ServeKeepsInv(s: State, c: Choice)
    requires Inv(s) && RunEnabled(s, c) && s.run.Serve?
    ensures Inv(RunDo(s, c))
  {
    match s.run.v {
      case Installed => InstalledKeepsInv(s, c);
      case Loop => ReadyKeepsInv(s, c);
      case RetireOwn(_, _) => RetireOwnKeepsInv(s, c);
      case RefreshCheck(_, _) => RefreshCheckKeepsInv(s, c);
      case RefreshCall(_, _) => RefreshCallKeepsInv(s, c);
      case RefreshStore(_, _) => RefreshStoreKeepsInv(s, c);
      case Reconciling => LeaveReadyKeepsInv(s, c);
      case Lost => LeaveReadyKeepsInv(s, c);
      case _ => RefreshKeepsInv(s, c);
    }
  }

  lemma UpdateKeepsInv(s: State, ok: bool)
    requires Inv(s) && UpdateEnabled(s, ok)
    ensures Inv(UpdateDo(s, ok))
  {
    match s.update {
      case Section(_) => SectionKeepsInv(s, ok);
      case CancelOp(_, _, _, _, _, _) => CancelOpKeepsInv(s, ok);
      case SetTimeout(_, _, _, _) => SetTimeoutKeepsInv(s, ok);
      case _ => UpdateTailKeepsInv(s, ok);
    }
  }

  lemma InvPreserved(s: State, step: Step)
    requires Inv(s) && Enabled(s, step)
    ensures Inv(Do(s, step))
  {
    match step {
      case RunStep(c) =>
        match s.run {
          case Outer(_) => OuterKeepsInv(s, c);
          case Attempt(_, _) => AttemptKeepsInv(s, c);
          case Session(_, _, _) => SessionKeepsInv(s, c);
          case Serve(_, _, _) => ServeKeepsInv(s, c);
        }
      case UpdateStep(ok) => UpdateKeepsInv(s, ok);
      case StopBegin => StopSectionKeepsInv(s);
      case StopStep => StopKeepsInv(s);
      case CloseFinish(g) => CloseFinishKeepsInv(s, g);
      case UpdateBegin(_, _) => UpdateBeginKeepsInv(s, step);
      case CancelParent => CancelParentKeepsInv(s);
      case ManagerRemove => ManagerRemoveKeepsInv(s);
    }
  }

  // ---- whole runs

  ghost predicate StepAt(run: seq<State>, steps: seq<Step>, i: nat)
    requires i < |steps| && |run| == |steps| + 1
  {
    Enabled(run[i], steps[i]) && run[i + 1] == Do(run[i], steps[i])
  }

  /** The states visited by an arbitrary interleaving of steps. */
  ghost predicate IsRun(run: seq<State>, steps: seq<Step>) {
    && |run| == |steps| + 1
    && Init(run[0])
    && forall i: nat {:trigger StepAt(run, steps, i)} :: i < |steps| ==> StepAt(run, steps, i)
  }

  lemma {:induction false} RunInvariant(run: seq<State>, steps: seq<Step>, k: nat)
    requires IsRun(run, steps) && k < |run|
    ensures Inv(run[k])
  {
    if k > 0 {
      RunInvariant(run, steps, k - 1);
      assert StepAt(run, steps, k - 1);
      InvPreserved(run[k - 1], steps[k - 1]);
    }
  }

  /** The steps that are a successful PublishServer: for a new session, for a refresh, and for an edit of the tool filter. */
  predicate PublishesSession(s: State, step: Step) {
    step == RunStep(Go) && s.run.Session? && s.run.p.PublishCall?
  }

  predicate PublishesRefresh(s: State, step: Step) {
    step == RunStep(Go) && s.run.Serve? && s.run.v.RefreshCall?
  }

  predicate PublishesEdit(s: State, step: Step) {
    step == UpdateStep(true) && s.update.Republish?
  }

  predicate Publishes(s: State, step: Step) {
    PublishesSession(s, step) || PublishesRefresh(s, step) || PublishesEdit(s, step)
  }

  /** What a step adds to the publications. */
  ghost predicate Logs(s: State, s': State, publishes: bool) {
    s'.log.published == if publishes then s.log.published + [s.desired] else s.log.published
  }

  lemma SessionPublishes(s: State, c: Choice)
    requires Inv(s) && RunEnabled(s, c) && s.run.Session?
    ensures Logs(s, SessionDo(s, s.run.t, s.run.x, s.run.p, c), c.Go? && s.run.p.PublishCall?)
    ensures s.run.p.PublishCall? ==> !s.stopped && s.desired.cfg.conn.enabled
  {
  }

  lemma ServePublishes(s: State, c: Choice)
    requires Inv(s) && RunEnabled(s, c) && s.run.Serve?
    ensures Logs(s, ServeDo(s, s.run.t, s.run.g, s.run.v, c), c.Go? && s.run.v.RefreshCall?)
    ensures s.run.v.RefreshCall? ==> !s.stopped
  {
    var s' := ServeDo(s, s.run.t, s.run.g, s.run.v, c);
    match s.run.v {
      case RefreshCall(r, _) => assert r == s.desired;
      case RetireOwn(stage, _) => assert RetireEffect(s, s.run.g, stage).log == s.log;
      case _ =>
    }
  }

  lemma UpdatePublishes(s: State, ok: bool)
    requires Inv(s) && UpdateEnabled(s, ok)
    ensures Logs(s, UpdateDo(s, ok), ok && s.update.Republish?)
    ensures s.update.Republish? ==> !s.stopped
  {
  }

  /** A step publishes the configuration desired at that instant, before Stop, or nothing;
      a new session is published for an enabled server only. */
  lemma StepPublishes(s: State, step: Step)
    requires Inv(s) && Enabled(s, step)
    ensures Logs(s, Do(s, step), Publishes(s, step))
    ensures Publishes(s, step) ==> !s.stopped
    ensures PublishesSession(s, step) ==> s.desired.cfg.conn.enabled
  {
    match step {
      case RunStep(c) =>
        match s.run {
          case Session(_, _, _) => SessionPublishes(s, c);
          case Serve(_, _, _) => ServePublishes(s, c);
          case _ =>
        }
      case UpdateStep(ok) => UpdatePublishes(s, ok);
      case StopStep => assert StopDo(s).log == s.log;
      case _ =>
    }
  }

  /** Revision fencing, step by step and over the whole run: each publication
      uses the revision desired at that instant, so the published revisions
      never decrease, and the recheck made after publishing never fires. */
  lemma RevisionFencing(run: seq<State>, steps: seq<Step>, k: nat)
    requires IsRun(run, steps) && k < |run|
    ensures forall i, j :: 0 <= i < j < |run[k].log.published| ==> run[k].log.published[i].rev <= run[k].log.published[j].rev
    ensures k < |steps| ==> Logs(run[k], run[k + 1], Publishes(run[k], steps[k]))
    ensures !(run[k].run.Session? && run[k].run.p.RecheckUndo?)
  {
    RunInvariant(run, steps, k);
    if k < |steps| {
      assert StepAt(run, steps, k);
      StepPublishes(run[k], steps[k]);
    }
  }

  /** The step adds the publication of a configuration in which the server is disabled. */
  ghost predicate PublishesDisabled(s: State, s': State) {
    && |s'.log.published| == |s.log.published| + 1
    && !s'.log.published[|s.log.published|].cfg.conn.enabled
  }

  /** Exactly when a disabled server is published: a refresh or an edit of the
      tool filter succeeds while the server is desired disabled.  It happens only
      before the run goroutine has acted on the disabling: the token that makes it
      retire the session is waiting, or it has left readyLoop already. */
  lemma DisabledIsPublishedExactly(run: seq<State>, steps: seq<Step>, k: nat)
    requires IsRun(run, steps) && k < |steps|
    ensures PublishesDisabled(run[k], run[k + 1]) <==>
      !run[k].desired.cfg.conn.enabled && (PublishesRefresh(run[k], steps[k]) || PublishesEdit(run[k], steps[k]))
    ensures PublishesDisabled(run[k], run[k + 1]) ==>
      run[k].reconcile || !(run[k].run.Serve? && InReadyLoop(run[k].run.v))
  {
    RunInvariant(run, steps, k);
    assert StepAt(run, steps, k);
    StepPublishes(run[k], steps[k]);
    if PublishesRefresh(run[k], steps[k]) || PublishesEdit(run[k], steps[k]) {
      DisablingIsSignalled(run[k], steps[k]);
    }
  }

  lemma DisablingIsSignalled(s: State, step: Step)
    requires Inv(s) && Enabled(s, step) && (PublishesRefresh(s, step) || PublishesEdit(s, step))
    ensures !s.desired.cfg.conn.enabled ==> s.reconcile || !(s.run.Serve? && InReadyLoop(s.run.v))
  {
  }

  lemma StepAfterStop(s: State, step: Step)
    requires Inv(s) && s.stopped && Enabled(s, step)
    ensures var s' := Do(s, step);
      s'.stopped && s'.log.published == s.log.published && |s'.gens| == |s.gens|
  {
    StepPublishes(s, step);
    InvPreserved(s, step);
  }

  lemma {:induction false} StopIsFinal(run: seq<State>, steps: seq<Step>, i: nat, j: nat)
    requires IsRun(run, steps) && i <= j < |run| && run[i].stopped
    ensures run[j].stopped && run[j].log.published == run[i].log.published && |run[j].gens| == |run[i].gens|
    decreases j
  {
    if i < j {
      StopIsFinal(run, steps, i, j - 1);
      assert StepAt(run, steps, j - 1);
      RunInvariant(run, steps, j - 1);
      StepAfterStop(run[j - 1], steps[j - 1]);
    }
  }

  /** After Stop's critical section nothing is published, no generation is
      installed, the coordinator hands out no generation and is never ready. */
  lemma NothingAfterStop(run: seq<State>, steps: seq<Step>, i: nat, j: nat)
    requires IsRun(run, steps) && i <= j < |run| && run[i].stopped
    ensures run[j].stopped && run[j].log.published == run[i].log.published && |run[j].gens| == |run[i].gens|
    ensures run[j].current.None? && !run[j].status.Ready?
  {
    StopIsFinal(run, steps, i, j);
    RunInvariant(run, steps, j);
  }

  /** Break-before-make: at most one session is open; none is open when a
      CreateSession begins or runs; outside readyLoop the current generation
      is nil or already closed; a generation that still admits calls is the
      latest one and owns the one open session. */
  lemma BreakBeforeMake(run: seq<State>, steps: seq<Step>, k: nat)
    requires IsRun(run, steps) && k < |run|
    ensures |run[k].log.open| <= 1
    ensures run[k].run.Attempt? || run[k].run.Outer? ==> run[k].log.open == {}
    ensures run[k].current.Some? ==> run[k].current.value < |run[k].gens|
    ensures run[k].current.Some? && !run[k].run.Serve? ==> run[k].gens[run[k].current.value].latch.Shut?
    ensures forall g :: 0 <= g < |run[k].gens| && run[k].gens[g].admission ==>
      g == |run[k].gens| - 1 && run[k].log.open == {run[k].gens[g].session}
  {
    RunInvariant(run, steps, k);
    var s := run[k];
    forall g | 0 <= g < |s.gens| ensures GenOk(s.gens[g], OwnerOf(s.run) == g) {
    }
  }

  /** No lost reconciliation: whenever no UpdateConfig is in progress, a
      readyLoop whose session was made for other connection settings, or whose
      generation has another call timeout, has a token waiting; and so has a
      run goroutine parked as disabled while the server is desired enabled. */
  lemma NoLostReconcile(run: seq<State>, steps: seq<Step>, k: nat)
    requires IsRun(run, steps) && k < |run| && run[k].update.Idle? && !run[k].stopped
    ensures run[k].run.Serve? ==> run[k].run.g < |run[k].gens|
    ensures run[k].run.Serve? && InReadyLoop(run[k].run.v) ==>
      || run[k].reconcile
      || (&& run[k].run.t.cfg.conn == run[k].desired.cfg.conn
          && run[k].gens[run[k].run.g].callTimeout == run[k].desired.cfg.callTimeout)
    ensures ParkedDisabled(run[k].run) && run[k].desired.cfg.conn.enabled ==> run[k].reconcile
  {
    RunInvariant(run, steps, k);
  }

  /** A superseded attempt does not sit out its startup timeout: once the
      update that superseded it has returned, or Stop has run its section, the
      context of the attempt is cancelled. */
  lemma SupersededAttemptIsCancelled(run: seq<State>, steps: seq<Step>, k: nat)
    requires IsRun(run, steps) && k < |run| && run[k].update.Idle? && Attempting(run[k].run)
    requires run[k].stopped || run[k].run.t != run[k].desired
    ensures OpDone(run[k])
  {
    RunInvariant(run, steps, k);
  }

  /** The state that is shown tells what the coordinator is doing, until it is stopped: disabled
      while it waits as such, connecting up to the installation, ready in readyLoop, unavailable
      while a lost session is retired, draining while an outdated one is, backoff in the wait. */
  lemma StatusTellsThePlace(run: seq<State>, steps: seq<Step>, k: nat)
    requires IsRun(run, steps) && k < |run| && !run[k].stopped
    ensures ParkedDisabled(run[k].run) ==> run[k].status.Disabled?
    ensures run[k].run.Session? || (run[k].run.Attempt? && (run[k].run.a.AwaitLimiter? || run[k].run.a.Creating?)) ==>
      run[k].status.Connecting?
    ensures run[k].run.Serve? && InReadyLoop(run[k].run.v) ==> run[k].status.Ready?
    ensures run[k].run.Serve? && run[k].run.v.RetireOwn? && run[k].run.v.fail ==> run[k].status.Unavailable?
    ensures run[k].run.Serve? && run[k].run.v.RetireOwn? && !run[k].run.v.fail ==> run[k].status.Draining? || run[k].ctxDone
    ensures run[k].run.Attempt? && run[k].run.a.BackoffWait? ==> run[k].status.Backoff?
  {
    RunInvariant(run, steps, k);
  }

  // ---- what the run goroutine does next

  /** Every step of the run goroutine takes it to another program point, except a tick in readyLoop that finds the session alive. */
  lemma StepsMoveOn(s: State, c: Choice)
    requires RunEnabled(s, c) && !(s.run.Serve? && s.run.v.Loop? && c.TakeTimer?)
    ensures RunDo(s, c).run != s.run
  {
    match s.run {
      case Outer(_) => OuterMovesOn(s, c);
      case Attempt(_, _) => AttemptMovesOn(s, c);
      case Session(_, _, _) => SessionMovesOn(s, c);
      case Serve(_, _, _) => ServeMovesOn(s, c);
    }
  }

  lemma AttemptMovesOn(s: State, c: Choice)
    requires RunEnabled(s, c) && s.run.Attempt?
    ensures AttemptDo(s, s.run.t, s.run.a, c).run != s.run
  {
  }

  lemma AttemptServesNothing(s: State, c: Choice)
    requires RunEnabled(s, c) && s.run.Attempt?
    ensures !AttemptDo(s, s.run.t, s.run.a, c).run.Serve? && |AttemptDo(s, s.run.t, s.run.a, c).gens| == |s.gens|
  {
    var s' := AttemptDo(s, s.run.t, s.run.a, c);
    if s.run.a.OldRetire? {
      assert s'.gens == RetireEffect(s, s.run.a.g, s.run.a.stage).gens;
    } else {
      assert s'.gens == s.gens;
    }
    assert s'.run.Attempt? || s'.run.Outer? || s'.run.Session?;
  }

  lemma SessionMovesOn(s: State, c: Choice)
    requires RunEnabled(s, c) && s.run.Session?
    ensures SessionDo(s, s.run.t, s.run.x, s.run.p, c).run != s.run
  {
  }

  lemma SessionServesNew(s: State, c: Choice)
    requires RunEnabled(s, c) && s.run.Session?
    ensures var s' := SessionDo(s, s.run.t, s.run.x, s.run.p, c);
      |s.gens| <= |s'.gens| && (s'.run.Serve? ==> s'.run.g == |s.gens|)
  {
  }

  lemma ServeMovesOn(s: State, c: Choice)
    requires RunEnabled(s, c) && s.run.Serve? && !(s.run.v.Loop? && c.TakeTimer?)
    ensures ServeDo(s, s.run.t, s.run.g, s.run.v, c).run != s.run
  {
  }

  lemma OuterMovesOn(s: State, c: Choice)
    requires RunEnabled(s, c) && s.run.Outer?
    ensures OuterDo(s, s.run.o, c).run != s.run
    ensures !OuterDo(s, s.run.o, c).run.Serve? && |OuterDo(s, s.run.o, c).gens| == |s.gens|
  {
  }

  /** readyLoop of generation g is where the run goroutine is. */
  predicate ServesReady(s: State, g: nat) {
    s.run.Serve? && s.run.g == g && InReadyLoop(s.run.v)
  }

  /** The choices that end readyLoop: a reconcile token, a lost session, a done context. */
  predicate Ends(s: State, step: Step) {
    && s.run.Serve? && s.run.v.Loop?
    && (step == RunStep(TakeReconcile) || step == RunStep(SessionLost) || step == RunStep(TakeDone))
  }

  lemma ServeStaysUnless(s: State, c: Choice)
    requires RunEnabled(s, c) && s.run.Serve? && InReadyLoop(s.run.v)
    ensures ServesReady(ServeDo(s, s.run.t, s.run.g, s.run.v, c), s.run.g) <==> !Ends(s, RunStep(c))
  {
  }

  lemma OthersKeepPlace(s: State, step: Step)
    requires Enabled(s, step) && !step.RunStep?
    ensures Do(s, step).run == s.run
  {
    if step.StopStep? {
      assert StopDo(s).run == s.run;
    }
  }

  /** The run goroutine leaves readyLoop exactly on one of those. */
  lemma LeavesReadyLoopExactly(run: seq<State>, steps: seq<Step>, k: nat, g: nat)
    requires IsRun(run, steps) && k < |steps| && ServesReady(run[k], g)
    ensures !ServesReady(run[k + 1], g) <==> Ends(run[k], steps[k])
  {
    RunInvariant(run, steps, k);
    assert StepAt(run, steps, k);
    if steps[k].RunStep? {
      ServeStaysUnless(run[k], steps[k].choice);
    } else {
      OthersKeepPlace(run[k], steps[k]);
    }
  }

  /** Generation g is over: it exists and readyLoop does not serve it. */
  predicate Past(s: State, g: nat) {
    g < |s.gens| && !ServesReady(s, g)
  }

  lemma ServePastIsPast(s: State, c: Choice, g: nat)
    requires RunEnabled(s, c) && Past(s, g) && s.run.Serve?
    ensures Past(ServeDo(s, s.run.t, s.run.g, s.run.v, c), g)
  {
    var s' := ServeDo(s, s.run.t, s.run.g, s.run.v, c);
    assert |s'.gens| == |s.gens|;
  }

  lemma OtherPastIsPast(s: State, c: Choice, g: nat)
    requires RunEnabled(s, c) && g < |s.gens| && !s.run.Serve?
    ensures g < |RunDo(s, c).gens| && (RunDo(s, c).run.Serve? ==> RunDo(s, c).run.g != g)
  {
    match s.run {
      case Outer(_) => OuterMovesOn(s, c);
      case Attempt(_, _) => AttemptServesNothing(s, c);
      case Session(_, _, _) => SessionServesNew(s, c);
    }
  }

  lemma PastStays(s: State, step: Step, g: nat)
    requires Inv(s) && Enabled(s, step) && Past(s, g)
    ensures Past(Do(s, step), g)
  {
    match step {
      case RunStep(c) =>
        if s.run.Serve? {
          ServePastIsPast(s, c, g);
        } else {
          OtherPastIsPast(s, c, g);
        }
      case _ =>
        OthersKeepPlace(s, step);
        assert |Do(s, step).gens| == |s.gens|;
    }
  }

  /** A generation that readyLoop has left is never served again. */
  lemma {:induction false} NeverServedAgain(run: seq<State>, steps: seq<Step>, i: nat, j: nat, g: nat)
    requires IsRun(run, steps) && i <= j < |run| && Past(run[i], g)
    ensures Past(run[j], g)
    decreases j
  {
    if i < j {
      NeverServedAgain(run, steps, i, j - 1, g);
      RunInvariant(run, steps, j - 1);
      assert StepAt(run, steps, j - 1);
      PastStays(run[j - 1], steps[j - 1], g);
    }
  }

  /** A lost session is never ignored: from the tick that sees it on, its generation is not served
      again; as long as the run goroutine is busy with it the coordinator is about to be, or is,
      unavailable (or stopped), admission has ended once the drain has begun, and when the run
      goroutine turns to something else the session is closed. */
  lemma LostSessionIsRetired(run: seq<State>, steps: seq<Step>, k: nat, j: nat)
    requires IsRun(run, steps) && k < j < |run| && steps[k] == RunStep(SessionLost) && run[k].run.Serve?
    ensures var g := run[k].run.g;
      && g < |run[j].gens| && !ServesReady(run[j], g)
      && if run[j].run.Serve? && run[j].run.g == g then
           || run[j].run.v.Lost?
           || (&& run[j].run.v.RetireOwn? && run[j].run.v.fail && (run[j].stopped || run[j].status.Unavailable?)
               && (!run[j].run.v.stage.BeforeDrain? ==> !run[j].gens[g].admission))
         else run[j].gens[g].latch.Shut? && !run[j].gens[g].admission
    decreases j
  {
    var g := run[k].run.g;
    RunInvariant(run, steps, j);
    LostStaysLost(run, steps, k, j);
    assert GenOk(run[j].gens[g], OwnerOf(run[j].run) == g);
  }

  /** While generation g is being retired after a loss, the run goroutine is at one of two points. */
  predicate LostPlace(s: State, g: nat) {
    s.run.Serve? && s.run.g == g ==> s.run.v.Lost? || (s.run.v.RetireOwn? && s.run.v.fail)
  }

  lemma ServeLostStays(s: State, c: Choice, g: nat)
    requires RunEnabled(s, c) && s.run.Serve? && LostPlace(s, g) && !ServesReady(s, g)
    ensures LostPlace(ServeDo(s, s.run.t, s.run.g, s.run.v, c), g)
  {
  }

  lemma LostPlaceStays(s: State, step: Step, g: nat)
    requires Enabled(s, step) && g < |s.gens| && LostPlace(s, g)
    ensures LostPlace(Do(s, step), g)
  {
    match step {
      case RunStep(c) =>
        if s.run.Serve? {
          ServeLostStays(s, c, g);
        } else {
          OtherPastIsPast(s, c, g);
        }
      case _ => OthersKeepPlace(s, step);
    }
  }

  lemma LossIsNoticed(s: State)
    requires Inv(s) && RunEnabled(s, SessionLost) && s.run.Serve?
    ensures s.run.v.Loop? && RunDo(s, SessionLost) == s.(run := Serve(s.run.t, s.run.g, Lost)) && s.run.g < |s.gens|
  {
  }

  lemma LossAt(run: seq<State>, steps: seq<Step>, k: nat)
    requires IsRun(run, steps) && k < |steps| && steps[k] == RunStep(SessionLost) && run[k].run.Serve?
    ensures run[k + 1].run == Serve(run[k].run.t, run[k].run.g, Lost) && run[k].run.g < |run[k + 1].gens|
  {
    RunInvariant(run, steps, k);
    assert StepAt(run, steps, k);
    LossIsNoticed(run[k]);
  }

  lemma {:induction false} LostStaysLost(run: seq<State>, steps: seq<Step>, k: nat, j: nat)
    requires IsRun(run, steps) && k < j < |run| && steps[k] == RunStep(SessionLost) && run[k].run.Serve?
    ensures LostPlace(run[j], run[k].run.g) && Past(run[j], run[k].run.g)
    decreases j
  {
    LossAt(run, steps, k);
    if k + 1 < j {
      LostStaysLost(run, steps, k, j - 1);
      assert StepAt(run, steps, j - 1);
      LostPlaceStays(run[j - 1], steps[j - 1], run[k].run.g);
      NeverServedAgain(run, steps, k + 1, j, run[k].run.g);
    }
  }

  /** The run goroutine is on its way from a failure to the backoff. */
  predicate OwesBackoff(pc: RunPc) {
    match pc
    case Attempt(_, a) => a.FailCheck? || a.FailFirst? || a.FailSecond?
    case Session(_, _, p) => p.CloseAttempt? && !p.next.GiveUp?
    case Serve(_, _, v) => v.Lost? || (v.RetireOwn? && v.fail)
    case _ => false
  }

  /** A failed connection attempt, listing or publication, and a lost session, lead to the backoff;
      the way there is left early only when the attempt was superseded or cancelled, or on Stop. */
  lemma FailureLeadsToBackoff(s: State, c: Choice)
    requires RunEnabled(s, c)
    ensures var next := RunDo(s, c).run;
      && ((s.run.Attempt? && s.run.a.Creating? && c.Failure?) ==> OwesBackoff(next))
      && ((s.run.Session? && (s.run.p.Listing? || s.run.p.PublishCall?) && c.Failure?) ==> OwesBackoff(next))
      && ((s.run.Serve? && s.run.v.Loop? && c.SessionLost?) ==> OwesBackoff(next))
      && (OwesBackoff(s.run) ==> BackoffFollows(s, next))
  {
    match s.run {
      case Outer(_) =>
      case Attempt(_, _) => AttemptFailureLeads(s, c);
      case Session(_, _, _) => SessionFailureLeads(s, c);
      case Serve(_, _, _) => ServeFailureLeads(s, c);
    }
  }

  predicate BackoffFollows(s: State, next: RunPc) {
    || OwesBackoff(next) || (next.Attempt? && next.a.BackoffWait?)
    || (&& next.Attempt? && next.a.Exit?
        && (s.stopped || OpDone(s) || (s.run.Attempt? && s.run.a.FailCheck? && !TargetCurrent(s, s.run.t))))
  }

  lemma AttemptFailureLeads(s: State, c: Choice)
    requires RunEnabled(s, c) && s.run.Attempt?
    ensures var next := AttemptDo(s, s.run.t, s.run.a, c).run;
      (s.run.a.Creating? && c.Failure? ==> OwesBackoff(next)) && (OwesBackoff(s.run) ==> BackoffFollows(s, next))
  {
  }

  lemma SessionFailureLeads(s: State, c: Choice)
    requires RunEnabled(s, c) && s.run.Session?
    ensures var next := SessionDo(s, s.run.t, s.run.x, s.run.p, c).run;
      && ((s.run.p.Listing? || s.run.p.PublishCall?) && c.Failure? ==> OwesBackoff(next))
      && (OwesBackoff(s.run) ==> BackoffFollows(s, next))
  {
  }

  lemma ServeFailureLeads(s: State, c: Choice)
    requires RunEnabled(s, c) && s.run.Serve?
    ensures var next := ServeDo(s, s.run.t, s.run.g, s.run.v, c).run;
      (s.run.v.Loop? && c.SessionLost? ==> OwesBackoff(next)) && (OwesBackoff(s.run) ==> BackoffFollows(s, next))
  {
  }

  /** A connection attempt is given up exactly when it is no longer for the desired revision of an enabled server. */
  lemma AttemptIsGivenUpExactly(s: State, c: Choice)
    requires Inv(s) && RunEnabled(s, c) && s.run.Session? && (s.run.p.Opened? || s.run.p.PublishCheck?)
    ensures var next := RunDo(s, c).run;
      && next.Session? && next.x == s.run.x
      && (next.p == CloseAttempt(GiveUp) <==> s.stopped || !s.desired.cfg.conn.enabled || s.desired.rev != s.run.t.rev)
      && (next.p != CloseAttempt(GiveUp) ==> if s.run.p.Opened? then next.p.Listing? else next.p == PublishCall(s.run.p.tools))
  {
  }

  /** At the top of its loop the run goroutine finishes, waits as disabled or connects, as stopping and the desired state say. */
  lemma TopDecides(s: State)
    requires s.run == Outer(Top)
    ensures RunEnabled(s, Go)
    ensures RunDo(s, Go).run == Outer(if s.stopped || s.ctxDone then Finished
                                      else if s.desired.cfg.conn.enabled then ConnectEnter else DisabledEnter)
  {
  }

  /** What happens to a disabled server: it is shown as disabled, its routes are removed under
      publishMu, its generation, if any, is drained and closed, and then the run goroutine waits
      until something happens and looks again. */
  lemma DisablingRuns(s: State, c: Choice)
    requires RunEnabled(s, c) && s.run.Outer?
    ensures var s' := RunDo(s, c);
      match s.run.o
      case DisabledEnter =>
        if s.stopped then s'.run == Outer(Top)
        else s'.run == Outer(DisabledRemove(s.current)) && s'.status.Disabled? && s'.current.None?
      case DisabledRemove(g) =>
        && s.publishMu.Free? && s'.log.live.None?
        && s'.run == Outer(if g.Some? then DisabledRetire(g.value, BeforeDrain) else DisabledWait)
      case DisabledRetire(g, stage) =>
        && s'.gens == RetireEffect(s, g, stage).gens
        && s'.run == Outer(match stage
                           case BeforeDrain => DisabledRetire(g, BeforeClose)
                           case BeforeClose => DisabledRetire(g, AwaitClose)
                           case AwaitClose => DisabledWait)
      case DisabledWait => s'.run == Outer(Top) && (s'.reconcile <==> s.reconcile && c != TakeReconcile)
      case ConnectEnter =>
        if s.stopped || s.ctxDone then s'.run == Outer(Top)
        else && s'.run == Attempt(s.desired, TakeOld) && s'.status.Connecting?
             && s'.op == Operation(true, s.desired.rev, false, s.op.attempts + 1)
      case _ => true
  {
  }

  /** What a connection attempt does besides failing: it takes out, drains and closes an old
      generation, waits for the limiter, creates a session, and in the end gives its context up. */
  lemma AttemptRuns(s: State, c: Choice)
    requires RunEnabled(s, c) && s.run.Attempt?
    ensures var s', t := AttemptDo(s, s.run.t, s.run.a, c), s.run.t;
      match s.run.a
      case TakeOld =>
        s'.current.None? && s'.run == Attempt(t, if s.current.Some? then OldRetire(s.current.value, BeforeDrain) else AwaitLimiter)
      case OldRetire(g, stage) =>
        s'.run == Attempt(t, match stage
                             case BeforeDrain => OldRetire(g, BeforeClose)
                             case BeforeClose => OldRetire(g, AwaitClose)
                             case AwaitClose => AwaitLimiter)
      case AwaitLimiter => s'.run == Attempt(t, if c.Go? then Creating else Exit)
      case Creating => c.Go? ==> s'.run == Session(t, s.log.sessions, Opened) && s'.log.open == s.log.open + {s.log.sessions}
      case BackoffWait => s'.run == Attempt(t, Exit) && (s'.reconcile <==> s.reconcile && c != TakeReconcile)
      case Exit => s'.run == Outer(Top) && s'.op.cancelled
      case _ => true
  {
  }

  /** UpdateConfig takes effect in its section: the new configuration is desired from then on,
      with its revision, unless it equals the one desired already (server IDs are not compared). */
  lemma UpdateTakesEffect(s: State, ok: bool)
    requires UpdateEnabled(s, ok) && s.update.Section?
    ensures UpdateDo(s, ok).desired ==
      if s.update.d.cfg == s.desired.cfg.(id := s.update.d.cfg.id) then s.desired else s.update.d
  {
  }

  /** The tools that a session lists are the ones it publishes, caches and serves. */
  lemma SessionCarriesTools(s: State, c: Choice)
    requires Inv(s) && RunEnabled(s, c) && s.run.Session?
    ensures var s' := RunDo(s, c);
      && (s.run.p.Listing? && c.Tools? ==> s'.run == Session(s.run.t, s.run.x, WantPublish(c.tools)))
      && (s.run.p.WantPublish? ==> s'.run == Session(s.run.t, s.run.x, PublishCheck(s.run.p.tools)))
      && (s.run.p.PublishCall? && c.Go? ==>
            && s'.run == Session(s.run.t, s.run.x, Recheck(s.run.p.tools))
            && s'.log.live == Some(Publication(s.run.t, s.run.p.tools)))
      && (s.run.p.Recheck? ==>
            && s'.run == Serve(s.run.t, |s.gens|, Installed) && s'.cached == s.run.p.tools && s'.status.Ready?
            && s'.current == Some(|s.gens|)
            && s'.gens == s.gens + [Generation(s.run.t, s.run.x, true, Open, s.run.t.cfg.callTimeout)])
  {
  }

  /** A refresh is begun for every notification that readyLoop takes; it lists exactly when its
      generation is the current one and ready, for the configuration desired at that moment. */
  lemma RefreshBegins(s: State, c: Choice)
    requires Inv(s) && RunEnabled(s, c) && s.run.Serve?
    ensures var next := RunDo(s, c).run;
      && (s.run.v.Loop? && c.TakeRefresh? ==> next == Serve(s.run.t, s.run.g, RefreshEnter))
      && (s.run.v.RefreshEnter? ==>
            next == Serve(s.run.t, s.run.g, if s.current == Some(s.run.g) && s.status.Ready? then RefreshList(s.desired) else Loop))
      && (s.run.v.RefreshList? && c.Tools? ==> next == Serve(s.run.t, s.run.g, RefreshWant(s.run.v.r, c.tools)))
      && (s.run.v.RefreshWant? ==> next == Serve(s.run.t, s.run.g, RefreshCheck(s.run.v.r, s.run.v.tools)))
  {
  }

  /** A refresh that has listed the tools publishes them unless, in the meantime, the coordinator
      stopped, the generation was replaced or is not ready, or another revision is desired. */
  lemma RefreshPublishesUnless(s: State, c: Choice)
    requires Inv(s) && RunEnabled(s, c) && s.run.Serve? && s.run.v.RefreshCheck?
    ensures var next := RunDo(s, c).run;
      && next.Serve? && next.g == s.run.g
      && (next.v == RefreshCall(s.run.v.r, s.run.v.tools) <==>
            !s.stopped && s.current == Some(s.run.g) && s.status.Ready? && s.desired.rev == s.run.v.r.rev)
      && (next.v.RefreshCall? || next.v.Loop?)
  {
  }

  /** When Stop is done every generation is closed and the context is done; the run goroutine ends only after that begins. */
  lemma StopCompletes(run: seq<State>, steps: seq<Step>, k: nat)
    requires IsRun(run, steps) && k < |run|
    ensures run[k].stop.StopDone? ==> run[k].stopped && run[k].ctxDone && AllShut(run[k].gens)
    ensures run[k].run == Outer(Finished) ==> run[k].stopped || run[k].ctxDone
  {
    RunInvariant(run, steps, k);
  }

  /** A run goroutine parked as disabled has left no routes behind. */
  lemma DisabledServerHasNoRoutes(run: seq<State>, steps: seq<Step>, k: nat)
    requires IsRun(run, steps) && k < |run| && ParkedDisabled(run[k].run)
    ensures run[k].log.live.None?
  {
    RunInvariant(run, steps, k);
  }

  /** No lost tool filter: whenever no UpdateConfig is in progress, a readyLoop
      without a waiting token has the catalog show no tools or what the desired
      tool filter leaves, unless since the last publication the republication of
      an edit failed or the manager removed the server. */
  lemma NoLostToolFilter(run: seq<State>, steps: seq<Step>, k: nat)
    requires IsRun(run, steps) && k < |run| && run[k].update.Idle? && !run[k].stopped && !run[k].reconcile
    requires run[k].run.Serve? && InReadyLoop(run[k].run.v)
    ensures || run[k].log.removed || run[k].log.missed
            || (&& run[k].log.live.Some?
                && (|| run[k].log.live.value.tools == []
                    || run[k].log.live.value.d.cfg.disabledTools == run[k].desired.cfg.disabledTools))
  {
    RunInvariant(run, steps, k);
  }

  /** A readyLoop is ready, and the catalog shows the tools it discovered last, unless the manager removed the server. */
  lemma ReadyLoopIsShown(run: seq<State>, steps: seq<Step>, k: nat)
    requires IsRun(run, steps) && k < |run| && !run[k].stopped && run[k].run.Serve? && InReadyLoop(run[k].run.v)
    ensures run[k].status.Ready?
    ensures run[k].log.removed || (run[k].log.live.Some? && run[k].log.live.value.tools == ShownTools(run[k]))
  {
    RunInvariant(run, steps, k);
  }

  /** Whoever holds publishMu can take its next step: the lock is never held by somebody who waits. */
  lemma HolderCanProceed(run: seq<State>, steps: seq<Step>, k: nat)
    requires IsRun(run, steps) && k < |run|
    ensures run[k].publishMu.HeldByRun? ==> RunEnabled(run[k], Go)
    ensures run[k].publishMu.HeldByUpdate? ==> UpdateEnabled(run[k], true)
  {
    RunInvariant(run, steps, k);
  }

  /** No deadlock: unless it has finished, the run goroutine has a step or an event of
      its own to wait for, or it waits for an UpdateConfig that has one, or for a Close that has begun and can finish. */
  lemma RunGoroutineIsNeverStuck(run: seq<State>, steps: seq<Step>, k: nat)
    requires IsRun(run, steps) && k < |run| && run[k].run != Outer(Finished)
    ensures || (exists c :: RunEnabled(run[k], c))
            || (run[k].publishMu.HeldByUpdate? && UpdateEnabled(run[k], true))
            || (exists g :: Enabled(run[k], CloseFinish(g)))
  {
    RunInvariant(run, steps, k);
    RunCanProceed(run[k]);
  }

  lemma RunCanProceed(s: State)
    requires Inv(s) && s.run != Outer(Finished)
    ensures || (exists c :: RunEnabled(s, c))
            || (s.publishMu.HeldByUpdate? && UpdateEnabled(s, true))
            || (exists g :: Enabled(s, CloseFinish(g)))
  {
    var waiting: Option<nat> :=
      match s.run
      case Outer(o) => if o.DisabledRetire? then Some(o.g) else None
      case Attempt(_, a) => if a.OldRetire? then Some(a.g) else None
      case Serve(_, g, v) => if v.RetireOwn? then Some(g) else None
      case _ => None;
    if waiting.Some? {
      assert RunEnabled(s, Go) || Enabled(s, CloseFinish(waiting.value));
    } else if WantsLock(s.run) {
      assert s.publishMu.Free? ==> RunEnabled(s, Go);
    } else {
      assert RunEnabled(s, Go) || RunEnabled(s, TakeRefresh) || RunEnabled(s, Failure);
    }
  }

  predicate WantsLock(pc: RunPc) {
    || (pc.Outer? && pc.o.DisabledRemove?)
    || (pc.Session? && pc.p.WantPublish?)
    || (pc.Serve? && pc.v.RefreshWant?)
  }

  /** Stop, once past its section, is never stuck either. */
  lemma StopIsNeverStuck(run: seq<State>, steps: seq<Step>, k: nat)
    requires IsRun(run, steps) && k < |run| && run[k].stopped && !run[k].stop.StopDone?
    ensures StopEnabled(run[k]) || exists g :: Enabled(run[k], CloseFinish(g))
  {
    RunInvariant(run, steps, k);
    var s := run[k];
    if s.stop.StopRetire? {
      assert StopEnabled(s) || Enabled(s, CloseFinish(s.stop.g));
    }
  }
}
