/** Concrete runs of the coordinator in which a disabled server is published:
    the two cases that DisabledIsPublishedExactly leaves. */
module LifecycleWitnesses {
  import opened ServerConfig
  import opened Lifecycle
  import opened LifecycleProofs
  import opened Options

  /** Some run ends in s. */
  ghost predicate Reachable(s: State) {
    exists run: seq<State>, steps: seq<Step> {:trigger IsRun(run, steps)} :: IsRun(run, steps) && run[|run| - 1] == s
  }

  lemma InitIsReachable(s: State)
    requires Init(s)
    ensures Reachable(s)
  {
    assert IsRun([s], []);
  }

  lemma StepIsReachable(s: State, step: Step)
    requires Reachable(s) && Enabled(s, step)
    ensures Reachable(Do(s, step))
  {
    var run: seq<State>, steps: seq<Step> :| IsRun(run, steps) && run[|run| - 1] == s;
    var run', steps' := run + [Do(s, step)], steps + [step];
    forall i: nat | i < |steps'| ensures StepAt(run', steps', i) {
      if i < |steps| {
        assert StepAt(run, steps, i);
        assert run'[i] == run[i] && run'[i + 1] == run[i + 1] && steps'[i] == steps[i];
      }
    }
    assert IsRun(run', steps');
  }

  function Server(enabled: bool, disabled: set<string>): ResolvedServer {
    ResolvedServer("a", Connection(enabled, "stdio", "run", [], "", map[], "", map[], 1, 1), disabled, 1)
  }

  const On: Desired := Desired(1, Server(true, {}))

  function Start(): State {
    State(On, 1, Connecting, false, None, [], [], Free, false, false, Operation(false, 0, false, 0),
          Outer(Top), Idle, NotStopped, Log(0, {}, [], None, false, false, 0, 0))
  }

  /** Connecting: up to the call of CreateSession. */
  lemma ReachCreating() returns (s: State)
    ensures Reachable(s)
    ensures s == Start().(op := Operation(true, 1, false, 1), run := Attempt(On, Creating))
  {
    var s0 := Start();
    InitIsReachable(s0);
    StepIsReachable(s0, RunStep(Go));
    var s1 := s0.(run := Outer(ConnectEnter));
    assert Do(s0, RunStep(Go)) == s1;
    StepIsReachable(s1, RunStep(Go));
    var s2 := s1.(op := Operation(true, 1, false, 1), run := Attempt(On, TakeOld));
    assert Do(s1, RunStep(Go)) == s2;
    StepIsReachable(s2, RunStep(Go));
    var s3 := s2.(run := Attempt(On, AwaitLimiter));
    assert Do(s2, RunStep(Go)) == s3;
    StepIsReachable(s3, RunStep(Go));
    s := s3.(run := Attempt(On, Creating));
    assert Do(s3, RunStep(Go)) == s;
  }

  /** A session that is about to publish. */
  lemma ReachPublishing() returns (s: State)
    ensures Reachable(s)
    ensures s == Start().(op := Operation(true, 1, false, 1), publishMu := HeldByRun,
                          run := Session(On, 0, PublishCall(["t"])), log := Log(1, {0}, [], None, false, false, 0, 0))
  {
    var s0 := ReachCreating();
    StepIsReachable(s0, RunStep(Go));
    var s1 := s0.(log := Log(1, {0}, [], None, false, false, 0, 0), run := Session(On, 0, Opened));
    assert Do(s0, RunStep(Go)) == s1;
    StepIsReachable(s1, RunStep(Go));
    var s2 := s1.(run := Session(On, 0, Listing));
    assert Do(s1, RunStep(Go)) == s2;
    StepIsReachable(s2, RunStep(Tools(["t"])));
    var s3 := s2.(run := Session(On, 0, WantPublish(["t"])));
    assert Do(s2, RunStep(Tools(["t"]))) == s3;
    StepIsReachable(s3, RunStep(Go));
    var s4 := s3.(publishMu := HeldByRun, run := Session(On, 0, PublishCheck(["t"])));
    assert Do(s3, RunStep(Go)) == s4;
    StepIsReachable(s4, RunStep(Go));
    s := s4.(run := Session(On, 0, PublishCall(["t"])));
    assert Do(s4, RunStep(Go)) == s;
  }

  const Gen0: Generation := Generation(On, 0, true, Open, 1)

  /** Serving, with one tool. */
  function Serving(): State {
    State(On, 1, Ready, false, Some(0), [Gen0], ["t"], Free, false, false, Operation(false, 1, false, 1),
          Serve(On, 0, Loop), Idle, NotStopped, Log(1, {0}, [On], Some(Publication(On, ["t"])), false, false, 0, 0))
  }

  lemma ReachServing()
    ensures Reachable(Serving())
  {
    var s0 := ReachPublishing();
    StepIsReachable(s0, RunStep(Go));
    var s1 := s0.(log := Log(1, {0}, [On], Some(Publication(On, ["t"])), false, false, 0, 0), run := Session(On, 0, Recheck(["t"])));
    assert Do(s0, RunStep(Go)) == s1;
    StepIsReachable(s1, RunStep(Go));
    var s2 := s1.(gens := [Gen0], current := Some(0), cached := ["t"], status := Ready,
                  op := Operation(false, 1, false, 1), run := Serve(On, 0, Installed));
    assert Do(s1, RunStep(Go)) == s2;
    StepIsReachable(s2, RunStep(Go));
    assert Do(s2, RunStep(Go)) == Serving();
  }

  const Off: Desired := Desired(2, Server(false, {}))

  /** The server was disabled and the token is waiting. */
  lemma ReachDisabling()
    ensures Reachable(Serving().(desired := Off, managerRev := 2, reconcile := true))
  {
    ReachServing();
    var s0 := Serving();
    StepIsReachable(s0, UpdateBegin(2, Off.cfg));
    var s1 := s0.(managerRev := 2, publishMu := HeldByUpdate, update := Section(Off));
    assert Do(s0, UpdateBegin(2, Off.cfg)) == s1;
    StepIsReachable(s1, UpdateStep(true));
    var s2 := s1.(desired := Off, update := CancelOp(Off, ChangeConnection, None, Some(0), false, ["t"]));
    assert Do(s1, UpdateStep(true)) == s2;
    StepIsReachable(s2, UpdateStep(true));
    var s3 := s2.(update := Signal);
    assert Do(s2, UpdateStep(true)) == s3;
    StepIsReachable(s3, UpdateStep(true));
    var s4 := s3.(reconcile := true, update := Unlock);
    assert Do(s3, UpdateStep(true)) == s4;
    StepIsReachable(s4, UpdateStep(true));
    assert Do(s4, UpdateStep(true)) == s4.(publishMu := Free, update := Idle);
  }

  /** A refresh that begins before the token is taken has listed the tools. */
  lemma ReachRefreshing() returns (s: State)
    ensures Reachable(s)
    ensures s == Serving().(desired := Off, managerRev := 2, reconcile := true, run := Serve(On, 0, RefreshWant(Off, ["t"])))
  {
    ReachDisabling();
    var s0 := Serving().(desired := Off, managerRev := 2, reconcile := true);
    StepIsReachable(s0, RunStep(TakeRefresh));
    var s1 := s0.(run := Serve(On, 0, RefreshEnter));
    assert Do(s0, RunStep(TakeRefresh)) == s1;
    StepIsReachable(s1, RunStep(Go));
    var s2 := s1.(run := Serve(On, 0, RefreshList(Off)));
    assert Do(s1, RunStep(Go)) == s2;
    StepIsReachable(s2, RunStep(Tools(["t"])));
    s := s2.(run := Serve(On, 0, RefreshWant(Off, ["t"])));
    assert Do(s2, RunStep(Tools(["t"]))) == s;
  }

  /** It publishes the disabled server. */
  lemma RefreshPublishesDisabled() returns (s: State, step: Step)
    ensures Reachable(s) && Enabled(s, step) && PublishesRefresh(s, step) && PublishesDisabled(s, Do(s, step))
  {
    var s0 := ReachRefreshing();
    StepIsReachable(s0, RunStep(Go));
    var s1 := s0.(publishMu := HeldByRun, run := Serve(On, 0, RefreshCheck(Off, ["t"])));
    assert Do(s0, RunStep(Go)) == s1;
    StepIsReachable(s1, RunStep(Go));
    s := s1.(run := Serve(On, 0, RefreshCall(Off, ["t"])));
    assert Do(s1, RunStep(Go)) == s;
    step := RunStep(Go);
  }

  /** An edit of the tool filter that arrives before the token is taken publishes the disabled server. */
  lemma EditPublishesDisabled() returns (s: State, step: Step)
    ensures Reachable(s) && Enabled(s, step) && PublishesEdit(s, step) && PublishesDisabled(s, Do(s, step))
  {
    ReachDisabling();
    var edit := Desired(3, Server(false, {"x"}));
    var s0 := Serving().(desired := Off, managerRev := 2, reconcile := true);
    StepIsReachable(s0, UpdateBegin(3, edit.cfg));
    var s1 := s0.(managerRev := 3, publishMu := HeldByUpdate, update := Section(edit));
    assert Do(s0, UpdateBegin(3, edit.cfg)) == s1;
    StepIsReachable(s1, UpdateStep(true));
    assert "x" in edit.cfg.disabledTools && "x" !in Off.cfg.disabledTools;
    var s2 := s1.(desired := edit, update := CancelOp(edit, ChangeToolsOnly, None, Some(0), true, ["t"]));
    assert Do(s1, UpdateStep(true)) == s2;
    StepIsReachable(s2, UpdateStep(true));
    s := s2.(update := Republish(edit, ["t"]));
    assert Do(s2, UpdateStep(true)) == s;
    step := UpdateStep(true);
  }
}
