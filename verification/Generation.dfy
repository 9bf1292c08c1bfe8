/** One generation of a downstream session: admission, the count of active
    leases, the one-slot drain channel and the close-once latch
    (internal/manager/types.go).

    The critical sections of the Go methods are the functions `AfterAcquire`,
    `AfterRelease`, `AfterStopAdmission` and `AfterClose`.  The class
    `Generation` runs them in place; module `DrainProtocol` interleaves them. */
module GenerationState {
  const DEFAULT_MAX_CONCURRENCY: nat := 8

  datatype Gen = Gen(maxConcurrency: nat, admission: bool, active: int, drainToken: bool, closed: bool)

  datatype Grant = Granted | NotAdmitting | ConcurrencyLimit

  function Fresh(maxConcurrency: int): Gen {
    Gen(if maxConcurrency <= 0 then DEFAULT_MAX_CONCURRENCY else maxConcurrency, true, 0, false, false)
  }

  function Decide(g: Gen): Grant {
    if !g.admission || g.closed then NotAdmitting
    else if g.active >= g.maxConcurrency then ConcurrencyLimit
    else Granted
  }

  function AfterAcquire(g: Gen): Gen {
    if Decide(g).Granted? then g.(active := g.active + 1) else g
  }

  /** The decrement, the clamp at zero and the non-blocking send. */
  function AfterRelease(g: Gen): Gen {
    if g.active - 1 <= 0 then g.(active := 0, drainToken := true) else g.(active := g.active - 1)
  }

  function AfterStopAdmission(g: Gen): Gen {
    g.(admission := false)
  }

  function AfterClose(g: Gen): Gen {
    g.(admission := false, closed := true)
  }

  /** A lease is released at most once, whatever its holder does (`releaseOnce`). */
  class Lease {
    const gen: Generation
    var released: bool

    constructor (gen: Generation)
      ensures this.gen == gen && !released
    {
      this.gen := gen;
      released := false;
    }

    method Release()
      requires gen.Valid() && (!released ==> this in gen.outstanding)
      modifies this, gen
      ensures gen.Valid() && released
      ensures gen.outstanding == old(gen.outstanding) - {this}
      ensures gen.View() == if this in old(gen.outstanding) then AfterRelease(old(gen.View())) else old(gen.View())
      ensures this in old(gen.outstanding) ==> gen.active == old(gen.active) - 1
    {
      if !released {
        released := true;
        gen.ReleaseOne(this);
      }
    }
  }

  class Generation {
    const maxConcurrency: nat
    var admission: bool
    var active: int
    var drainToken: bool
    var closed: bool
    var sessionCloses: nat
    var closeStarted: bool
    ghost var outstanding: set<Lease>   // the leases handed out and not yet released

    ghost predicate Valid()
      reads this, outstanding
    {
      && active == |outstanding|
      && active <= maxConcurrency
      && (closed ==> !admission)
      && closeStarted == closed
      && sessionCloses == (if closed then 1 else 0)
      && forall l :: l in outstanding ==> l.gen == this && !l.released
    }

    ghost function View(): Gen
      reads this
    {
      Gen(maxConcurrency, admission, active, drainToken, closed)
    }

    constructor (max: int)
      ensures Valid() && View() == Fresh(max) && outstanding == {}
      ensures admission && !closed && maxConcurrency == if max <= 0 then 8 else max
    {
      maxConcurrency := if max <= 0 then DEFAULT_MAX_CONCURRENCY else max;
      admission, active, drainToken, closed := true, 0, false, false;
      sessionCloses, closeStarted, outstanding := 0, false, {};
    }

    method Acquire() returns (grant: Grant, lease: Lease?)
      requires Valid()
      modifies this
      ensures Valid() && grant == Decide(old(View())) && View() == AfterAcquire(old(View()))
      ensures grant.Granted? ==> lease != null && fresh(lease) && lease.gen == this && !lease.released
                                 && outstanding == old(outstanding) + {lease}
      ensures !grant.Granted? ==> lease == null && outstanding == old(outstanding)
      ensures sessionCloses == old(sessionCloses)
      ensures grant.Granted? <==> old(admission) && !old(closed) && |old(outstanding)| < maxConcurrency
      ensures grant.ConcurrencyLimit? <==> old(admission) && !old(closed) && |old(outstanding)| == maxConcurrency
    {
      lease := null;
      if !admission || closed {
        return NotAdmitting, null;
      }
      if active >= maxConcurrency {
        return ConcurrencyLimit, null;
      }
      active := active + 1;
      var l := new Lease(this);
      outstanding := outstanding + {l};
      return Granted, l;
    }

    /** The critical section of `release`, for a lease that is still out. */
    method ReleaseOne(l: Lease)
      requires l in outstanding && l.released
      requires active == |outstanding| && active <= maxConcurrency
      requires (closed ==> !admission) && closeStarted == closed && sessionCloses == (if closed then 1 else 0)
      requires forall k :: k in outstanding - {l} ==> k.gen == this && !k.released
      modifies this
      ensures Valid() && View() == AfterRelease(old(View())) && outstanding == old(outstanding) - {l}
      ensures active == old(active) - 1
    {
      active := active - 1;
      outstanding := outstanding - {l};
      if active <= 0 {
        active := 0;
        drainToken := true;
      }
    }

    /** The first critical section of `drain`. */
    method StopAdmission() returns (idle: bool)
      requires Valid()
      modifies this
      ensures Valid() && View() == AfterStopAdmission(old(View()))
      ensures outstanding == old(outstanding) && (idle <==> outstanding == {})
      ensures sessionCloses == old(sessionCloses)
    {
      admission := false;
      idle := active == 0;
    }

    /** `Close` runs its body once: the session is closed exactly once over any number of calls. */
    method Close()
      requires Valid()
      modifies this
      ensures Valid() && View() == AfterClose(old(View()))
      ensures outstanding == old(outstanding) && sessionCloses == 1
    {
      if !closeStarted {
        closeStarted := true;
        admission := false;
        closed := true;
        sessionCloses := sessionCloses + 1;
      }
    }
  }
}

/** Every interleaving of lease holders and retirers of one generation.  A
    retirer runs `drain` and then `Close`, which is how every caller in
    internal/manager/coordinator.go retires a generation. */
module DrainProtocol {
  import opened GenerationState

  /** Program counter of a retirer. */
  datatype Retirer =
    | NotStarted
    | Rechecking                  // about to lock and look at `active` again
    | Parked                      // in the select on drainCh and the timer
    | DrainReturned(timedOut: bool)
    | InClose(timedOut: bool)     // inside closeOnce.Do
    | Retired(timedOut: bool)

  datatype Latch = Untouched | Running(owner: nat) | Done(owner: nat)

  datatype System = System(
    gen: Gen,
    held: set<nat>,               // leases handed out and not yet released
    issued: nat,                  // number of leases ever handed out
    retirers: seq<Retirer>,
    close: Latch)                 // closeOnce; the session is closed when Done

  datatype Step =
    | Acquire
    | Release(lease: nat)
    | DrainStart(r: nat)
    | Recheck(r: nat)
    | Wake(r: nat)
    | Timeout(r: nat)
    | CloseEnter(r: nat)
    | CloseFinish
    | CloseReturn(r: nat)

  ghost predicate Init(s: System, retirers: nat) {
    && (exists max: int :: s.gen == Fresh(max))
    && s.held == {} && s.issued == 0 && s.close == Untouched
    && |s.retirers| == retirers
    && forall r :: 0 <= r < retirers ==> s.retirers[r] == NotStarted
  }

  predicate Enabled(s: System, step: Step) {
    match step
    case Acquire => true
    case Release(l) => l < s.issued
    case DrainStart(r) => r < |s.retirers| && s.retirers[r].NotStarted?
    case Recheck(r) => r < |s.retirers| && s.retirers[r].Rechecking?
    case Wake(r) => r < |s.retirers| && s.retirers[r].Parked? && s.gen.drainToken
    case Timeout(r) => r < |s.retirers| && s.retirers[r].Parked?
    case CloseEnter(r) => r < |s.retirers| && s.retirers[r].DrainReturned?
    case CloseFinish => s.close.Running?
    case CloseReturn(r) => r < |s.retirers| && s.retirers[r].InClose? && s.close.Done?
  }

  function Do(s: System, step: Step): System
    requires Enabled(s, step)
  {
    match step
    case Acquire =>
      if Decide(s.gen).Granted?
      then s.(gen := AfterAcquire(s.gen), held := s.held + {s.issued}, issued := s.issued + 1)
      else s
    case Release(l) =>
      if l in s.held then s.(gen := AfterRelease(s.gen), held := s.held - {l}) else s
    case DrainStart(r) =>
      s.(gen := AfterStopAdmission(s.gen),
         retirers := s.retirers[r := if s.gen.active == 0 then DrainReturned(false) else Rechecking])
    case Recheck(r) =>
      s.(retirers := s.retirers[r := if s.gen.active == 0 then DrainReturned(false) else Parked])
    case Wake(r) =>
      s.(gen := s.gen.(drainToken := false), retirers := s.retirers[r := Rechecking])
    case Timeout(r) =>
      s.(retirers := s.retirers[r := DrainReturned(true)])
    case CloseEnter(r) =>
      var out := s.retirers[r := InClose(s.retirers[r].timedOut)];
      if s.close.Untouched? then s.(gen := AfterClose(s.gen), retirers := out, close := Running(r))
      else s.(retirers := out)
    case CloseFinish => s.(close := Done(s.close.owner))
    case CloseReturn(r) =>
      s.(retirers := s.retirers[r := Retired(s.retirers[r].timedOut)])
  }

  ghost predicate Next(s: System, s': System) {
    exists step :: Enabled(s, step) && s' == Do(s, step)
  }

  ghost predicate StepAt(run: seq<System>, i: nat)
    requires i + 1 < |run|
  {
    Next(run[i], run[i + 1])
  }

  ghost predicate IsRun(run: seq<System>, retirers: nat) {
    && |run| > 0
    && Init(run[0], retirers)
    && forall i: nat {:trigger StepAt(run, i)} :: i + 1 < |run| ==> StepAt(run, i)
  }

  predicate PastDrain(r: Retirer) {
    r.DrainReturned? || r.InClose? || r.Retired?
  }

  /** A drain of this generation has returned because it saw no active lease. */
  predicate DrainedIdle(s: System) {
    exists r :: 0 <= r < |s.retirers| && PastDrain(s.retirers[r]) && !s.retirers[r].timedOut
  }

  predicate DrainTimedOut(s: System) {
    exists r :: 0 <= r < |s.retirers| && PastDrain(s.retirers[r]) && s.retirers[r].timedOut
  }

  predicate Retiring(s: System) {
    exists r :: 0 <= r < |s.retirers| && !s.retirers[r].NotStarted?
  }

  predicate RetirerOk(s: System, r: Retirer) {
    && (!r.NotStarted? ==> !s.gen.admission)
    && (PastDrain(r) && !r.timedOut ==> s.held == {})
    && (r.InClose? ==> !s.close.Untouched?)
    && (r.Retired? ==> s.close.Done?)
  }

  predicate Inv(s: System) {
    && s.gen.active == |s.held|
    && s.gen.active <= s.gen.maxConcurrency
    && (forall l :: l in s.held ==> l < s.issued)
    && (s.gen.closed <==> !s.close.Untouched?)
    && (s.gen.closed ==> !s.gen.admission && s.close.owner < |s.retirers| && PastDrain(s.retirers[s.close.owner]))
    && (forall r :: 0 <= r < |s.retirers| ==> RetirerOk(s, s.retirers[r]))
  }

  /** The parked drainer of a single-retirer generation is never stranded. */
  predicate TokenReady(s: System) {
    |s.retirers| == 1 && s.retirers[0].Parked? && s.gen.active == 0 ==> s.gen.drainToken
  }

  lemma LeaseStepKeepsInv(s: System, step: Step)
    requires Inv(s) && Enabled(s, step) && (step.Acquire? || step.Release?)
    ensures Inv(Do(s, step))
  {
    var s' := Do(s, step);
    assert s'.retirers == s.retirers;
    forall r | 0 <= r < |s'.retirers| ensures RetirerOk(s', s'.retirers[r]) {
      assert RetirerOk(s, s.retirers[r]);
    }
  }

  lemma RetirerStepKeepsInv(s: System, step: Step)
    requires Inv(s) && Enabled(s, step) && !step.Acquire? && !step.Release?
    ensures Inv(Do(s, step))
  {
    var s' := Do(s, step);
    assert s'.held == s.held && (s.gen.active == 0 ==> s.held == {});
    forall r | 0 <= r < |s'.retirers| ensures RetirerOk(s', s'.retirers[r]) {
      assert RetirerOk(s, s.retirers[r]);
    }
  }

  lemma InvPreserved(s: System, step: Step)
    requires Inv(s) && Enabled(s, step)
    ensures Inv(Do(s, step))
  {
    if step.Acquire? || step.Release? {
      LeaseStepKeepsInv(s, step);
    } else {
      RetirerStepKeepsInv(s, step);
    }
  }

  lemma {:induction false} RunInvariant(run: seq<System>, retirers: nat, k: nat)
    requires IsRun(run, retirers) && k < |run|
    ensures Inv(run[k]) && TokenReady(run[k]) && |run[k].retirers| == retirers
  {
    if k > 0 {
      RunInvariant(run, retirers, k - 1);
      var step := RunStep(run, retirers, k - 1);
      InvPreserved(run[k - 1], step);
    }
  }

  /** Lease conservation: in every interleaving `active` counts the leases that
      are out, stays within the concurrency limit, and the clamp in `release`
      never has anything to clamp. */
  lemma LeaseConservation(run: seq<System>, retirers: nat, k: nat)
    requires IsRun(run, retirers) && k < |run|
    ensures run[k].gen.active == |run[k].held|
    ensures 0 <= run[k].gen.active <= run[k].gen.maxConcurrency
    ensures forall l :: l in run[k].held ==> AfterRelease(run[k].gen).active == run[k].gen.active - 1
  {
    RunInvariant(run, retirers, k);
    if l :| l in run[k].held {
      assert run[k].held == {l} + (run[k].held - {l});
    }
  }

  lemma {:induction false} RunStep(run: seq<System>, retirers: nat, k: nat) returns (step: Step)
    requires IsRun(run, retirers) && k + 1 < |run|
    ensures Enabled(run[k], step) && run[k + 1] == Do(run[k], step)
  {
    assert StepAt(run, k);
    step :| Enabled(run[k], step) && run[k + 1] == Do(run[k], step);
  }

  lemma {:induction false} HeldShrinks(run: seq<System>, retirers: nat, i: nat, j: nat)
    requires IsRun(run, retirers) && i <= j < |run| && !run[i].gen.admission
    ensures run[j].held <= run[i].held && !run[j].gen.admission
    decreases j
  {
    if i < j {
      HeldShrinks(run, retirers, i, j - 1);
      var step := RunStep(run, retirers, j - 1);
    }
  }

  /** Once draining or closing has begun, no run ever hands out another lease. */
  lemma LeasesOnlyShrink(run: seq<System>, retirers: nat, i: nat, j: nat)
    requires IsRun(run, retirers) && i <= j < |run|
    requires Retiring(run[i]) || run[i].gen.closed
    ensures run[j].held <= run[i].held && run[j].gen.active <= run[i].gen.active
    ensures !run[j].gen.admission
  {
    RunInvariant(run, retirers, i);
    RunInvariant(run, retirers, j);
    if Retiring(run[i]) {
      var r :| 0 <= r < |run[i].retirers| && !run[i].retirers[r].NotStarted?;
      assert RetirerOk(run[i], run[i].retirers[r]);
    }
    HeldShrinks(run, retirers, i, j);
    assert run[i].held == run[j].held + (run[i].held - run[j].held);
  }

  /** A drain that returns without timing out leaves zero leases for ever. */
  lemma IdleDrainIsFinal(run: seq<System>, retirers: nat, i: nat, j: nat)
    requires IsRun(run, retirers) && i <= j < |run| && DrainedIdle(run[i])
    ensures run[j].held == {} && run[j].gen.active == 0 && !run[j].gen.admission
  {
    RunInvariant(run, retirers, i);
    RunInvariant(run, retirers, j);
    var r :| 0 <= r < |run[i].retirers| && PastDrain(run[i].retirers[r]) && !run[i].retirers[r].timedOut;
    assert RetirerOk(run[i], run[i].retirers[r]);
    HeldShrinks(run, retirers, i, j);
  }

  /** The session is closed under a call still in flight only after a drain timeout. */
  lemma CloseIsGraceful(run: seq<System>, retirers: nat, k: nat)
    requires IsRun(run, retirers) && k < |run|
    requires !run[k].close.Untouched? && run[k].held != {}
    ensures DrainTimedOut(run[k]) && !DrainedIdle(run[k])
  {
    RunInvariant(run, retirers, k);
    assert RetirerOk(run[k], run[k].retirers[run[k].close.owner]);
  }

  /** No lost wake-up: a lone drainer that is not finished while no lease is
      out always has a step of its own that does not wait for the timer, and
      two such steps end its drain without a timeout. */
  lemma NoLostWakeup(run: seq<System>, k: nat)
    requires IsRun(run, 1) && k < |run| && run[k].gen.active == 0
    ensures |run[k].retirers| == 1
    ensures run[k].retirers[0].Parked? ==>
      && Enabled(run[k], Wake(0))
      && Enabled(Do(run[k], Wake(0)), Recheck(0))
      && Do(Do(run[k], Wake(0)), Recheck(0)).retirers[0] == DrainReturned(false)
    ensures run[k].retirers[0].Rechecking? ==>
      Enabled(run[k], Recheck(0)) && Do(run[k], Recheck(0)).retirers[0] == DrainReturned(false)
  {
    RunInvariant(run, 1, k);
  }

  // ---- any number of drainers

  /** A drainer is parked with no lease out and no token: only its timer frees it. */
  ghost predicate Stranded(s: System) {
    exists r :: 0 <= r < |s.retirers| && s.retirers[r].Parked? && s.gen.active == 0 && !s.gen.drainToken
  }

  predicate Active(r: Retirer) {
    r.Rechecking? || PastDrain(r)
  }

  /** With no lease out, a parked drainer has a token to take, or another one is rechecking or past its drain. */
  ghost predicate SomeoneProceeds(s: System) {
    s.gen.active == 0 && (exists r :: 0 <= r < |s.retirers| && s.retirers[r].Parked?) ==>
      s.gen.drainToken || exists r :: 0 <= r < |s.retirers| && Active(s.retirers[r])
  }

  lemma SomeoneProceedsKept(s: System, step: Step)
    requires Inv(s) && SomeoneProceeds(s) && Enabled(s, step)
    ensures SomeoneProceeds(Do(s, step))
  {
    var s' := Do(s, step);
    if s'.gen.active == 0 && !s'.gen.drainToken && exists r :: 0 <= r < |s'.retirers| && s'.retirers[r].Parked? {
      var p :| 0 <= p < |s'.retirers| && s'.retirers[p].Parked?;
      match step {
        case Wake(r) => assert Active(s'.retirers[r]);
        case Timeout(r) => assert Active(s'.retirers[r]);
        case DrainStart(r) => assert Active(s'.retirers[r]);
        case Recheck(r) => assert Active(s'.retirers[r]);
        case CloseEnter(r) => assert Active(s'.retirers[r]);
        case CloseReturn(r) => assert Active(s'.retirers[r]);
        case _ =>
          assert s'.retirers == s.retirers && s.retirers[p].Parked?;
      }
    }
  }

  /** For any number of drainers: while no lease is out and one is parked, somebody can
      go on without a timer, or has gone on already. */
  lemma {:induction false} SomeoneAlwaysProceeds(run: seq<System>, retirers: nat, k: nat)
    requires IsRun(run, retirers) && k < |run|
    ensures SomeoneProceeds(run[k])
  {
    if k > 0 {
      SomeoneAlwaysProceeds(run, retirers, k - 1);
      RunInvariant(run, retirers, k - 1);
      var step := RunStep(run, retirers, k - 1);
      SomeoneProceedsKept(run[k - 1], step);
    }
  }

  /** A run of n drainers can strand one of them if and only if n is at least two. */
  lemma StrandingNeedsTwo(retirers: nat)
    ensures (exists run :: IsRun(run, retirers) && Stranded(run[|run| - 1])) <==> retirers >= 2
  {
    if retirers >= 2 {
      var run := TwoDrainersCanStrandOne(retirers);
      assert Stranded(run[|run| - 1]);
    } else {
      forall run | IsRun(run, retirers) ensures !Stranded(run[|run| - 1]) {
        RunInvariant(run, retirers, |run| - 1);
      }
    }
  }

  lemma Extend(run: seq<System>, retirers: nat, step: Step) returns (longer: seq<System>)
    requires IsRun(run, retirers) && Enabled(run[|run| - 1], step)
    ensures IsRun(longer, retirers) && longer[|longer| - 1] == Do(run[|run| - 1], step)
  {
    longer := run + [Do(run[|run| - 1], step)];
    forall i: nat | i + 1 < |longer| ensures StepAt(longer, i) {
      if i + 1 < |run| {
        assert StepAt(run, i);
        assert longer[i] == run[i] && longer[i + 1] == run[i + 1];
      } else {
        assert Enabled(longer[i], step) && longer[i + 1] == Do(longer[i], step);
      }
    }
  }

  /** In every interleaving a lease is refused exactly when retirement has begun or all are out. */
  lemma GrantedExactly(run: seq<System>, retirers: nat, k: nat)
    requires IsRun(run, retirers) && k < |run|
    ensures Do(run[k], Acquire).held != run[k].held <==> run[k].gen.admission && |run[k].held| < run[k].gen.maxConcurrency
    ensures Do(run[k], Acquire).issued == run[k].issued + if Do(run[k], Acquire).held != run[k].held then 1 else 0
  {
    RunInvariant(run, retirers, k);
    assert run[k].issued !in run[k].held;
  }

  /** No retirer is stuck: until it is done it has a step of its own, which takes it on, or waits for a Close that can finish. */
  lemma RetirersProceed(run: seq<System>, retirers: nat, k: nat, r: nat)
    requires IsRun(run, retirers) && k < |run| && r < retirers
    ensures |run[k].retirers| == retirers
    ensures var s := run[k];
      match s.retirers[r]
      case NotStarted => Enabled(s, DrainStart(r)) && !Do(s, DrainStart(r)).retirers[r].NotStarted?
      case Rechecking =>
        && Enabled(s, Recheck(r))
        && Do(s, Recheck(r)).retirers[r] == if s.held == {} then DrainReturned(false) else Parked
      case Parked => Enabled(s, Timeout(r)) && Do(s, Timeout(r)).retirers[r] == DrainReturned(true)
      case DrainReturned(late) => Enabled(s, CloseEnter(r)) && Do(s, CloseEnter(r)).retirers[r] == InClose(late)
      case InClose(late) =>
        || Enabled(s, CloseFinish)
        || (Enabled(s, CloseReturn(r)) && Do(s, CloseReturn(r)).retirers[r] == Retired(late))
      case Retired(_) => s.close.Done?
  {
    RunInvariant(run, retirers, k);
    assert RetirerOk(run[k], run[k].retirers[r]);
  }

  /** Two drainers that have both seen the one lease out are parked. */
  lemma TwoDrainersPark(retirers: nat) returns (run: seq<System>)
    requires retirers >= 2
    ensures IsRun(run, retirers)
    ensures var s := run[|run| - 1];
      && |s.retirers| == retirers && s.retirers[0].Parked? && s.retirers[1].Parked?
      && s.gen == Gen(1, false, 1, false, false) && s.held == {0} && s.issued == 1
  {
    var s0 := System(Fresh(1), {}, 0, seq(retirers, i => NotStarted), Untouched);
    run := [s0];
    run := Extend(run, retirers, Acquire);
    assert run[|run| - 1] == s0.(gen := Gen(1, true, 1, false, false), held := {0}, issued := 1);
    run := Extend(run, retirers, DrainStart(0));
    run := Extend(run, retirers, DrainStart(1));
    run := Extend(run, retirers, Recheck(0));
    run := Extend(run, retirers, Recheck(1));
  }

  /** With two or more drainers the single token wakes one of them: another can be
      parked with no lease out and no token, and only its timer frees it. */
  lemma TwoDrainersCanStrandOne(retirers: nat) returns (run: seq<System>)
    requires retirers >= 2
    ensures IsRun(run, retirers)
    ensures var s := run[|run| - 1];
      |s.retirers| == retirers && s.retirers[1].Parked? && s.gen.active == 0 && !s.gen.drainToken && !Enabled(s, Wake(1))
  {
    run := TwoDrainersPark(retirers);
    run := Extend(run, retirers, Release(0));
    run := Extend(run, retirers, Wake(0));
  }
}
