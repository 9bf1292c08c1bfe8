/** Compare-and-swap writes of the configuration file
    (internal/config/atomic.go), by any number of concurrent callers.

    One attempt is one call of `WriteConfigFileAtomic`, in whichever process.
    A step is one effect of an attempt: taking the OS lock, checking the digest,
    creating the temporary file, writing some of it, synchronising and closing
    it, renaming it onto the file, synchronising the directory, unlocking;
    every effect may fail, and an attempt may crash at any point, which makes
    the kernel release its lock and leaves its temporary file behind.  Renaming
    is atomic, temporary names are unique, removing a temporary file succeeds,
    and nobody writes the file around the lock. */
module ConfigFile {
  type Bytes = string

  const MAX_FILE_SIZE: nat := 1024 * 1024

  import opened Options

  datatype Outcome = Success | TooLarge | LockHeld | Mismatch | Failed | SyncFailed

  datatype Pc =
    | Starting
    | Locked
    | Checked
    | Filling(written: nat)        // bytes of the temporary file written so far
    | Filled
    | Synced
    | Replaced
    | Releasing(outcome: Outcome)
    | Done(outcome: Outcome)
    | Crashed(wrote: bool)

  datatype Attempt = Attempt(data: Bytes, expected: string, pc: Pc)

  /** One replacement of the file. */
  datatype Write = Write(attempt: nat, before: Option<Bytes>, after: Bytes)

  /** `temps` holds the temporary files, named by their attempts. */
  datatype State = State(
    file: Option<Bytes>, temps: map<nat, Bytes>, lock: Option<nat>, attempts: seq<Attempt>, log: seq<Write>)

  datatype Step =
    | Begin(data: Bytes, expected: string)
    | TryLock(attempt: nat, ok: bool)
    | Check(attempt: nat, readable: bool)
    | CreateTemp(attempt: nat, ok: bool)
    | Fill(attempt: nat, n: nat, ok: bool)
    | FillDone(attempt: nat)
    | SyncTemp(attempt: nat, ok: bool)
    | Replace(attempt: nat, ok: bool)
    | SyncDir(attempt: nat, ok: bool)
    | Unlock(attempt: nat)
    | Crash(attempt: nat)

  type Digest = Bytes -> string

  /** The digest test passed and the file is not replaced yet. */
  predicate Approved(pc: Pc) {
    pc.Checked? || pc.Filling? || pc.Filled? || pc.Synced?
  }

  predicate HasTemp(pc: Pc) {
    pc.Filling? || pc.Filled? || pc.Synced?
  }

  predicate Holding(pc: Pc) {
    pc.Locked? || Approved(pc) || pc.Replaced? || pc.Releasing?
  }

  /** The attempt has replaced the file. */
  predicate Wrote(pc: Pc) {
    match pc
    case Replaced => true
    case Releasing(o) => o.Success? || o.SyncFailed?
    case Done(o) => o.Success? || o.SyncFailed?
    case Crashed(wrote) => wrote
    case _ => false
  }

  predicate Enabled(s: State, step: Step) {
    step.Begin? || (
      && step.attempt < |s.attempts|
      && var pc := s.attempts[step.attempt].pc;
      match step
      case TryLock(_, _) => pc.Starting?
      case Check(_, _) => pc.Locked?
      case CreateTemp(_, _) => pc.Checked?
      case Fill(_, n, _) => pc.Filling? && pc.written + n <= |s.attempts[step.attempt].data|
      case FillDone(_) => pc.Filling? && pc.written == |s.attempts[step.attempt].data|
      case SyncTemp(_, _) => pc.Filled?
      case Replace(a, _) => pc.Synced? && a in s.temps
      case SyncDir(_, _) => pc.Replaced?
      case Unlock(_) => pc.Releasing?
      case Crash(_) => !pc.Done? && !pc.Crashed?
    )
  }

  function At(s: State, a: nat, pc: Pc): State
    requires a < |s.attempts|
  {
    s.(attempts := s.attempts[a := s.attempts[a].(pc := pc)])
  }

  /** An error after the temporary file was created: it is removed. */
  function Abandon(s: State, a: nat): State
    requires a < |s.attempts|
  {
    At(s, a, Releasing(Failed)).(temps := s.temps - {a})
  }

  /** The outcome of the digest test; an empty expected digest is not tested. */
  function CheckPc(digest: Digest, file: Option<Bytes>, expected: string, readable: bool): Pc {
    if expected == "" then Checked
    else if file.None? then Releasing(Mismatch)
    else if !readable || |file.value| > MAX_FILE_SIZE then Releasing(Failed)
    else if digest(file.value) != expected then Releasing(Mismatch)
    else Checked
  }

  function Do(digest: Digest, s: State, step: Step): State
    requires Enabled(s, step)
  {
    match step
    case Begin(data, expected) =>
      var pc := if |data| > MAX_FILE_SIZE then Done(TooLarge) else Starting;
      s.(attempts := s.attempts + [Attempt(data, expected, pc)])
    case TryLock(a, ok) =>
      if !ok then At(s, a, Done(Failed))
      else if s.lock.Some? then At(s, a, Done(LockHeld))
      else At(s, a, Locked).(lock := Some(a))
    case Check(a, readable) =>
      At(s, a, CheckPc(digest, s.file, s.attempts[a].expected, readable))
    case CreateTemp(a, ok) =>
      if ok then At(s, a, Filling(0)).(temps := s.temps[a := ""]) else At(s, a, Releasing(Failed))
    case Fill(a, n, ok) =>
      var k := s.attempts[a].pc.written + n;
      if ok then At(s, a, Filling(k)).(temps := s.temps[a := s.attempts[a].data[..k]]) else Abandon(s, a)
    case FillDone(a) => At(s, a, Filled)
    case SyncTemp(a, ok) => if ok then At(s, a, Synced) else Abandon(s, a)
    case Replace(a, ok) =>
      if !ok then Abandon(s, a)
      else At(s, a, Replaced).(file := Some(s.temps[a]), temps := s.temps - {a},
                               log := s.log + [Write(a, s.file, s.temps[a])])
    case SyncDir(a, ok) =>
      At(s, a, Releasing(if ok then Success else SyncFailed))
    case Unlock(a) =>
      At(s, a, Done(s.attempts[a].pc.outcome)).(lock := None)
    case Crash(a) =>
      At(s, a, Crashed(Wrote(s.attempts[a].pc))).(lock := if s.lock == Some(a) then None else s.lock)
  }

  predicate Init(s: State) {
    s.lock.None? && s.attempts == [] && s.log == [] && s.temps == map[]
  }

  // ---- the invariant

  /** The lock is held by the one attempt that is between locking and unlocking. */
  ghost predicate LockInv(s: State) {
    && (forall a: nat :: a < |s.attempts| && Holding(s.attempts[a].pc) ==> s.lock == Some(a))
    && (s.lock.Some? ==> s.lock.value < |s.attempts| && Holding(s.attempts[s.lock.value].pc))
  }

  /** Between the test and the replacement the file has the digest that was presented. */
  ghost predicate CheckInv(digest: Digest, s: State) {
    forall a: nat :: a < |s.attempts| && Approved(s.attempts[a].pc) && s.attempts[a].expected != "" ==>
      s.file.Some? && digest(s.file.value) == s.attempts[a].expected
  }

  /** What the temporary file of an attempt holds. */
  ghost predicate TempOk(t: Attempt, held: bool, temp: Bytes) {
    && (HasTemp(t.pc) ==> held)
    && (t.pc.Filling? ==> t.pc.written <= |t.data| && temp == t.data[..t.pc.written])
    && (t.pc.Filled? || t.pc.Synced? ==> temp == t.data)
    && (held ==> HasTemp(t.pc) || t.pc.Crashed?)
  }

  ghost predicate TempInv(s: State) {
    && (forall a: nat :: a < |s.attempts| ==> TempOk(s.attempts[a], a in s.temps, if a in s.temps then s.temps[a] else ""))
    && (forall a :: a in s.temps ==> a < |s.attempts|)
  }

  /** A replacement replaced exactly the contents whose digest its attempt presented, by that attempt's data. */
  ghost predicate Justified(digest: Digest, attempts: seq<Attempt>, w: Write) {
    && w.attempt < |attempts|
    && w.after == attempts[w.attempt].data
    && (attempts[w.attempt].expected != "" ==>
          w.before.Some? && digest(w.before.value) == attempts[w.attempt].expected)
  }

  /** Each replacement replaces the result of the one before; the last one left the present contents. */
  ghost predicate Chain(log: seq<Write>, file: Option<Bytes>) {
    && (forall i, j :: 0 <= i < |log| && j == i - 1 && 0 <= j ==> log[i].before == Some(log[j].after))
    && (log != [] ==> file == Some(log[|log| - 1].after))
  }

  ghost predicate AllJustified(digest: Digest, attempts: seq<Attempt>, log: seq<Write>) {
    forall i :: 0 <= i < |log| ==> Justified(digest, attempts, log[i])
  }

  ghost predicate LogInv(digest: Digest, s: State) {
    AllJustified(digest, s.attempts, s.log) && Chain(s.log, s.file)
  }

  function WritesBy(log: seq<Write>, a: nat): nat {
    if log == [] then 0
    else WritesBy(log[..|log| - 1], a) + if log[|log| - 1].attempt == a then 1 else 0
  }

  ghost predicate CountInv(s: State) {
    forall a: nat :: WritesBy(s.log, a) == if a < |s.attempts| && Wrote(s.attempts[a].pc) then 1 else 0
  }

  ghost predicate Inv(digest: Digest, s: State) {
    LockInv(s) && CheckInv(digest, s) && TempInv(s) && LogInv(digest, s) && CountInv(s)
  }

  lemma LockKept(digest: Digest, s: State, step: Step)
    requires LockInv(s) && Enabled(s, step)
    ensures LockInv(Do(digest, s, step))
  {
  }

  lemma CheckKept(digest: Digest, s: State, step: Step)
    requires LockInv(s) && CheckInv(digest, s) && Enabled(s, step)
    ensures CheckInv(digest, Do(digest, s, step))
  {
  }

  lemma TempKept(digest: Digest, s: State, step: Step)
    requires TempInv(s) && Enabled(s, step)
    ensures TempInv(Do(digest, s, step))
  {
    var s' := Do(digest, s, step);
    forall a: nat | a < |s'.attempts|
      ensures TempOk(s'.attempts[a], a in s'.temps, if a in s'.temps then s'.temps[a] else "")
    {
      if a < |s.attempts| {
        assert TempOk(s.attempts[a], a in s.temps, if a in s.temps then s.temps[a] else "");
        if !step.Begin? && a == step.attempt && step.FillDone? {
          assert s.attempts[a].data[..s.attempts[a].pc.written] == s.attempts[a].data;
        }
      }
    }
  }

  lemma DataStays(digest: Digest, s: State, step: Step, a: nat)
    requires Enabled(s, step) && a < |s.attempts|
    ensures var s' := Do(digest, s, step);
      a < |s'.attempts| && s'.attempts[a].data == s.attempts[a].data && s'.attempts[a].expected == s.attempts[a].expected
  {
  }

  lemma JustifiedStays(digest: Digest, s: State, step: Step, w: Write)
    requires Enabled(s, step) && Justified(digest, s.attempts, w)
    ensures Justified(digest, Do(digest, s, step).attempts, w)
  {
    DataStays(digest, s, step, w.attempt);
  }

  /** The replacement that an approved attempt makes from its complete temporary file. */
  lemma ReplacementIsJustified(digest: Digest, s: State, a: nat)
    requires CheckInv(digest, s) && TempInv(s) && Enabled(s, Replace(a, true))
    ensures s.temps[a] == s.attempts[a].data
    ensures Justified(digest, s.attempts, Write(a, s.file, s.temps[a]))
  {
    assert TempOk(s.attempts[a], true, s.temps[a]);
  }

  lemma OnlyReplaceLogs(digest: Digest, s: State, step: Step)
    requires Enabled(s, step)
    ensures var s' := Do(digest, s, step);
      if step.Replace? && step.ok then
        s'.log == s.log + [Write(step.attempt, s.file, s.temps[step.attempt])] && s'.file == Some(s.temps[step.attempt])
      else s'.log == s.log && s'.file == s.file
  {
  }

  lemma ChainGrows(log: seq<Write>, file: Option<Bytes>, w: Write)
    requires Chain(log, file) && w.before == file
    ensures Chain(log + [w], Some(w.after))
  {
  }

  lemma JustifiedKept(digest: Digest, s: State, step: Step)
    requires CheckInv(digest, s) && TempInv(s) && AllJustified(digest, s.attempts, s.log) && Enabled(s, step)
    ensures AllJustified(digest, Do(digest, s, step).attempts, Do(digest, s, step).log)
  {
    var s' := Do(digest, s, step);
    OnlyReplaceLogs(digest, s, step);
    forall i | 0 <= i < |s'.log| ensures Justified(digest, s'.attempts, s'.log[i]) {
      if i == |s.log| {
        ReplacementIsJustified(digest, s, step.attempt);
      }
      assert Justified(digest, s.attempts, s'.log[i]);
      JustifiedStays(digest, s, step, s'.log[i]);
    }
  }

  lemma LogKept(digest: Digest, s: State, step: Step)
    requires CheckInv(digest, s) && TempInv(s) && LogInv(digest, s) && Enabled(s, step)
    ensures LogInv(digest, Do(digest, s, step))
  {
    JustifiedKept(digest, s, step);
    OnlyReplaceLogs(digest, s, step);
    if step.Replace? && step.ok {
      ChainGrows(s.log, s.file, Write(step.attempt, s.file, s.temps[step.attempt]));
    }
  }

  lemma WritesByMore(log: seq<Write>, w: Write, a: nat)
    ensures WritesBy(log + [w], a) == WritesBy(log, a) + if w.attempt == a then 1 else 0
  {
    assert (log + [w])[..|log|] == log;
  }

  /** Only a replacement makes an attempt one that wrote; a crash keeps what it was. */
  lemma WroteStays(digest: Digest, s: State, step: Step, a: nat)
    requires Enabled(s, step) && a < |s.attempts|
    ensures var s' := Do(digest, s, step);
      a < |s'.attempts| && (Wrote(s'.attempts[a].pc) <==> Wrote(s.attempts[a].pc) || step == Replace(a, true))
    ensures step == Replace(a, true) ==> !Wrote(s.attempts[a].pc)
  {
  }

  lemma CountKeptAt(digest: Digest, s: State, step: Step, a: nat)
    requires CountInv(s) && Enabled(s, step)
    ensures var s' := Do(digest, s, step);
      WritesBy(s'.log, a) == if a < |s'.attempts| && Wrote(s'.attempts[a].pc) then 1 else 0
  {
    assert WritesBy(s.log, a) == if a < |s.attempts| && Wrote(s.attempts[a].pc) then 1 else 0;
    OnlyReplaceLogs(digest, s, step);
    if step.Replace? && step.ok {
      WritesByMore(s.log, Write(step.attempt, s.file, s.temps[step.attempt]), a);
    }
    if a < |s.attempts| {
      WroteStays(digest, s, step, a);
    }
  }

  lemma CountKept(digest: Digest, s: State, step: Step)
    requires CountInv(s) && Enabled(s, step)
    ensures CountInv(Do(digest, s, step))
  {
    var s' := Do(digest, s, step);
    forall a: nat ensures WritesBy(s'.log, a) == if a < |s'.attempts| && Wrote(s'.attempts[a].pc) then 1 else 0 {
      CountKeptAt(digest, s, step, a);
    }
  }

  // ---- a compare-and-swap as one operation

  /** What goes wrong in a call: nothing, something before the digest test (the lock is
      busy, the file cannot be read), something between the test and the replacement,
      or the synchronisation of the directory. */
  datatype Fault = NoFault | BeforeTest | BeforeReplace | AfterReplace

  datatype CasOutcome = Swapped | Mismatching | Failing

  /** The outcome of a call that finds the contents `file`, whose digest is `actual`. */
  function CasResult(file: Option<Bytes>, actual: string, data: Bytes, expected: string, fault: Fault): CasOutcome {
    if |data| > MAX_FILE_SIZE || fault.BeforeTest? then Failing
    else if file.None? then Mismatching
    else if |file.value| > MAX_FILE_SIZE then Failing
    else if actual != expected then Mismatching
    else if fault.NoFault? then Swapped
    else Failing
  }

  /** The file is replaced when the test passes and nothing fails before the replacement. */
  predicate Replaces(file: Option<Bytes>, actual: string, data: Bytes, expected: string, fault: Fault) {
    CasResult(file, actual, data, expected, if fault.AfterReplace? then NoFault else fault).Swapped?
  }

  function Actual(digest: Digest, file: Option<Bytes>): string {
    if file.Some? then digest(file.value) else ""
  }

  function AsCas(o: Outcome): CasOutcome {
    match o
    case Success => Swapped
    case Mismatch => Mismatching
    case _ => Failing
  }

  // ---- runs

  ghost predicate StepAt(digest: Digest, run: seq<State>, steps: seq<Step>, i: nat)
    requires i < |steps| && |run| == |steps| + 1
  {
    Enabled(run[i], steps[i]) && run[i + 1] == Do(digest, run[i], steps[i])
  }

  /** The states visited by an arbitrary interleaving of attempts. */
  ghost predicate IsRun(digest: Digest, run: seq<State>, steps: seq<Step>) {
    && |run| == |steps| + 1
    && Init(run[0])
    && forall i: nat {:trigger StepAt(digest, run, steps, i)} :: i < |steps| ==> StepAt(digest, run, steps, i)
  }

  lemma {:induction false} RunInvariant(digest: Digest, run: seq<State>, steps: seq<Step>, k: nat)
    requires IsRun(digest, run, steps) && k < |run|
    ensures Inv(digest, run[k])
  {
    if k > 0 {
      RunInvariant(digest, run, steps, k - 1);
      assert StepAt(digest, run, steps, k - 1);
      LockKept(digest, run[k - 1], steps[k - 1]);
      CheckKept(digest, run[k - 1], steps[k - 1]);
      TempKept(digest, run[k - 1], steps[k - 1]);
      LogKept(digest, run[k - 1], steps[k - 1]);
      CountKept(digest, run[k - 1], steps[k - 1]);
    }
  }

  ghost predicate Injective(digest: Digest) {
    forall a, b :: digest(a) == digest(b) ==> a == b
  }

  /** Lost-update freedom: an attempt that presents the digest of `base` replaces
      nothing but `base`.  A rollback is the case in which `base` is what the
      transaction itself wrote before. */
  lemma ReplacesExactlyThePresented(digest: Digest, run: seq<State>, steps: seq<Step>, k: nat, i: nat, base: Bytes)
    requires Injective(digest) && IsRun(digest, run, steps) && k < |run| && i < |run[k].log|
    requires run[k].log[i].attempt < |run[k].attempts|
    requires digest(base) != "" && run[k].attempts[run[k].log[i].attempt].expected == digest(base)
    ensures run[k].log[i].before == Some(base)
    ensures run[k].log[i].after == run[k].attempts[run[k].log[i].attempt].data
  {
    RunInvariant(digest, run, steps, k);
    assert Justified(digest, run[k].attempts, run[k].log[i]);
  }

  /** The replacements form one chain that ends in the present contents: nothing is overwritten unseen. */
  lemma WritesFormAChain(digest: Digest, run: seq<State>, steps: seq<Step>, k: nat, i: nat)
    requires IsRun(digest, run, steps) && k < |run| && i < |run[k].log|
    ensures if i + 1 < |run[k].log| then run[k].log[i + 1].before == Some(run[k].log[i].after)
            else run[k].file == Some(run[k].log[i].after)
  {
    RunInvariant(digest, run, steps, k);
  }

  /** Two attempts that present the same digest both replace the file only if its contents were restored in between. */
  lemma SecondWriterNeedsRestoration(digest: Digest, run: seq<State>, steps: seq<Step>, k: nat, i: nat, j: nat, base: Bytes)
    requires Injective(digest) && IsRun(digest, run, steps) && k < |run| && i < j < |run[k].log|
    requires run[k].log[i].attempt < |run[k].attempts| && run[k].log[j].attempt < |run[k].attempts|
    requires digest(base) != ""
    requires run[k].attempts[run[k].log[i].attempt].expected == digest(base)
    requires run[k].attempts[run[k].log[j].attempt].expected == digest(base)
    ensures exists m: nat :: i <= m < j && run[k].log[m].after == base
  {
    ReplacesExactlyThePresented(digest, run, steps, k, j, base);
    WritesFormAChain(digest, run, steps, k, j - 1);
    assert run[k].log[j - 1].after == base;
  }

  /** What a caller may conclude from the outcome: success, and a failed
      directory synchronisation, mean exactly one replacement; every other error
      means none. */
  lemma OutcomeTellsWhetherItWrote(digest: Digest, run: seq<State>, steps: seq<Step>, k: nat, a: nat)
    requires IsRun(digest, run, steps) && k < |run| && a < |run[k].attempts| && run[k].attempts[a].pc.Done?
    ensures WritesBy(run[k].log, a) ==
      if run[k].attempts[a].pc.outcome.Success? || run[k].attempts[a].pc.outcome.SyncFailed? then 1 else 0
  {
    RunInvariant(digest, run, steps, k);
    assert WritesBy(run[k].log, a) == if Wrote(run[k].attempts[a].pc) then 1 else 0;
  }

  /** No other attempt can touch the file while one is between locking and unlocking. */
  lemma LockExcludes(digest: Digest, run: seq<State>, steps: seq<Step>, k: nat, a: nat, b: nat)
    requires IsRun(digest, run, steps) && k < |run| && a < |run[k].attempts| && b < |run[k].attempts|
    requires Holding(run[k].attempts[a].pc) && Holding(run[k].attempts[b].pc)
    ensures a == b
  {
    RunInvariant(digest, run, steps, k);
  }

  /** At every moment, also after crashes in the middle of a write, the file holds
      its first contents or the whole data of one attempt, never a part of it. */
  lemma {:induction false} NeverAMixture(digest: Digest, run: seq<State>, steps: seq<Step>, k: nat)
    requires IsRun(digest, run, steps) && k < |run|
    ensures run[k].file == run[0].file || exists a: nat :: a < |run[k].attempts| && run[k].file == Some(run[k].attempts[a].data)
  {
    if k > 0 {
      NeverAMixture(digest, run, steps, k - 1);
      RunInvariant(digest, run, steps, k - 1);
      assert StepAt(digest, run, steps, k - 1);
      var s, step := run[k - 1], steps[k - 1];
      OnlyReplaceLogs(digest, s, step);
      if step.Replace? && step.ok {
        ReplacementIsJustified(digest, s, step.attempt);
        DataStays(digest, s, step, step.attempt);
      } else if s.file != run[0].file {
        var a: nat :| a < |s.attempts| && s.file == Some(s.attempts[a].data);
        DataStays(digest, s, step, a);
      }
    }
  }

  /** A temporary file is left behind by a crash alone: an attempt that returned, with whatever outcome, has none. */
  lemma OnlyCrashesLeaveTemps(digest: Digest, run: seq<State>, steps: seq<Step>, k: nat, a: nat)
    requires IsRun(digest, run, steps) && k < |run| && a in run[k].temps
    ensures a < |run[k].attempts| && (run[k].attempts[a].pc.Crashed? || Holding(run[k].attempts[a].pc))
    ensures !run[k].attempts[a].pc.Done?
  {
    RunInvariant(digest, run, steps, k);
    assert TempOk(run[k].attempts[a], true, run[k].temps[a]);
  }

  // ---- every attempt is a compare-and-swap

  /** The attempt passed the digest test on these contents. */
  ghost predicate Tested(digest: Digest, t: Attempt, file: Option<Bytes>) {
    t.expected == "" || (file.Some? && |file.value| <= MAX_FILE_SIZE && digest(file.value) == t.expected)
  }

  /** Some replacement by a took the file from `file` to the attempt's data. */
  ghost predicate Logged(log: seq<Write>, a: nat, file: Option<Bytes>, data: Bytes) {
    exists m :: 0 <= m < |log| && log[m] == Write(a, file, data)
  }

  ghost predicate Explained(digest: Digest, t: Attempt, file: Option<Bytes>, o: Outcome, logged: bool) {
    match o
    case Success => Tested(digest, t, file) && logged
    case SyncFailed => Tested(digest, t, file) && logged
    case Mismatch => t.expected != "" && (file.None? || (|file.value| <= MAX_FILE_SIZE && digest(file.value) != t.expected))
    case Failed => true
    case _ => false
  }

  /** How far attempt a has come since it locked the file holding `file`. */
  ghost predicate Tracked(digest: Digest, s: State, a: nat, file: Option<Bytes>) {
    && a < |s.attempts|
    && var t := s.attempts[a];
    var logged := Logged(s.log, a, file, t.data);
    && |t.data| <= MAX_FILE_SIZE
    && (t.pc.Locked? || Approved(t.pc) ==> s.file == file)
    && (Approved(t.pc) ==> Tested(digest, t, file))
    && (t.pc.Replaced? ==> Tested(digest, t, file) && logged)
    && (t.pc.Releasing? || t.pc.Done? ==> Explained(digest, t, file, t.pc.outcome, logged))
    && !t.pc.Starting?
  }

  lemma LoggedStays(log: seq<Write>, log': seq<Write>, a: nat, file: Option<Bytes>, data: Bytes)
    requires log <= log' && Logged(log, a, file, data)
    ensures Logged(log', a, file, data)
  {
    var m :| 0 <= m < |log| && log[m] == Write(a, file, data);
    assert log'[m] == log[m];
  }

  /** Nobody else's step disturbs an attempt that holds the lock. */
  lemma OthersKeepTrack(digest: Digest, s: State, step: Step, a: nat, file: Option<Bytes>)
    requires LockInv(s) && Tracked(digest, s, a, file) && Enabled(s, step) && (step.Begin? || step.attempt != a)
    ensures Tracked(digest, Do(digest, s, step), a, file)
  {
    var s' := Do(digest, s, step);
    assert s'.attempts[a] == s.attempts[a];
    OnlyReplaceLogs(digest, s, step);
    if Logged(s.log, a, file, s.attempts[a].data) {
      LoggedStays(s.log, s'.log, a, file, s.attempts[a].data);
    }
    if step.Replace? && step.ok {
      assert s.lock == Some(step.attempt);
    }
  }

  lemma OwnReplaceKeepsTrack(digest: Digest, s: State, a: nat, file: Option<Bytes>)
    requires TempInv(s) && CheckInv(digest, s) && Tracked(digest, s, a, file) && Enabled(s, Replace(a, true))
    ensures Tracked(digest, Do(digest, s, Replace(a, true)), a, file)
  {
    ReplacementIsJustified(digest, s, a);
    var s' := Do(digest, s, Replace(a, true));
    assert s'.log[|s.log|] == Write(a, file, s.attempts[a].data);
    assert Logged(s'.log, a, file, s'.attempts[a].data);
  }

  lemma OwnStepKeepsTrack(digest: Digest, s: State, step: Step, a: nat, file: Option<Bytes>)
    requires Tracked(digest, s, a, file) && Enabled(s, step)
    requires !step.Begin? && step.attempt == a && step != Replace(a, true)
    ensures Tracked(digest, Do(digest, s, step), a, file)
  {
    var s' := Do(digest, s, step);
    OnlyReplaceLogs(digest, s, step);
    DataStays(digest, s, step, a);
  }

  lemma {:induction false} TrackedOn(digest: Digest, run: seq<State>, steps: seq<Step>, i: nat, j: nat, a: nat)
    requires IsRun(digest, run, steps) && i <= j < |run| && Tracked(digest, run[i], a, run[i].file)
    ensures Tracked(digest, run[j], a, run[i].file)
    decreases j
  {
    if i < j {
      TrackedOn(digest, run, steps, i, j - 1, a);
      RunInvariant(digest, run, steps, j - 1);
      assert StepAt(digest, run, steps, j - 1);
      var s, step := run[j - 1], steps[j - 1];
      if step.Begin? || step.attempt != a {
        OthersKeepTrack(digest, s, step, a, run[i].file);
      } else if step == Replace(a, true) {
        OwnReplaceKeepsTrack(digest, s, a, run[i].file);
      } else {
        OwnStepKeepsTrack(digest, s, step, a, run[i].file);
      }
    }
  }

  lemma {:induction false} RequestStays(digest: Digest, run: seq<State>, steps: seq<Step>, i: nat, j: nat, a: nat)
    requires IsRun(digest, run, steps) && i <= j < |run| && a < |run[i].attempts|
    ensures a < |run[j].attempts| && run[j].attempts[a].expected == run[i].attempts[a].expected
    decreases j
  {
    if i < j {
      RequestStays(digest, run, steps, i, j - 1, a);
      assert StepAt(digest, run, steps, j - 1);
      DataStays(digest, run[j - 1], steps[j - 1], a);
    }
  }

  /** An oversized attempt never starts. */
  ghost predicate Sized(t: Attempt) {
    |t.data| > MAX_FILE_SIZE ==> t.pc.Done? && t.pc.outcome.TooLarge?
  }

  lemma {:induction false} AttemptsAreSized(digest: Digest, run: seq<State>, steps: seq<Step>, k: nat, a: nat)
    requires IsRun(digest, run, steps) && k < |run| && a < |run[k].attempts|
    ensures Sized(run[k].attempts[a])
  {
    if k > 0 {
      assert StepAt(digest, run, steps, k - 1);
      if a < |run[k - 1].attempts| {
        AttemptsAreSized(digest, run, steps, k - 1, a);
      }
    }
  }

  /** The fault that an outcome tells of. */
  function FaultOf(o: Outcome): Fault {
    match o
    case SyncFailed => AfterReplace
    case Failed => BeforeTest
    case _ => NoFault
  }

  /** In every interleaving an attempt that got the lock when the file held `f` and has
      returned is one compare-and-swap on f: its outcome is CasResult for some fault, it
      replaced the file exactly when Replaces says so, and then f by its own data. */
  lemma EveryAttemptIsACas(digest: Digest, run: seq<State>, steps: seq<Step>, i: nat, j: nat, a: nat)
    requires IsRun(digest, run, steps) && i <= j < |run| && a < |run[i].attempts| && a < |run[j].attempts|
    requires run[i].attempts[a].pc.Locked? && run[j].attempts[a].pc.Done? && run[i].attempts[a].expected != ""
    ensures var t := run[j].attempts[a];
      var fault := FaultOf(t.pc.outcome);
      && AsCas(t.pc.outcome) == CasResult(run[i].file, Actual(digest, run[i].file), t.data, t.expected, fault)
      && (Replaces(run[i].file, Actual(digest, run[i].file), t.data, t.expected, fault) <==> WritesBy(run[j].log, a) == 1)
      && (Replaces(run[i].file, Actual(digest, run[i].file), t.data, t.expected, fault) ==> Logged(run[j].log, a, run[i].file, t.data))
  {
    AttemptsAreSized(digest, run, steps, i, a);
    assert Tracked(digest, run[i], a, run[i].file);
    TrackedOn(digest, run, steps, i, j, a);
    RequestStays(digest, run, steps, i, j, a);
    OutcomeTellsWhetherItWrote(digest, run, steps, j, a);
  }

  /** An attempt that returned without ever holding the lock is a failed one that replaced nothing. */
  lemma {:induction false} UnlockedAttemptFails(digest: Digest, run: seq<State>, steps: seq<Step>, j: nat, a: nat)
    requires IsRun(digest, run, steps) && j < |run| && a < |run[j].attempts| && run[j].attempts[a].pc.Done?
    requires forall i: nat :: i <= j && a < |run[i].attempts| ==> !run[i].attempts[a].pc.Locked?
    ensures AsCas(run[j].attempts[a].pc.outcome).Failing? && WritesBy(run[j].log, a) == 0
  {
    OnlyLockedAttemptsMatch(digest, run, steps, j, a);
    OutcomeTellsWhetherItWrote(digest, run, steps, j, a);
  }

  lemma {:induction false} OnlyLockedAttemptsMatch(digest: Digest, run: seq<State>, steps: seq<Step>, j: nat, a: nat)
    requires IsRun(digest, run, steps) && j < |run| && a < |run[j].attempts|
    requires forall i: nat :: i <= j && a < |run[i].attempts| ==> !run[i].attempts[a].pc.Locked?
    ensures var pc := run[j].attempts[a].pc;
      || pc.Starting? || pc == Crashed(false)
      || (pc.Done? && (pc.outcome.TooLarge? || pc.outcome.LockHeld? || pc.outcome.Failed?))
  {
    if j > 0 {
      assert StepAt(digest, run, steps, j - 1);
      if a < |run[j - 1].attempts| {
        OnlyLockedAttemptsMatch(digest, run, steps, j - 1, a);
      }
      assert !run[j].attempts[a].pc.Locked?;
    }
  }

  // ---- why an attempt ends as it does

  /** The step is one of attempt a in which nothing goes wrong. */
  predicate Smooth(step: Step) {
    match step
    case TryLock(_, ok) => ok
    case Check(_, readable) => readable
    case CreateTemp(_, ok) => ok
    case Fill(_, _, ok) => ok
    case SyncTemp(_, ok) => ok
    case Replace(_, ok) => ok
    case SyncDir(_, ok) => ok
    case _ => true
  }

  predicate StepOf(step: Step, a: nat) {
    !step.Begin? && step.attempt == a
  }

  /** Before state j some step of attempt a went wrong. */
  ghost predicate Stumbled(steps: seq<Step>, j: nat, a: nat)
    requires j <= |steps|
  {
    exists m :: 0 <= m < j && StepOf(steps[m], a) && !Smooth(steps[m])
  }

  /** Before state j attempt a tested a file that is too large. */
  ghost predicate MetLargeFile(run: seq<State>, steps: seq<Step>, j: nat, a: nat)
    requires j <= |steps| && |run| == |steps| + 1
  {
    exists m :: 0 <= m < j && steps[m] == Check(a, true) && run[m].file.Some? && |run[m].file.value| > 1048576
  }

  /** Before state j attempt a asked for the lock while another attempt held it. */
  ghost predicate MetHeldLock(run: seq<State>, steps: seq<Step>, j: nat, a: nat)
    requires j <= |steps| && |run| == |steps| + 1
  {
    exists m :: 0 <= m < j && steps[m] == TryLock(a, true) && run[m].lock.Some? && run[m].lock.value != a
  }

  /** Each error has its cause. */
  ghost predicate Caused(run: seq<State>, steps: seq<Step>, j: nat, a: nat, o: Outcome)
    requires j <= |steps| && |run| == |steps| + 1 && a < |run[j].attempts|
  {
    match o
    case Failed => Stumbled(steps, j, a) || MetLargeFile(run, steps, j, a)
    case SyncFailed => Stumbled(steps, j, a)
    case LockHeld => MetHeldLock(run, steps, j, a)
    case TooLarge => |run[j].attempts[a].data| > 1048576
    case _ => true
  }

  lemma CausedStays(run: seq<State>, steps: seq<Step>, j: nat, a: nat, o: Outcome)
    requires 0 < j <= |steps| && |run| == |steps| + 1 && a < |run[j - 1].attempts| && a < |run[j].attempts|
    requires Caused(run, steps, j - 1, a, o) && run[j].attempts[a].data == run[j - 1].attempts[a].data
    ensures Caused(run, steps, j, a, o)
  {
    if Stumbled(steps, j - 1, a) {
      var m :| 0 <= m < j - 1 && StepOf(steps[m], a) && !Smooth(steps[m]);
      assert Stumbled(steps, j, a);
    }
  }

  lemma FreshCause(digest: Digest, run: seq<State>, steps: seq<Step>, j: nat, a: nat)
    requires |run| == |steps| + 1 && 0 < j <= |steps| && StepAt(digest, run, steps, j - 1)
    requires LockInv(run[j - 1]) && a < |run[j - 1].attempts| && StepOf(steps[j - 1], a)
    requires !run[j - 1].attempts[a].pc.Releasing?
    ensures a < |run[j].attempts|
    ensures var pc := run[j].attempts[a].pc;
      pc.Releasing? || pc.Done? ==> Caused(run, steps, j, a, pc.outcome)
  {
    var m := j - 1;
    assert StepOf(steps[m], a);
    if steps[m].TryLock? && steps[m].ok && run[m].lock.Some? {
      assert run[m].lock.value != a;
    }
  }

  lemma {:induction false} OutcomeHasItsCause(digest: Digest, run: seq<State>, steps: seq<Step>, j: nat, a: nat)
    requires IsRun(digest, run, steps) && j < |run| && a < |run[j].attempts|
    requires run[j].attempts[a].pc.Releasing? || run[j].attempts[a].pc.Done?
    ensures Caused(run, steps, j, a, run[j].attempts[a].pc.outcome)
  {
    if j > 0 {
      RunInvariant(digest, run, steps, j - 1);
      assert StepAt(digest, run, steps, j - 1);
      var s, step := run[j - 1], steps[j - 1];
      if a < |s.attempts| {
        DataStays(digest, s, step, a);
        if s.attempts[a].pc.Releasing? || s.attempts[a].pc.Done? {
          OutcomeHasItsCause(digest, run, steps, j - 1, a);
          assert run[j].attempts[a].pc.outcome == s.attempts[a].pc.outcome;
          CausedStays(run, steps, j, a, s.attempts[a].pc.outcome);
        } else {
          assert StepOf(step, a);
          FreshCause(digest, run, steps, j, a);
        }
      }
    }
  }

  /** An attempt in which nothing goes wrong and that got the lock on a file of legal size
      succeeds, having replaced the contents it found by its data, if and only if they have
      the presented digest (or none was presented); otherwise it reports a mismatch. */
  lemma SmoothAttemptSucceedsExactly(digest: Digest, run: seq<State>, steps: seq<Step>, i: nat, j: nat, a: nat)
    requires IsRun(digest, run, steps) && i <= j < |run| && a < |run[i].attempts| && a < |run[j].attempts|
    requires run[i].attempts[a].pc.Locked? && run[j].attempts[a].pc.Done?
    requires !Stumbled(steps, j, a) && (run[i].file.Some? ==> |run[i].file.value| <= 1048576)
    ensures var t := run[j].attempts[a];
      var matches := t.expected == "" || (run[i].file.Some? && digest(run[i].file.value) == t.expected);
      && t.pc.outcome == (if matches then Success else Mismatch)
      && (matches ==> Logged(run[j].log, a, run[i].file, t.data))
      && WritesBy(run[j].log, a) == if matches then 1 else 0
  {
    AttemptsAreSized(digest, run, steps, i, a);
    TrackedOn(digest, run, steps, i, j, a);
    OutcomeHasItsCause(digest, run, steps, j, a);
    OutcomeTellsWhetherItWrote(digest, run, steps, j, a);
    NoLargeFile(digest, run, steps, i, j, a);
  }

  /** An attempt that got the lock on a file of legal size tests that file. */
  lemma NoLargeFile(digest: Digest, run: seq<State>, steps: seq<Step>, i: nat, j: nat, a: nat)
    requires IsRun(digest, run, steps) && i <= j < |run| && a < |run[i].attempts|
    requires run[i].attempts[a].pc.Locked? && (run[i].file.Some? ==> |run[i].file.value| <= 1048576)
    ensures !MetLargeFile(run, steps, j, a)
  {
    AttemptsAreSized(digest, run, steps, i, a);
    forall m | 0 <= m < j && steps[m] == Check(a, true) ensures !(run[m].file.Some? && |run[m].file.value| > 1048576) {
      assert StepAt(digest, run, steps, m);
      if m < i {
        LockedOnce(digest, run, steps, m + 1, i, a);
      } else {
        TrackedOn(digest, run, steps, i, m, a);
      }
    }
  }

  /** After its test an attempt is never again at the point right after locking. */
  lemma {:induction false} LockedOnce(digest: Digest, run: seq<State>, steps: seq<Step>, m: nat, i: nat, a: nat)
    requires IsRun(digest, run, steps) && m <= i < |run| && a < |run[m].attempts|
    requires !run[m].attempts[a].pc.Starting? && !run[m].attempts[a].pc.Locked?
    ensures a < |run[i].attempts| && !run[i].attempts[a].pc.Starting? && !run[i].attempts[a].pc.Locked?
    decreases i
  {
    if m < i {
      LockedOnce(digest, run, steps, m, i - 1, a);
      assert StepAt(digest, run, steps, i - 1);
    }
  }

  /** An oversized attempt is refused as such, and no other is. */
  lemma TooLargeExactly(digest: Digest, run: seq<State>, steps: seq<Step>, j: nat, a: nat)
    requires IsRun(digest, run, steps) && j < |run| && a < |run[j].attempts|
    ensures run[j].attempts[a].pc == Done(TooLarge) <==> |run[j].attempts[a].data| > 1048576
  {
    AttemptsAreSized(digest, run, steps, j, a);
    if run[j].attempts[a].pc == Done(TooLarge) {
      OutcomeHasItsCause(digest, run, steps, j, a);
    }
  }
}
