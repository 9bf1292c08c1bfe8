/** A configuration transaction of the admin API: read, compare with If-Match,
    edit, check, compare-and-swap, reload, roll back
    (internal/admin/admin.go: putServerLocked, deleteServerLocked,
    writeConfigLocked).

    Other writers may change the file before every access of the transaction;
    a compare-and-swap holds the file lock, so nobody gets between its test and
    its replacement.  Decoding, editing, validating, resolving and encoding are
    one arbitrary function of the bytes read. */
module Transactions {
  import opened Controllers
  import opened Options
  import opened Unicode
  import ConfigFile

  type Fault = ConfigFile.Fault

  type CasOutcome = ConfigFile.CasOutcome

  /** What becomes of the bytes that were read. */
  datatype Edit = Undecodable | BadRequest | NotFound | EncodingFailed | Candidate(data: Bytes)

  datatype Request = Request(ifMatch: string, edit: Bytes -> Edit)

  /** What another writer does before an access. */
  datatype Outside = Quiet | Sets(file: Option<Bytes>)

  /** All that the transaction meets: other writers before each access, faults of
      the two writes, the preflight, and the manager's answers. */
  datatype Env = Env(
    beforeRead: Outside, beforeReread: Outside, preflightOk: bool,
    beforeWrite: Outside, write: Fault,
    beforeLoad: Outside, beforeDigest: Outside, apply: ApplyResult,
    beforeRollback: Outside, rollback: Fault,
    beforeReload: Outside, beforeRedigest: Outside, reapply: ApplyResult)

  datatype Reply =
    | Unavailable500
    | BadRequest400
    | NotFound404
    | Conflict409
    | EncodingFailed500
    | WriteFailed500
    | Ok200(etag: string)
    | RollbackFailed500
    | RestoreFailed503
    | RolledBack503

  /** One replacement of the file by the transaction. */
  datatype Write = Write(before: Option<Bytes>, after: Bytes)

  /** The file, the replacements made by this transaction, and the controller. */
  datatype World = World(file: Option<Bytes>, writes: seq<Write>, view: View)

  function See(w: World, o: Outside): World {
    if o.Sets? then w.(file := o.file) else w
  }

  /** Reading refuses a file above the size limit. */
  function Read(file: Option<Bytes>): Option<Bytes> {
    if file.Some? && |file.value| <= ConfigFile.MAX_FILE_SIZE then file else None
  }

  // ---- If-Match

  predicate Quote(c: char) {
    c == '"'
  }

  function TrimLeft(s: string, drop: char -> bool): string {
    if s != "" && drop(s[0]) then TrimLeft(s[1..], drop) else s
  }

  function TrimRight(s: string, drop: char -> bool): string {
    if s != "" && drop(s[|s| - 1]) then TrimRight(s[..|s| - 1], drop) else s
  }

  function Trim(s: string, drop: char -> bool): string {
    TrimRight(TrimLeft(s, drop), drop)
  }

  predicate MatchETag(raw: string, digest: string) {
    Trim(Trim(raw, IsSpace), Quote) == digest
  }

  /** The entity tag sent with a reply. */
  function ETag(digest: string): string {
    "\"" + digest + "\""
  }

  function Actual(x: Setup, file: Option<Bytes>): string {
    if file.Some? then x.digest(file.value) else ""
  }

  /** The outcome of a compare-and-swap, as ConfigFile defines it and every attempt there has it. */
  function CasResult(x: Setup, file: Option<Bytes>, data: Bytes, expected: string, fault: Fault): CasOutcome {
    ConfigFile.CasResult(file, Actual(x, file), data, expected, fault)
  }

  predicate Replaces(x: Setup, file: Option<Bytes>, data: Bytes, expected: string, fault: Fault) {
    ConfigFile.Replaces(file, Actual(x, file), data, expected, fault)
  }

  function AfterCas(x: Setup, w: World, data: Bytes, expected: string, fault: Fault): World {
    if Replaces(x, w.file, data, expected, fault)
    then w.(file := Some(data), writes := w.writes + [Write(w.file, data)])
    else w
  }

  /** The hub's file and controller; `writes` records this transaction's replacements. */
  class Hub {
    const controller: Controller
    var file: Option<Bytes>
    var writes: seq<Write>

    ghost function Value(): World
      reads this, controller
    {
      World(file, writes, controller.Value())
    }

    constructor (c: Controller, f: Option<Bytes>)
      ensures controller == c && file == f && writes == []
    {
      controller, file, writes := c, f, [];
    }

    method Access(o: Outside)
      modifies this
      ensures Value() == See(old(Value()), o)
      ensures writes == old(writes)
    {
      if o.Sets? {
        file := o.file;
      }
    }

    method WriteConfigFileAtomic(data: Bytes, expected: string, fault: Fault) returns (r: CasOutcome)
      modifies this
      ensures r == CasResult(controller.setup, old(file), data, expected, fault)
      ensures Value() == AfterCas(controller.setup, old(Value()), data, expected, fault)
    {
      if |data| > ConfigFile.MAX_FILE_SIZE || fault.BeforeTest? {
        return ConfigFile.Failing;
      }
      if file.None? {
        return ConfigFile.Mismatching;
      }
      if |file.value| > ConfigFile.MAX_FILE_SIZE {
        return ConfigFile.Failing;
      }
      if controller.setup.digest(file.value) != expected {
        return ConfigFile.Mismatching;
      }
      if fault.BeforeReplace? {
        return ConfigFile.Failing;
      }
      writes := writes + [Write(file, data)];
      file := Some(data);
      r := if fault.AfterReplace? then ConfigFile.Failing else ConfigFile.Swapped;
    }

    method Reload(before: Outside, beforeDigest: Outside, result: ApplyResult) returns (ok: bool)
      modifies this, controller
      ensures ok <==> ReloadOk(controller.setup, old(Value()), before, beforeDigest, result)
      ensures Value() == AfterReloading(controller.setup, old(Value()), before, beforeDigest, result)
    {
      Access(before);
      var read := Read(file);
      Access(beforeDigest);
      ok := controller.ReloadNow(Io(read, Read(file), result));
    }

    /** The whole transaction. */
    method Transact(req: Request, env: Env) returns (reply: Reply)
      requires writes == []
      modifies this, controller
      ensures reply == Run(controller.setup, old(Value()), req, env).reply
      ensures Value() == Run(controller.setup, old(Value()), req, env).world
    {
      Access(env.beforeRead);
      if Read(file).None? || req.edit(file.value).Undecodable? {
        return Unavailable500;
      }
      var d := controller.setup.digest(file.value);
      if !MatchETag(req.ifMatch, d) {
        return Conflict409;
      }
      match req.edit(file.value) {
        case BadRequest => return BadRequest400;
        case NotFound => return NotFound404;
        case EncodingFailed => return EncodingFailed500;
        case Candidate(data) => reply := Replace(d, data, env);
      }
    }

    /** From the second read on. */
    method Replace(d: string, data: Bytes, env: Env) returns (reply: Reply)
      modifies this, controller
      ensures reply == RunReplace(controller.setup, old(Value()), d, data, env).reply
      ensures Value() == RunReplace(controller.setup, old(Value()), d, data, env).world
    {
      Access(env.beforeReread);
      if Read(file).None? {
        return Unavailable500;
      }
      var previous := file.value;
      if controller.setup.digest(previous) != d {
        return Conflict409;
      }
      if !env.preflightOk {
        return BadRequest400;
      }
      Access(env.beforeWrite);
      var r := WriteConfigFileAtomic(data, d, env.write);
      if r.Mismatching? {
        return Conflict409;
      }
      if r.Failing? {
        return WriteFailed500;
      }
      var newDigest := controller.setup.digest(data);
      var ok := Reload(env.beforeLoad, env.beforeDigest, env.apply);
      if ok {
        return Ok200(ETag(newDigest));
      }
      reply := RollBack(previous, newDigest, env);
    }

    method RollBack(previous: Bytes, newDigest: string, env: Env) returns (reply: Reply)
      modifies this, controller
      ensures reply == RunRollback(controller.setup, old(Value()), previous, newDigest, env).reply
      ensures Value() == RunRollback(controller.setup, old(Value()), previous, newDigest, env).world
    {
      Access(env.beforeRollback);
      var back := WriteConfigFileAtomic(previous, newDigest, env.rollback);
      if !back.Swapped? {
        return RollbackFailed500;
      }
      var restored := Reload(env.beforeReload, env.beforeRedigest, env.reapply);
      reply := if restored then RolledBack503 else RestoreFailed503;
    }
  }

  // ---- the transaction as a function

  function ReloadIo(w: World, before: Outside, beforeDigest: Outside, result: ApplyResult): Io {
    var read := See(w, before);
    Io(Read(read.file), Read(See(read, beforeDigest).file), result)
  }

  predicate ReloadOk(x: Setup, w: World, before: Outside, beforeDigest: Outside, result: ApplyResult) {
    ReloadSucceeds(x, ReloadIo(w, before, beforeDigest, result))
  }

  function AfterReloading(x: Setup, w: World, before: Outside, beforeDigest: Outside, result: ApplyResult): World {
    See(See(w, before), beforeDigest).(view := AfterReload(x, w.view, ReloadIo(w, before, beforeDigest, result)))
  }

  datatype Result = Result(reply: Reply, world: World)

  function RunRollback(x: Setup, w: World, previous: Bytes, newDigest: string, env: Env): Result {
    var w1 := See(w, env.beforeRollback);
    var w2 := AfterCas(x, w1, previous, newDigest, env.rollback);
    if !CasResult(x, w1.file, previous, newDigest, env.rollback).Swapped? then Result(RollbackFailed500, w2)
    else
      var ok := ReloadOk(x, w2, env.beforeReload, env.beforeRedigest, env.reapply);
      Result(if ok then RolledBack503 else RestoreFailed503,
             AfterReloading(x, w2, env.beforeReload, env.beforeRedigest, env.reapply))
  }

  function RunReplace(x: Setup, w: World, d: string, data: Bytes, env: Env): Result {
    var w1 := See(w, env.beforeReread);
    if Read(w1.file).None? then Result(Unavailable500, w1)
    else if x.digest(w1.file.value) != d then Result(Conflict409, w1)
    else if !env.preflightOk then Result(BadRequest400, w1)
    else
      var w2 := See(w1, env.beforeWrite);
      var w3 := AfterCas(x, w2, data, d, env.write);
      match CasResult(x, w2.file, data, d, env.write)
      case Mismatching => Result(Conflict409, w3)
      case Failing => Result(WriteFailed500, w3)
      case Swapped =>
        var w4 := AfterReloading(x, w3, env.beforeLoad, env.beforeDigest, env.apply);
        if ReloadOk(x, w3, env.beforeLoad, env.beforeDigest, env.apply) then Result(Ok200(ETag(x.digest(data))), w4)
        else RunRollback(x, w4, w1.file.value, x.digest(data), env)
  }

  function Run(x: Setup, w: World, req: Request, env: Env): Result {
    var w1 := See(w, env.beforeRead);
    if Read(w1.file).None? || req.edit(w1.file.value).Undecodable? then Result(Unavailable500, w1)
    else if !MatchETag(req.ifMatch, x.digest(w1.file.value)) then Result(Conflict409, w1)
    else
      match req.edit(w1.file.value)
      case BadRequest => Result(BadRequest400, w1)
      case NotFound => Result(NotFound404, w1)
      case EncodingFailed => Result(EncodingFailed500, w1)
      case Candidate(data) => RunReplace(x, w1, x.digest(w1.file.value), data, env)
  }
}

/** What each reply of a transaction says about the file and the controller. */
module TransactionProofs {
  import opened Controllers
  import opened Options
  import opened Unicode
  import ConfigFile
  import opened ControllerRuns
  import opened Transactions

  ghost predicate Injective(x: Setup) {
    forall a, b :: x.digest(a) == x.digest(b) ==> a == b
  }

  /** The contents the request was compared with. */
  function Base(w: World, env: Env): Option<Bytes> {
    See(w, env.beforeRead).file
  }

  /** The transaction went ahead from `base` with `data`. */
  predicate Edits(x: Setup, w: World, req: Request, env: Env, base: Bytes, data: Bytes) {
    && Base(w, env) == Some(base)
    && MatchETag(req.ifMatch, x.digest(base))
    && req.edit(base) == Candidate(data)
  }

  predicate Refusal(r: Reply) {
    r.Unavailable500? || r.BadRequest400? || r.NotFound404? || r.Conflict409? || r.EncodingFailed500?
  }

  /** A refused request wrote nothing and changed nothing in the controller. */
  lemma RefusalsWriteNothing(x: Setup, w: World, req: Request, env: Env)
    requires w.writes == [] && Refusal(Run(x, w, req, env).reply)
    ensures Run(x, w, req, env).world.writes == [] && Run(x, w, req, env).world.view == w.view
  {
  }

  /** The file when the first write tests it. */
  function AtWrite(w: World, env: Env): Option<Bytes> {
    See(See(See(w, env.beforeRead), env.beforeReread), env.beforeWrite).file
  }

  /** The file when the rollback tests it, given that `data` was written. */
  function AtRollback(data: Bytes, env: Env): Option<Bytes> {
    var written := World(Some(data), [], View(None, false, Initial, "", "", 0, map[]));
    See(See(See(written, env.beforeLoad), env.beforeDigest), env.beforeRollback).file
  }

  /** A failed write replaced the file nevertheless: only the directory's
      synchronisation failed, after the test had found the expected contents. */
  predicate ReplacedDespiteError(fault: Fault, file: Option<Bytes>, expected: Bytes, data: Bytes) {
    fault.AfterReplace? && file == Some(expected) && |expected| <= ConfigFile.MAX_FILE_SIZE && |data| <= ConfigFile.MAX_FILE_SIZE
  }

  /** The replacements a reply stands for, given the contents compared and the new ones. */
  predicate Accounts(w: World, env: Env, reply: Reply, writes: seq<Write>, base: Bytes, data: Bytes) {
    var forward, back := Write(Some(base), data), Write(Some(data), base);
    match reply
    case Ok200(_) => writes == [forward]
    case RolledBack503 => writes == [forward, back]
    case RestoreFailed503 => writes == [forward, back]
    case WriteFailed500 => writes == if ReplacedDespiteError(env.write, AtWrite(w, env), base, data) then [forward] else []
    case RollbackFailed500 =>
      writes == if ReplacedDespiteError(env.rollback, AtRollback(data, env), data, base) then [forward, back] else [forward]
    case _ => writes == []
  }

  /** A compare-and-swap that presents the digest of `base` replaces nothing but `base`. */
  lemma CasReplacesBase(x: Setup, w: World, data: Bytes, base: Bytes, fault: Fault)
    requires Injective(x)
    ensures var w' := AfterCas(x, w, data, x.digest(base), fault);
      w' == if CasResult(x, w.file, data, x.digest(base), fault).Swapped? || ReplacedDespiteError(fault, w.file, base, data)
            then w.(file := Some(data), writes := w.writes + [Write(Some(base), data)]) else w
    ensures CasResult(x, w.file, data, x.digest(base), fault).Swapped? ==> w.file == Some(base)
  {
  }

  lemma RollbackAccounts(x: Setup, w0: World, w: World, base: Bytes, data: Bytes, env: Env)
    requires Injective(x) && w.writes == [Write(Some(base), data)]
    requires See(w, env.beforeRollback).file == AtRollback(data, env)
    ensures var r := RunRollback(x, w, base, x.digest(data), env);
      Accounts(w0, env, r.reply, r.world.writes, base, data)
  {
    CasReplacesBase(x, See(w, env.beforeRollback), base, data, env.rollback);
  }

  /** Atomicity of the file: for every combination of outcomes and of other
      writers, a transaction that went ahead made exactly the replacements its
      reply stands for, each of exactly the contents it had compared. */
  lemma EveryReplyAccountsForTheFile(x: Setup, w: World, req: Request, env: Env, base: Bytes, data: Bytes)
    requires Injective(x) && w.writes == [] && Edits(x, w, req, env, base, data) && Read(Some(base)).Some?
    ensures var r := Run(x, w, req, env);
      Accounts(w, env, r.reply, r.world.writes, base, data)
  {
    var w2 := See(See(See(w, env.beforeRead), env.beforeReread), env.beforeWrite);
    CasReplacesBase(x, w2, data, base, env.write);
    var w3 := AfterCas(x, w2, data, x.digest(base), env.write);
    if CasResult(x, w2.file, data, x.digest(base), env.write).Swapped? {
      var w4 := AfterReloading(x, w3, env.beforeLoad, env.beforeDigest, env.apply);
      RollbackAccounts(x, w, w4, base, data, env);
    }
  }

  /** Only a request whose If-Match names the contents goes ahead. */
  lemma OnlyMatchingRequestsGoAhead(x: Setup, w: World, req: Request, env: Env)
    requires !Refusal(Run(x, w, req, env).reply)
    ensures exists base, data :: Edits(x, w, req, env, base, data) && Read(Some(base)).Some?
  {
    var base := Base(w, env).value;
    assert Edits(x, w, req, env, base, req.edit(base).data);
  }

  /** The controller runs the configuration that `data` loads to. */
  predicate RunsOn(x: Setup, v: View, data: Bytes) {
    && x.load(data).Some?
    && v.applied == x.digest(data)
    && v.current == Some(Stripped(x.load(data).value, x.startup))
    && v.managed == Stripped(x.load(data).value, x.startup).servers
    && v.restartRequired == RestartNeeded(x, Stripped(x.load(data).value, x.startup))
  }

  predicate Shows(o: Outside, data: Bytes) {
    o.Quiet? || o.file == Some(data)
  }

  lemma ReloadRuns(x: Setup, w: World, before: Outside, beforeDigest: Outside, result: ApplyResult)
    requires ReloadOk(x, w, before, beforeDigest, result)
    ensures See(w, before).file.Some?
    ensures RunsOn(x, AfterReloading(x, w, before, beforeDigest, result).view, See(w, before).file.value)
  {
  }

  /** A 200 means that the new bytes are running, exactly when no other writer
      changed the file between the replacement and the reload. */
  lemma SuccessRunsNewBytes(x: Setup, w: World, req: Request, env: Env, base: Bytes, data: Bytes)
    requires Injective(x) && Edits(x, w, req, env, base, data) && Run(x, w, req, env).reply.Ok200?
    ensures RunsOn(x, Run(x, w, req, env).world.view, data) <==> Shows(env.beforeLoad, data)
    ensures Run(x, w, req, env).reply.etag == ETag(x.digest(data))
    ensures env.beforeLoad.Quiet? && env.beforeDigest.Quiet? ==> Run(x, w, req, env).world.file == Some(data)
  {
    var w2 := See(See(See(w, env.beforeRead), env.beforeReread), env.beforeWrite);
    var w3 := AfterCas(x, w2, data, x.digest(base), env.write);
    assert w3.file == Some(data);
    ReloadRuns(x, w3, env.beforeLoad, env.beforeDigest, env.apply);
  }

  /** "Change was rolled back": the controller and the manager are back on the
      previous bytes, exactly when no other writer changed the file between the
      rollback and the second reload. */
  lemma RollbackRunsPreviousBytes(x: Setup, w: World, req: Request, env: Env, base: Bytes, data: Bytes)
    requires Injective(x) && Edits(x, w, req, env, base, data) && Run(x, w, req, env).reply.RolledBack503?
    ensures RunsOn(x, Run(x, w, req, env).world.view, base) <==> Shows(env.beforeReload, base)
    ensures env.beforeReload.Quiet? && env.beforeRedigest.Quiet? ==> Run(x, w, req, env).world.file == Some(base)
  {
    var w2 := See(See(See(w, env.beforeRead), env.beforeReread), env.beforeWrite);
    var w3 := AfterCas(x, w2, data, x.digest(base), env.write);
    var w4 := AfterReloading(x, w3, env.beforeLoad, env.beforeDigest, env.apply);
    var w5 := AfterCas(x, See(w4, env.beforeRollback), base, x.digest(data), env.rollback);
    assert w5.file == Some(base);
    ReloadRuns(x, w5, env.beforeReload, env.beforeRedigest, env.reapply);
  }

  /** When nobody else writes during the restoration, a rolled back transaction
      leaves the controller and the manager exactly as they were, if and only if
      they ran on the previous bytes before it; the failed reload may have changed
      the manager in between.  They did not when servers applied at startup hold
      a startup credential, or after an application that ran into its deadline. */
  lemma RollbackRestoresTheController(x: Setup, w: World, req: Request, env: Env, base: Bytes, data: Bytes)
    requires Injective(x) && Edits(x, w, req, env, base, data) && Run(x, w, req, env).reply.RolledBack503?
    requires env.beforeReload.Quiet?
    ensures Untouched(w.view, Run(x, w, req, env).world.view) <==> RunsOn(x, w.view, base)
  {
    RollbackRunsPreviousBytes(x, w, req, env, base, data);
  }

  /** The condition of SuccessRunsNewBytes can fail: another writer gets in after the replacement. */
  lemma SuccessMayRunOtherBytes(x: Setup, v: View, base: Bytes, data: Bytes, other: Bytes)
    requires Injective(x) && x.load(other).Some? && !Leaks(x, x.load(other).value) && data != other
    requires |base| <= ConfigFile.MAX_FILE_SIZE && |data| <= ConfigFile.MAX_FILE_SIZE && |other| <= ConfigFile.MAX_FILE_SIZE
    ensures var r := Run(x, World(Some(base), [], v), Replacing(x, base, data), Succeeding(Sets(Some(other))));
      r.reply.Ok200? && RunsOn(x, r.world.view, other) && !RunsOn(x, r.world.view, data)
  {
    var w := World(Some(base), [], v);
    EntityTagRoundTrip(x.digest(base), x.digest(base));
    var w3 := AfterCas(x, w, data, x.digest(base), ConfigFile.NoFault);
    assert w3.file == Some(data);
    assert ReloadOk(x, w3, Sets(Some(other)), Quiet, Applied);
    ReloadRuns(x, w3, Sets(Some(other)), Quiet, Applied);
  }

  /** Nobody interferes, except before the reload, and nothing fails. */
  function Succeeding(beforeLoad: Outside): Env {
    Env(Quiet, Quiet, true, Quiet, ConfigFile.NoFault, beforeLoad, Quiet, Applied, Quiet, ConfigFile.NoFault, Quiet, Quiet, Applied)
  }

  /** A request that names `base` and replaces it by `data`. */
  function Replacing(x: Setup, base: Bytes, data: Bytes): Request {
    Request(ETag(x.digest(base)), (b: Bytes) => Candidate(data))
  }

  /** Nobody interferes, except before the second reload; the first application runs into its deadline. */
  function RollingBack(beforeReload: Outside): Env {
    Env(Quiet, Quiet, true, Quiet, ConfigFile.NoFault, Quiet, Quiet, TimedOut, Quiet, ConfigFile.NoFault, beforeReload, Quiet, Applied)
  }

  /** The condition of RollbackRunsPreviousBytes can fail: another writer gets in after the rollback. */
  lemma RollbackMayRunOtherBytes(x: Setup, v: View, base: Bytes, data: Bytes, other: Bytes)
    requires Injective(x) && x.load(other).Some? && !Leaks(x, x.load(other).value) && base != other
    requires |base| <= ConfigFile.MAX_FILE_SIZE && |data| <= ConfigFile.MAX_FILE_SIZE && |other| <= ConfigFile.MAX_FILE_SIZE
    ensures var r := Run(x, World(Some(base), [], v), Replacing(x, base, data), RollingBack(Sets(Some(other))));
      r.reply.RolledBack503? && RunsOn(x, r.world.view, other) && !RunsOn(x, r.world.view, base)
  {
    var w, env := World(Some(base), [], v), RollingBack(Sets(Some(other)));
    EntityTagRoundTrip(x.digest(base), x.digest(base));
    var w4 := AfterReloading(x, AfterCas(x, w, data, x.digest(base), ConfigFile.NoFault), Quiet, Quiet, TimedOut);
    var w5 := AfterCas(x, w4, base, x.digest(data), ConfigFile.NoFault);
    assert w5.file == Some(base);
    assert ReloadOk(x, w5, Sets(Some(other)), Quiet, Applied);
    ReloadRuns(x, w5, Sets(Some(other)), Quiet, Applied);
  }

  /** The condition of RollbackRestoresTheController can fail: nobody else writes, and yet
      a manager that ran on other servers than the previous bytes give is changed. */
  lemma RollbackMayChangeManager(x: Setup, v: View, base: Bytes, data: Bytes)
    requires x.load(base).Some? && !Leaks(x, x.load(base).value)
    requires v.managed != Stripped(x.load(base).value, x.startup).servers
    requires |base| <= ConfigFile.MAX_FILE_SIZE && |data| <= ConfigFile.MAX_FILE_SIZE
    ensures var r := Run(x, World(Some(base), [], v), Replacing(x, base, data), RollingBack(Quiet));
      r.reply.RolledBack503? && r.world.view.managed != v.managed
  {
    var w := World(Some(base), [], v);
    EntityTagRoundTrip(x.digest(base), x.digest(base));
    var w4 := AfterReloading(x, AfterCas(x, w, data, x.digest(base), ConfigFile.NoFault), Quiet, Quiet, TimedOut);
    var w5 := AfterCas(x, w4, base, x.digest(data), ConfigFile.NoFault);
    assert w5.file == Some(base);
    assert ReloadOk(x, w5, Quiet, Quiet, Applied);
    ReloadRuns(x, w5, Quiet, Quiet, Applied);
  }

  /** A write that is reported as failed may have replaced the file: the directory's synchronisation failed. */
  lemma WriteErrorMayReplace(x: Setup, v: View, base: Bytes, data: Bytes)
    requires |base| <= ConfigFile.MAX_FILE_SIZE && |data| <= ConfigFile.MAX_FILE_SIZE
    ensures var env := RollingBack(Quiet).(write := ConfigFile.AfterReplace);
      var r := Run(x, World(Some(base), [], v), Replacing(x, base, data), env);
      r.reply.WriteFailed500? && r.world.file == Some(data) && r.world.view == v
  {
    EntityTagRoundTrip(x.digest(base), x.digest(base));
  }

  // ---- when each reply is given

  /** The file as an access finds it after another writer's move. */
  function Seen(o: Outside, file: Option<Bytes>): Option<Bytes> {
    if o.Sets? then o.file else file
  }

  /** The contents can be read: there are some, of at most 1 MiB. */
  predicate Legible(file: Option<Bytes>) {
    file.Some? && |file.value| <= 1048576
  }

  predicate MayWrite(data: Bytes, fault: Fault) {
    |data| <= 1048576 && !fault.BeforeTest?
  }

  /** A write finds other contents than expected, or none. */
  predicate FindsOther(x: Setup, file: Option<Bytes>, expected: string) {
    file.None? || (Legible(file) && x.digest(file.value) != expected)
  }

  predicate FindsExpected(x: Setup, file: Option<Bytes>, expected: string) {
    Legible(file) && x.digest(file.value) == expected
  }

  /** A token of the configuration is the credential of the running console. */
  predicate UsesAdminToken(x: Setup, r: Resolved) {
    && x.startup.Some? && x.startup.value.adminEnabled && x.startup.value.adminToken != ""
    && (r.bearerToken == x.startup.value.adminToken || x.startup.value.adminToken in r.bearerTokens)
  }

  /** The reload reads a configuration that loads, is still there when its digest is taken
      again, uses no admin credential and is applied by the manager. */
  predicate Reloads(x: Setup, read: Option<Bytes>, again: Option<Bytes>, result: ApplyResult) {
    && Legible(read) && x.load(read.value).Some?
    && Legible(again) && x.digest(again.value) == x.digest(read.value)
    && !UsesAdminToken(x, x.load(read.value).value)
    && result.Applied?
  }

  lemma ReloadsExactly(x: Setup, w: World, before: Outside, beforeDigest: Outside, result: ApplyResult)
    ensures ReloadOk(x, w, before, beforeDigest, result) <==>
      Reloads(x, Seen(before, w.file), Seen(beforeDigest, Seen(before, w.file)), result)
  {
    var read := See(w, before).file;
    if read.Some? && x.load(read.value).Some? && x.startup.Some? {
      var r := x.load(read.value).value;
      assert x.startup.value.adminToken in [r.bearerToken] + r.bearerTokens <==>
        r.bearerToken == x.startup.value.adminToken || x.startup.value.adminToken in r.bearerTokens;
    }
  }

  /** The file at each access. */
  function First(w: World, env: Env): Option<Bytes> { Seen(env.beforeRead, w.file) }
  function Second(w: World, env: Env): Option<Bytes> { Seen(env.beforeReread, First(w, env)) }
  function Third(w: World, env: Env): Option<Bytes> { Seen(env.beforeWrite, Second(w, env)) }
  function Loaded(env: Env, data: Bytes): Option<Bytes> { Seen(env.beforeLoad, Some(data)) }
  function LoadedAgain(env: Env, data: Bytes): Option<Bytes> { Seen(env.beforeDigest, Loaded(env, data)) }
  function AtRestoring(env: Env, data: Bytes): Option<Bytes> { Seen(env.beforeRollback, LoadedAgain(env, data)) }
  function Restored(env: Env, base: Bytes): Option<Bytes> { Seen(env.beforeReload, Some(base)) }
  function RestoredAgain(env: Env, base: Bytes): Option<Bytes> { Seen(env.beforeRedigest, Restored(env, base)) }

  /** The request can be read and decoded and its If-Match names the contents. */
  predicate Matched(x: Setup, w: World, req: Request, env: Env) {
    && Legible(First(w, env)) && !req.edit(First(w, env).value).Undecodable?
    && MatchETag(req.ifMatch, x.digest(First(w, env).value))
  }

  /** The edit gave new contents. */
  predicate Edited(x: Setup, w: World, req: Request, env: Env) {
    Matched(x, w, req, env) && req.edit(First(w, env).value).Candidate?
  }

  /** The contents are still those, and the preflight passed. */
  predicate Cleared(x: Setup, w: World, req: Request, env: Env) {
    && Edited(x, w, req, env) && env.preflightOk
    && Legible(Second(w, env)) && x.digest(Second(w, env).value) == x.digest(First(w, env).value)
  }

  /** The new contents were written without an error. */
  predicate Written(x: Setup, w: World, req: Request, env: Env) {
    && Cleared(x, w, req, env)
    && MayWrite(req.edit(First(w, env).value).data, env.write) && env.write.NoFault?
    && FindsExpected(x, Third(w, env), x.digest(First(w, env).value))
  }

  predicate Running(x: Setup, w: World, req: Request, env: Env) {
    && Written(x, w, req, env)
    && var data := req.edit(First(w, env).value).data;
    Reloads(x, Loaded(env, data), LoadedAgain(env, data), env.apply)
  }

  /** The reload failed and the previous contents were written back without an error. */
  predicate PutBack(x: Setup, w: World, req: Request, env: Env) {
    && Written(x, w, req, env) && !Running(x, w, req, env)
    && var data := req.edit(First(w, env).value).data;
    env.rollback.NoFault? && FindsExpected(x, AtRestoring(env, data), x.digest(data))
  }

  predicate RunningAgain(x: Setup, w: World, req: Request, env: Env) {
    && PutBack(x, w, req, env)
    && var base := Second(w, env).value;
    Reloads(x, Restored(env, base), RestoredAgain(env, base), env.reapply)
  }

  lemma CasSwapsExactly(x: Setup, file: Option<Bytes>, data: Bytes, expected: string, fault: Fault)
    ensures CasResult(x, file, data, expected, fault).Swapped? <==>
      MayWrite(data, fault) && fault.NoFault? && FindsExpected(x, file, expected)
    ensures CasResult(x, file, data, expected, fault).Mismatching? <==> MayWrite(data, fault) && FindsOther(x, file, expected)
  {
  }

  /** The replies of the second half. */
  lemma RollbackRepliesExactly(x: Setup, w: World, previous: Bytes, data: Bytes, env: Env)
    requires w.file == LoadedAgain(env, data) && |previous| <= 1048576
    ensures var r := RunRollback(x, w, previous, x.digest(data), env).reply;
      var back := env.rollback.NoFault? && FindsExpected(x, AtRestoring(env, data), x.digest(data));
      var again := Reloads(x, Restored(env, previous), RestoredAgain(env, previous), env.reapply);
      r == if !back then RollbackFailed500 else if again then RolledBack503 else RestoreFailed503
  {
    var w1 := See(w, env.beforeRollback);
    CasSwapsExactly(x, w1.file, previous, x.digest(data), env.rollback);
    ReloadsExactly(x, AfterCas(x, w1, previous, x.digest(data), env.rollback), env.beforeReload, env.beforeRedigest, env.reapply);
  }

  lemma ReplaceRepliesExactly(x: Setup, w: World, base: Bytes, data: Bytes, env: Env)
    requires w.file == Some(base)
    ensures var r := RunReplace(x, w, x.digest(base), data, env).reply;
      var second := Seen(env.beforeReread, Some(base));
      var third := Seen(env.beforeWrite, second);
      if !Legible(second) then r == Unavailable500
      else if x.digest(second.value) != x.digest(base) then r == Conflict409
      else if !env.preflightOk then r == BadRequest400
      else if MayWrite(data, env.write) && FindsOther(x, third, x.digest(base)) then r == Conflict409
      else if !(MayWrite(data, env.write) && env.write.NoFault? && FindsExpected(x, third, x.digest(base))) then r == WriteFailed500
      else if Reloads(x, Loaded(env, data), LoadedAgain(env, data), env.apply) then r == Ok200(ETag(x.digest(data)))
      else if !(env.rollback.NoFault? && FindsExpected(x, AtRestoring(env, data), x.digest(data))) then r == RollbackFailed500
      else if Reloads(x, Restored(env, second.value), RestoredAgain(env, second.value), env.reapply) then r == RolledBack503
      else r == RestoreFailed503
  {
    var w2 := See(See(w, env.beforeReread), env.beforeWrite);
    CasSwapsExactly(x, w2.file, data, x.digest(base), env.write);
    var w3 := AfterCas(x, w2, data, x.digest(base), env.write);
    ReloadsExactly(x, w3, env.beforeLoad, env.beforeDigest, env.apply);
    if CasResult(x, w2.file, data, x.digest(base), env.write).Swapped? && Legible(Seen(env.beforeReread, Some(base))) {
      var w4 := AfterReloading(x, w3, env.beforeLoad, env.beforeDigest, env.apply);
      RollbackRepliesExactly(x, w4, Seen(env.beforeReread, Some(base)).value, data, env);
    }
  }

  /** Each reply is given exactly under its condition on the file at each access, the request,
      the preflight, the faults and the manager's answers. */
  lemma EachReplyExactly(x: Setup, w: World, req: Request, env: Env)
    ensures var r := Run(x, w, req, env).reply;
      && (r.NotFound404? <==> Matched(x, w, req, env) && req.edit(First(w, env).value).NotFound?)
      && (r.EncodingFailed500? <==> Matched(x, w, req, env) && req.edit(First(w, env).value).EncodingFailed?)
      && (r.BadRequest400? <==>
            || (Matched(x, w, req, env) && req.edit(First(w, env).value).BadRequest?)
            || (&& Edited(x, w, req, env) && !env.preflightOk
                && Legible(Second(w, env)) && x.digest(Second(w, env).value) == x.digest(First(w, env).value)))
      && (r.Conflict409? <==>
            || (&& Legible(First(w, env)) && !req.edit(First(w, env).value).Undecodable?
                && !MatchETag(req.ifMatch, x.digest(First(w, env).value)))
            || (&& Edited(x, w, req, env) && Legible(Second(w, env))
                && x.digest(Second(w, env).value) != x.digest(First(w, env).value))
            || (&& Cleared(x, w, req, env) && MayWrite(req.edit(First(w, env).value).data, env.write)
                && FindsOther(x, Third(w, env), x.digest(First(w, env).value))))
      && (r.Unavailable500? <==>
            || !Legible(First(w, env)) || req.edit(First(w, env).value).Undecodable?
            || (Edited(x, w, req, env) && !Legible(Second(w, env))))
  {
    if Edited(x, w, req, env) {
      ReplaceRepliesExactly(x, See(w, env.beforeRead), First(w, env).value, req.edit(First(w, env).value).data, env);
    }
  }

  lemma EachLateReplyExactly(x: Setup, w: World, req: Request, env: Env)
    ensures var r := Run(x, w, req, env).reply;
      && (r.Ok200? <==> Running(x, w, req, env))
      && (r.Ok200? ==> r.etag == ETag(x.digest(req.edit(First(w, env).value).data)))
      && (r.WriteFailed500? <==>
            && Cleared(x, w, req, env) && !Written(x, w, req, env)
            && !(MayWrite(req.edit(First(w, env).value).data, env.write)
                 && FindsOther(x, Third(w, env), x.digest(First(w, env).value))))
      && (r.RollbackFailed500? <==> Written(x, w, req, env) && !Running(x, w, req, env) && !PutBack(x, w, req, env))
      && (r.RolledBack503? <==> RunningAgain(x, w, req, env))
      && (r.RestoreFailed503? <==> PutBack(x, w, req, env) && !RunningAgain(x, w, req, env))
  {
    if Edited(x, w, req, env) {
      ReplaceRepliesExactly(x, See(w, env.beforeRead), First(w, env).value, req.edit(First(w, env).value).data, env);
    }
  }

  /** A failed preflight is a refusal: nothing is written and the controller is left alone. */
  lemma FailedPreflightWritesNothing(x: Setup, w: World, req: Request, env: Env)
    requires !env.preflightOk && w.writes == []
    ensures Refusal(Run(x, w, req, env).reply)
    ensures Run(x, w, req, env).world.writes == [] && Run(x, w, req, env).world.view == w.view
  {
    EachReplyExactly(x, w, req, env);
    EachLateReplyExactly(x, w, req, env);
    RefusalsWriteNothing(x, w, req, env);
  }

  // ---- entity tags

  predicate All(s: string, drop: char -> bool) {
    forall i :: 0 <= i < |s| ==> drop(s[i])
  }

  lemma {:induction false} TrimLeftDrops(before: string, text: string, drop: char -> bool)
    requires All(before, drop) && (text == "" || !drop(text[0]))
    ensures TrimLeft(before + text, drop) == text
  {
    if before == "" {
      assert before + text == text;
    } else {
      assert (before + text)[1..] == before[1..] + text;
      assert drop((before + text)[0]);
      TrimLeftDrops(before[1..], text, drop);
    }
  }

  lemma {:induction false} TrimRightDrops(text: string, after: string, drop: char -> bool)
    requires All(after, drop) && (text == "" || !drop(text[|text| - 1]))
    ensures TrimRight(text + after, drop) == text
    decreases |after|
  {
    if after == "" {
      assert text + after == text;
    } else {
      var all := text + after;
      assert all[..|all| - 1] == text + after[..|after| - 1];
      assert drop(all[|all| - 1]);
      TrimRightDrops(text, after[..|after| - 1], drop);
    }
  }

  /** Trimming takes off exactly what surrounds a text that neither begins nor ends with it. */
  lemma TrimDrops(before: string, text: string, after: string, drop: char -> bool)
    requires text != "" && !drop(text[0]) && !drop(text[|text| - 1]) && All(before, drop) && All(after, drop)
    ensures Trim(before + text + after, drop) == text
  {
    assert before + text + after == before + (text + after);
    TrimLeftDrops(before, text + after, drop);
    TrimRightDrops(text, after, drop);
  }

  /** An If-Match value names a digest whatever blanks surround it and whether it is quoted or not, and no other digest. */
  lemma IfMatchNamesOneDigest(before: string, open: string, d: string, close: string, after: string, e: string)
    requires IsHex(d) && All(before, IsSpace) && All(after, IsSpace) && All(open, Quote) && All(close, Quote)
    ensures MatchETag(before + (open + d + close) + after, e) <==> d == e
  {
    var tag := open + d + close;
    assert tag[0] == if open == "" then d[0] else open[0];
    assert tag[|tag| - 1] == if close == "" then d[|d| - 1] else close[|close| - 1];
    TrimDrops(before, tag, after, IsSpace);
    TrimDrops(open, d, close, Quote);
  }

  /** The tag of one reply, sent back in If-Match, names the same digest and no other. */
  lemma EntityTagRoundTrip(d: string, e: string)
    requires IsHex(d)
    ensures MatchETag(ETag(d), e) <==> d == e
  {
    IfMatchNamesOneDigest("", "\"", d, "\"", "", e);
    assert "" + ("\"" + d + "\"") + "" == ETag(d);
  }
}
