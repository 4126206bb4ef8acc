/** The lock-guarded migration as a protocol: any number of processes, any interleaving, a crash or
    an I/O failure at every system call and in the middle of every write. Models
    `migrate_filesystem_ca_policy` and its helpers in ca_policy_migration.py. */
module CaPolicyMigration {
  import opened PyText
  import opened Encoding
  import opened CaPolicyCandidate

  const MAX_CONFIG_BYTES := 1024 * 1024
  const MIGRATION_ID := "filesystem_ca_policy_v2"
  const LOCK_CONTENT := Utf8(MIGRATION_ID + "\n")

  type Directory = map<string, Bytes>

  /** The config's file name, the candidate's environment and `sha256(...).hexdigest()`. */
  datatype Params = Params(name: string, env: Env, digest: Bytes -> string)

  function LockName(p: Params): string { "." + p.name + ".ca-policy.lock" }

  function BackupName(p: Params, raw: Bytes): string { p.name + ".ca-policy." + p.digest(raw) + ".bak" }

  function TempName(p: Params, token: string): string { "." + p.name + ".ca-policy." + token + ".tmp" }

  /** The four kinds of file never share a name, whatever the config is called. */
  lemma NamesDiffer(p: Params, raw: Bytes, token: string)
    ensures p.name != LockName(p) && p.name != BackupName(p, raw) && p.name != TempName(p, token)
    ensures LockName(p) != BackupName(p, raw) && LockName(p) != TempName(p, token)
    ensures BackupName(p, raw) != TempName(p, token)
  {
    var lock, backup, temp := LockName(p), BackupName(p, raw), TempName(p, token);
    assert |lock| > |p.name| && |backup| > |p.name| && |temp| > |p.name|;
    assert lock[|lock| - 3..] == "ock" && backup[|backup| - 3..] == "bak" && temp[|temp| - 3..] == "tmp";
    assert "ock"[0] == 'o' && "bak"[0] == 'b' && "tmp"[0] == 't';
  }

  /** Each file is found by its config's name and its suffix; lock and temporary file are hidden. Two calls share a
      backup exactly when the bytes have one digest, and a temporary file exactly when they draw one token. */
  lemma NamesTell(p: Params, raw: Bytes, other: Bytes, token: string, token': string)
    ensures StartsWith(LockName(p), "." + p.name) && EndsWith(LockName(p), ".ca-policy.lock")
    ensures StartsWith(BackupName(p, raw), p.name + ".ca-policy.") && EndsWith(BackupName(p, raw), ".bak")
    ensures StartsWith(TempName(p, token), "." + p.name + ".ca-policy.") && EndsWith(TempName(p, token), ".tmp")
    ensures BackupName(p, raw) == BackupName(p, other) <==> p.digest(raw) == p.digest(other)
    ensures TempName(p, token) == TempName(p, token') <==> token == token'
  {
    var front, hidden := p.name + ".ca-policy.", "." + p.name + ".ca-policy.";
    Between(front, p.digest(raw), ".bak");
    Between(front, p.digest(other), ".bak");
    Between(hidden, token, ".tmp");
    Between(hidden, token', ".tmp");
    assert LockName(p)[..|p.name| + 1] == "." + p.name;
    assert LockName(p)[|p.name| + 1..] == ".ca-policy.lock";
    assert BackupName(p, raw) == front + p.digest(raw) + ".bak" && TempName(p, token) == hidden + token + ".tmp";
  }

  lemma Between(front: string, middle: string, back: string)
    ensures var s := front + middle + back;
            && StartsWith(s, front) && EndsWith(s, back) && s[|front|..|s| - |back|] == middle
  {
    var s := front + middle + back;
    assert s[..|front|] == front && s[|front| + |middle|..] == back;
  }

  datatype MigrationError =
    | ConfigIoError
    | InvalidConfigFile
    | BadConfig(error: CaPolicyCandidate.Error)
    | ConfigChanged
    | BackupConflict

  datatype Outcome =
    | Running
    | Refused(error: MigrationError)
    | Unchanged(added: seq<string>)  // `applied: False`
    | Applied(added: seq<string>)    // `applied: True`
    | CleanupRaised                  // the error of an `unlink` in `finally`, which replaces the outcome

  datatype Pc =
    | Start
    | LockWriting
    | Reading
    | BackupCreate
    | BackupWriting
    | BackupCompare
    | TempCreate
    | TempWriting
    | Recheck
    | Replace
    | SyncDir
    | UnlinkTemp
    | UnlinkLock
    | Done
    | Crashed

  /** One call of the migration. `locked`, `temporary` and `raw` are the Python locals;
      `replaced` records that this call's `os.replace` took place. */
  datatype Process = Process(
    apply: bool,
    expected: Option<string>,
    pc: Pc,
    locked: bool,
    temporary: Option<string>,
    raw: Bytes,
    plan: Plan,
    outcome: Outcome,
    replaced: bool)

  /** How the next system call of a process goes: it succeeds or raises OSError (a temporary name that is
      chosen just before uses `token`), a write gets only `length` bytes out so far, or the process dies. */
  datatype Event = Go(token: string) | Fail(token: string) | Partial(length: nat) | Crash

  predicate Fresh(q: Process)
  {
    q.pc == Start && !q.locked && q.temporary == None && q.outcome == Running && !q.replaced
  }

  /** The process is between taking and releasing the lock. */
  predicate Holds(q: Process)
  {
    q.pc == LockWriting || (q.locked && q.pc != Done && q.pc != Crashed)
  }

  /** Leaves the `try` block for the `finally` block. */
  function Leave(q: Process, outcome: Outcome): Process
  {
    q.(pc := UnlinkTemp, outcome := outcome)
  }

  /** `_read` */
  function Read(files: Directory, name: string): Result<Bytes, MigrationError>
  {
    if name !in files then Err(ConfigIoError)
    else if |files[name]| > MAX_CONFIG_BYTES then Err(InvalidConfigFile)
    else Ok(files[name])
  }

  /** `os.unlink` */
  function Delete(files: Directory, name: string): (left: Directory)
    ensures name !in left
    ensures forall other :: other != name ==> (other in left <==> other in files)
    ensures forall other :: other != name && other in files ==> left[other] == files[other]
  {
    map other | other in files && other != name :: files[other]
  }

  /** What the file holds once a write of `data` has got `length` bytes out. */
  function Written(data: Bytes, length: nat): (torn: Bytes)
    ensures torn <= data && (|torn| == length || (torn == data && length >= |data|))
  {
    data[..if length < |data| then length else |data|]
  }

  /** The decision taken on the config's bytes. */
  function Decide(p: Params, q: Process, raw: Bytes): Process
  {
    match Candidate(p.env, raw)
    case Err(e) => Leave(q, Refused(BadConfig(e)))
    case Ok(plan) =>
      if !q.apply then Leave(q, Unchanged(plan.added))
      else if q.expected != Some(p.digest(raw)) then Leave(q, Refused(ConfigChanged))
      else if plan.added == [] then Leave(q, Unchanged(plan.added))
      else q.(pc := BackupCreate, raw := raw, plan := plan)
  }

  /** Taking the lock and looking at the config. */
  function Inspect(p: Params, files: Directory, q: Process): (Directory, Process)
  {
    match q.pc
    case Start =>
      if !q.apply then (files, q.(pc := Reading))
      else if LockName(p) in files then (files, Leave(q, Refused(ConfigIoError)))
      else (files[LockName(p) := []], q.(pc := LockWriting))
    case LockWriting => (files[LockName(p) := LOCK_CONTENT], q.(pc := Reading, locked := true))
    case _ =>
      match Read(files, p.name)
      case Err(e) => (files, Leave(q, Refused(e)))
      case Ok(raw) => (files, Decide(p, q, raw))
  }

  /** Writing the backup, or accepting one that already holds the same bytes. */
  function BackUp(p: Params, files: Directory, q: Process): (Directory, Process)
  {
    var backup := BackupName(p, q.raw);
    match q.pc
    case BackupCreate =>
      if backup in files then (files, q.(pc := BackupCompare))
      else (files[backup := []], q.(pc := BackupWriting))
    case BackupWriting => (files[backup := q.raw], q.(pc := TempCreate))
    case _ =>
      match Read(files, backup)
      case Err(e) => (files, Leave(q, Refused(e)))
      case Ok(saved) =>
        if saved != q.raw then (files, Leave(q, Refused(BackupConflict))) else (files, q.(pc := TempCreate))
  }

  /** Writing the candidate to a temporary file and moving it over the config. */
  function Stage(p: Params, files: Directory, q: Process, token: string): (Directory, Process)
  {
    match q.pc
    case TempCreate =>
      var named := q.(temporary := Some(TempName(p, token)));
      if TempName(p, token) in files then (files, Leave(named, Refused(ConfigIoError)))
      else (files[TempName(p, token) := []], named.(pc := TempWriting))
    case TempWriting =>
      if q.temporary == None then (files, Leave(q, Refused(ConfigIoError)))
      else (files[q.temporary.value := q.plan.bytes], q.(pc := Recheck))
    case Recheck =>
      (match Read(files, p.name)
       case Err(e) => (files, Leave(q, Refused(e)))
       case Ok(now) =>
         if now != q.raw then (files, Leave(q, Refused(ConfigChanged))) else (files, q.(pc := Replace)))
    case _ =>
      if q.temporary == None || q.temporary.value !in files then (files, Leave(q, Refused(ConfigIoError)))
      else (Delete(files[p.name := files[q.temporary.value]], q.temporary.value),
            q.(pc := SyncDir, temporary := None, replaced := true))
  }

  /** The directory sync that ends the `try` block, and the two steps of the `finally` block. */
  function CleanUp(p: Params, files: Directory, q: Process): (Directory, Process)
  {
    match q.pc
    case SyncDir => (files, Leave(q, Applied(q.plan.added)))
    case UnlinkTemp =>
      if q.temporary == None then (files, q.(pc := UnlinkLock))
      else if q.temporary.value !in files then (files, q.(pc := Done, outcome := CleanupRaised))
      else (Delete(files, q.temporary.value), q.(pc := UnlinkLock))
    case UnlinkLock =>
      if !q.locked then (files, q.(pc := Done))
      else if LockName(p) !in files then (files, q.(pc := Done, outcome := CleanupRaised))
      else (Delete(files, LockName(p)), q.(pc := Done))
    case _ => (files, q)
  }

  predicate Inspecting(pc: Pc) { pc.Start? || pc.LockWriting? || pc.Reading? }

  predicate BackingUp(pc: Pc) { pc.BackupCreate? || pc.BackupWriting? || pc.BackupCompare? }

  predicate Staging(pc: Pc) { pc.TempCreate? || pc.TempWriting? || pc.Recheck? || pc.Replace? }

  /** The next system call of a process, on success. */
  function Advance(p: Params, files: Directory, q: Process, token: string): (Directory, Process)
  {
    if Inspecting(q.pc) then Inspect(p, files, q)
    else if BackingUp(q.pc) then BackUp(p, files, q)
    else if Staging(q.pc) then Stage(p, files, q, token)
    else CleanUp(p, files, q)
  }

  /** An OSError from the next system call. A call that has nothing to do cannot fail. */
  function Stumble(p: Params, files: Directory, q: Process, token: string): (Directory, Process)
  {
    match q.pc
    case Start => (files, q.(pc := Done, outcome := Refused(ConfigIoError)))
    case TempCreate => (files, Leave(q.(temporary := Some(TempName(p, token))), Refused(ConfigIoError)))
    case UnlinkTemp =>
      if q.temporary == None then Advance(p, files, q, token)
      else (files, q.(pc := Done, outcome := CleanupRaised))
    case UnlinkLock =>
      if !q.locked then Advance(p, files, q, token)
      else (files, q.(pc := Done, outcome := CleanupRaised))
    case Done => (files, q)
    case Crashed => (files, q)
    case _ => (files, Leave(q, Refused(ConfigIoError)))
  }

  /** A write that has got some bytes out and goes on. */
  function WriteSome(p: Params, files: Directory, q: Process, length: nat): (Directory, Process)
  {
    match q.pc
    case LockWriting => (files[LockName(p) := Written(LOCK_CONTENT, length)], q)
    case BackupWriting => (files[BackupName(p, q.raw) := Written(q.raw, length)], q)
    case TempWriting =>
      if q.temporary == None then (files, q)
      else (files[q.temporary.value := Written(q.plan.bytes, length)], q)
    case _ => (files, q)
  }

  function StepProcess(p: Params, files: Directory, q: Process, e: Event): (Directory, Process)
  {
    match e
    case Go(token) => Advance(p, files, q, token)
    case Fail(token) => Stumble(p, files, q, token)
    case Partial(length) => WriteSome(p, files, q, length)
    case Crash => (files, if q.pc == Done then q else q.(pc := Crashed))
  }

  datatype System = System(files: Directory, processes: seq<Process>)

  /** A process moves, or an operator deletes a lock file no live process holds. */
  datatype Action = Act(i: nat, event: Event) | ClearStaleLock

  function Next(p: Params, s: System, a: Action): System
  {
    match a
    case Act(i, e) =>
      if i >= |s.processes| then s
      else
        var (files, q) := StepProcess(p, s.files, s.processes[i], e);
        System(files, s.processes[i := q])
    case ClearStaleLock =>
      if exists i :: 0 <= i < |s.processes| && Holds(s.processes[i]) then s
      else System(Delete(s.files, LockName(p)), s.processes)
  }

  function Run(p: Params, s: System, actions: seq<Action>): System
    decreases |actions|
  {
    if actions == [] then s else Run(p, Next(p, s, actions[0]), actions[1..])
  }

  // --- What every step keeps -------------------------------------------------

  /** The config has been migrated from `original`, and the backup named by the original's hash
      still holds the original. */
  ghost predicate Migrated(p: Params, original: Bytes, files: Directory)
  {
    && Candidate(p.env, original).Ok?
    && Candidate(p.env, original).value.added != []
    && p.name in files && files[p.name] == Candidate(p.env, original).value.bytes
    && BackupName(p, original) in files && files[BackupName(p, original)] == original
  }

  ghost predicate Untouched(p: Params, original: Bytes, files: Directory)
  {
    p.name in files && files[p.name] == original
  }

  /** Never a torn, empty or third version of the config. */
  ghost predicate ConfigSafe(p: Params, original: Bytes, files: Directory)
  {
    Untouched(p, original, files) || Migrated(p, original, files)
  }

  ghost predicate IsTempName(p: Params, name: string)
  {
    exists token :: name == TempName(p, token)
  }

  /** The process is migrating the original towards `plan`, and the original is still in place. */
  ghost predicate InHand(p: Params, original: Bytes, files: Directory,
                         expected: Option<string>, raw: Bytes, plan: Plan)
  {
    && raw == original && expected == Some(p.digest(original))
    && Candidate(p.env, original) == Ok(plan) && plan.added != []
    && Untouched(p, original, files)
  }

  ghost predicate Saved(p: Params, original: Bytes, files: Directory)
  {
    BackupName(p, original) in files && files[BackupName(p, original)] == original
  }

  /** What is known of a process from where it is. */
  ghost predicate PlaceOk(p: Params, original: Bytes, files: Directory, q: Process)
  {
    match q.pc
    case Start => Fresh(q)
    case LockWriting => q.apply && !q.locked && q.temporary == None && Quiet(q)
    case Reading => q.locked == q.apply && q.temporary == None && Quiet(q)
    case BackupCreate => Working(p, original, files, q)
    case BackupWriting => Working(p, original, files, q)
    case BackupCompare => Working(p, original, files, q)
    case TempCreate => Working(p, original, files, q) && Saved(p, original, files)
    case TempWriting =>
      Working(p, original, files, q) && Saved(p, original, files)
      && q.temporary.Some? && q.temporary.value in files
    case Recheck => Working(p, original, files, q) && Saved(p, original, files) && Staged(files, q)
    case Replace => Working(p, original, files, q) && Saved(p, original, files) && Staged(files, q)
    case SyncDir => q.replaced && q.locked && q.temporary == None
    case _ => true
  }

  predicate Quiet(q: Process)
  {
    !q.replaced && q.outcome == Running
  }

  ghost predicate Working(p: Params, original: Bytes, files: Directory, q: Process)
  {
    q.locked && q.apply && Quiet(q) && InHand(p, original, files, q.expected, q.raw, q.plan)
  }

  ghost predicate Staged(files: Directory, q: Process)
  {
    q.temporary.Some? && q.temporary.value in files && files[q.temporary.value] == q.plan.bytes
  }

  ghost predicate ProcessOk(p: Params, original: Bytes, files: Directory, q: Process)
  {
    && PlaceOk(p, original, files, q)
    && (q.temporary.Some? ==> q.locked && IsTempName(p, q.temporary.value))
    && (Holds(q) ==> LockName(p) in files)
    && (q.replaced ==>
          Migrated(p, original, files) && q.expected == Some(p.digest(original)) && q.temporary == None)
    && (q.outcome.Applied? ==> q.replaced)
    && (q.outcome.CleanupRaised? ==> !Holds(q))
  }

  ghost predicate Invariant(p: Params, original: Bytes, s: System)
  {
    && ConfigSafe(p, original, s.files)
    && (forall i :: 0 <= i < |s.processes| ==> ProcessOk(p, original, s.files, s.processes[i]))
    && (forall i, j :: 0 <= i < j < |s.processes| ==> !(Holds(s.processes[i]) && Holds(s.processes[j])))
    && (forall i, j :: 0 <= i < j < |s.processes| ==> !(s.processes[i].replaced && s.processes[j].replaced))
  }

  /** A process that does not hold the lock changes no file, except that it may create the lock. */
  lemma OutsiderChangesNothing(p: Params, original: Bytes, files: Directory, q: Process, e: Event)
    requires ProcessOk(p, original, files, q) && !Holds(q)
    ensures var (files', q') := StepProcess(p, files, q, e);
            && (files' == files || (LockName(p) !in files && files' == files[LockName(p) := []]))
            && (Holds(q') ==> LockName(p) !in files)
            && (q'.replaced == q.replaced)
  {
  }

  /** A step of the lock holder keeps the config safe and keeps what is known of the holder;
      it can replace the config only while the original is still there. */
  ghost predicate HolderStepOk(p: Params, original: Bytes, files: Directory, q: Process,
                               next: (Directory, Process))
  {
    && ConfigSafe(p, original, next.0)
    && ProcessOk(p, original, next.0, next.1)
    && (Migrated(p, original, files) ==> Migrated(p, original, next.0))
    && (next.1.replaced && !q.replaced ==> Untouched(p, original, files))
    && (q.replaced ==> next.1.replaced)
  }

  predicate Apart(p: Params, original: Bytes, name: string)
  {
    name != p.name && name != LockName(p) && name != BackupName(p, original)
  }

  lemma HolderNames(p: Params, original: Bytes, files: Directory, q: Process, token: string)
    requires Sound(p.env) && ProcessOk(p, original, files, q)
    ensures p.name != LockName(p) && p.name != BackupName(p, original) && LockName(p) != BackupName(p, original)
    ensures Apart(p, original, TempName(p, token))
    ensures q.temporary.Some? ==> Apart(p, original, q.temporary.value)
    ensures Untouched(p, original, files) ==> !Migrated(p, original, files)
  {
    NamesDiffer(p, original, token);
    if q.temporary.Some? {
      var other :| q.temporary.value == TempName(p, other);
      NamesDiffer(p, original, other);
    }
    if Candidate(p.env, original).Ok? {
      CandidateIdempotent(p.env, original);
    }
  }

  /** The config and the backup are what they were. */
  ghost predicate SameConfig(p: Params, original: Bytes, files: Directory, files': Directory)
  {
    && (p.name in files <==> p.name in files')
    && (p.name in files ==> files[p.name] == files'[p.name])
    && (BackupName(p, original) in files <==> BackupName(p, original) in files')
    && (BackupName(p, original) in files ==> files[BackupName(p, original)] == files'[BackupName(p, original)])
  }

  lemma SameConfigKeeps(p: Params, original: Bytes, files: Directory, files': Directory, q: Process)
    requires SameConfig(p, original, files, files')
    ensures ConfigSafe(p, original, files) ==> ConfigSafe(p, original, files')
    ensures Migrated(p, original, files) ==> Migrated(p, original, files')
    ensures Saved(p, original, files) ==> Saved(p, original, files')
    ensures InHand(p, original, files, q.expected, q.raw, q.plan)
            ==> InHand(p, original, files', q.expected, q.raw, q.plan)
  {
    hide Candidate, Delete, BackupName;
  }

  /** A step that leaves config and backup alone is harmless. */
  lemma ConfigKept(p: Params, original: Bytes, files: Directory, q: Process, next: (Directory, Process))
    requires ConfigSafe(p, original, files)
    requires SameConfig(p, original, files, next.0) && ProcessOk(p, original, next.0, next.1)
    requires next.1.replaced == q.replaced
    ensures HolderStepOk(p, original, files, q, next)
  {
    SameConfigKeeps(p, original, files, next.0, q);
    hide ProcessOk, ConfigSafe, SameConfig, Migrated, Untouched;
  }

  /** Whatever is read is the original, or the candidate, to which nothing is left to add. */
  lemma ReadsOriginalOrDone(p: Params, original: Bytes, files: Directory)
    requires Sound(p.env) && ConfigSafe(p, original, files)
    ensures p.name in files
    ensures files[p.name] == original
            || (Candidate(p.env, files[p.name]).Ok? && Candidate(p.env, files[p.name]).value.added == [])
  {
    if Candidate(p.env, original).Ok? {
      CandidateIdempotent(p.env, original);
    }
  }

  lemma ReadPlace(p: Params, original: Bytes, files: Directory, q: Process)
    requires ProcessOk(p, original, files, q) && q.pc.Reading? && q.apply
    requires p.name in files
    requires files[p.name] == original
             || (Candidate(p.env, files[p.name]).Ok? && Candidate(p.env, files[p.name]).value.added == [])
    ensures Inspect(p, files, q).0 == files
    ensures ProcessOk(p, original, files, Inspect(p, files, q).1)
    ensures Inspect(p, files, q).1.replaced == q.replaced
  {
    hide Candidate, Delete, LockName, BackupName, TempName, ConfigSafe, Migrated, IsTempName, Saved;
  }

  lemma HolderReads(p: Params, original: Bytes, files: Directory, q: Process)
    requires Sound(p.env)
    requires ConfigSafe(p, original, files) && ProcessOk(p, original, files, q) && Holds(q) && q.pc.Reading?
    ensures HolderStepOk(p, original, files, q, Inspect(p, files, q))
  {
    ReadsOriginalOrDone(p, original, files);
    assert q.apply;
    ReadPlace(p, original, files, q);
    ConfigKept(p, original, files, q, Inspect(p, files, q));
    hide ProcessOk, HolderStepOk, Inspect;
  }

  lemma HolderTakesLock(p: Params, original: Bytes, files: Directory, q: Process)
    requires Sound(p.env)
    requires ConfigSafe(p, original, files) && ProcessOk(p, original, files, q) && Holds(q)
    requires q.pc.LockWriting?
    ensures HolderStepOk(p, original, files, q, Inspect(p, files, q))
  {
    HolderNames(p, original, files, q, "");
    SameConfigKeeps(p, original, files, Inspect(p, files, q).0, q);
    hide Candidate, Delete, LockName, BackupName, TempName, ConfigSafe, Migrated, IsTempName, Untouched, InHand, Saved;
  }

  /** A backup file being created or filled leaves the config alone. */
  lemma BackupKeeps(p: Params, original: Bytes, files: Directory, content: Bytes, q: Process)
    requires p.name != BackupName(p, original)
    requires InHand(p, original, files, q.expected, q.raw, q.plan)
    ensures var files' := files[BackupName(p, q.raw) := content];
            && ConfigSafe(p, original, files')
            && InHand(p, original, files', q.expected, q.raw, q.plan)
            && (content == original ==> Saved(p, original, files'))
  {
    hide Candidate, Delete, BackupName;
  }

  lemma HolderFillsBackup(p: Params, original: Bytes, files: Directory, q: Process)
    requires Sound(p.env)
    requires ConfigSafe(p, original, files) && ProcessOk(p, original, files, q) && Holds(q)
    requires q.pc.BackupWriting?
    ensures HolderStepOk(p, original, files, q, BackUp(p, files, q))
  {
    HolderNames(p, original, files, q, "");
    BackupKeeps(p, original, files, q.raw, q);
    assert q.raw == original;
    hide Candidate, Delete, LockName, BackupName, TempName, ConfigSafe, Migrated, IsTempName, Untouched, InHand, Saved;
  }

  lemma BackUpPlace(p: Params, original: Bytes, files: Directory, q: Process)
    requires ProcessOk(p, original, files, q) && (q.pc.BackupCreate? || q.pc.BackupCompare?)
    requires LockName(p) != BackupName(p, original)
    requires InHand(p, original, BackUp(p, files, q).0, q.expected, q.raw, q.plan) && q.raw == original
    ensures ProcessOk(p, original, BackUp(p, files, q).0, BackUp(p, files, q).1)
    ensures BackUp(p, files, q).1.replaced == q.replaced
  {
    hide Candidate, Delete, LockName, BackupName, TempName, ConfigSafe, Migrated, Untouched, IsTempName, InHand;
  }

  lemma HolderFindsBackup(p: Params, original: Bytes, files: Directory, q: Process)
    requires Sound(p.env)
    requires ConfigSafe(p, original, files) && ProcessOk(p, original, files, q) && Holds(q)
    requires q.pc.BackupCreate? || q.pc.BackupCompare?
    ensures HolderStepOk(p, original, files, q, BackUp(p, files, q))
  {
    HolderNames(p, original, files, q, "");
    assert q.raw == original;
    BackupKeeps(p, original, files, [], q);
    assert InHand(p, original, BackUp(p, files, q).0, q.expected, q.raw, q.plan);
    BackUpPlace(p, original, files, q);
    hide ProcessOk, Candidate, Delete, LockName, BackupName, TempName, IsTempName, InHand, Saved, Untouched, Migrated;
  }

  lemma StagePlace(p: Params, original: Bytes, files: Directory, q: Process, token: string)
    requires ProcessOk(p, original, files, q) && (q.pc.TempCreate? || q.pc.TempWriting?)
    requires LockName(p) != TempName(p, token)
    requires var next := Stage(p, files, q, token);
             && (Saved(p, original, files) ==> Saved(p, original, next.0))
             && (InHand(p, original, files, q.expected, q.raw, q.plan)
                 ==> InHand(p, original, next.0, q.expected, q.raw, q.plan))
    ensures ProcessOk(p, original, Stage(p, files, q, token).0, Stage(p, files, q, token).1)
  {
    hide Candidate, Delete, LockName, BackupName, TempName, ConfigSafe, Migrated, Untouched, InHand, Saved;
  }

  lemma StageKeepsConfig(p: Params, original: Bytes, files: Directory, q: Process, token: string)
    requires Sound(p.env) && ProcessOk(p, original, files, q) && (q.pc.TempCreate? || q.pc.TempWriting?)
    ensures SameConfig(p, original, files, Stage(p, files, q, token).0)
  {
    HolderNames(p, original, files, q, token);
    hide Candidate, Delete, LockName, BackupName, TempName, ConfigSafe, Migrated, IsTempName, Untouched, InHand,
      Saved, PlaceOk;
  }

  lemma HolderStages(p: Params, original: Bytes, files: Directory, q: Process, token: string)
    requires Sound(p.env)
    requires ConfigSafe(p, original, files) && ProcessOk(p, original, files, q) && Holds(q)
    requires q.pc.TempCreate? || q.pc.TempWriting?
    ensures HolderStepOk(p, original, files, q, Stage(p, files, q, token))
  {
    StageKeepsConfig(p, original, files, q, token);
    SameConfigKeeps(p, original, files, Stage(p, files, q, token).0, q);
    NamesDiffer(p, original, token);
    StagePlace(p, original, files, q, token);
    ConfigKept(p, original, files, q, Stage(p, files, q, token));
    hide ProcessOk, HolderStepOk, Candidate, Delete, LockName, BackupName, TempName, ConfigSafe, Migrated, IsTempName,
      Untouched, InHand, Saved;
  }

  lemma HolderRechecks(p: Params, original: Bytes, files: Directory, q: Process, token: string)
    requires Sound(p.env)
    requires ConfigSafe(p, original, files) && ProcessOk(p, original, files, q) && Holds(q)
    requires q.pc.Recheck?
    ensures HolderStepOk(p, original, files, q, Stage(p, files, q, token))
  {
    HolderNames(p, original, files, q, token);
    hide Candidate, Delete, LockName, BackupName, TempName, ConfigSafe, Migrated, IsTempName, Untouched, InHand, Saved;
  }

  /** The rename makes the staged candidate the config, with the backup already in place. */
  lemma ReplaceMigrates(p: Params, original: Bytes, files: Directory, q: Process, token: string)
    requires q.pc.Replace? && Staged(files, q) && Saved(p, original, files)
    requires InHand(p, original, files, q.expected, q.raw, q.plan)
    requires Apart(p, original, q.temporary.value) && p.name != BackupName(p, original)
    ensures Migrated(p, original, Stage(p, files, q, token).0)
    ensures LockName(p) in files ==> LockName(p) in Stage(p, files, q, token).0
  {
    hide Candidate, Delete, LockName, BackupName, TempName;
  }

  lemma ReplacePlace(p: Params, original: Bytes, files: Directory, q: Process, token: string)
    requires ProcessOk(p, original, files, q) && Holds(q) && q.pc.Replace?
    requires Migrated(p, original, Stage(p, files, q, token).0)
    requires LockName(p) in Stage(p, files, q, token).0
    ensures ProcessOk(p, original, Stage(p, files, q, token).0, Stage(p, files, q, token).1)
  {
    hide Candidate, Delete, LockName, BackupName, TempName, Migrated, IsTempName, Untouched, Saved;
  }

  lemma HolderReplaces(p: Params, original: Bytes, files: Directory, q: Process, token: string)
    requires Sound(p.env)
    requires ConfigSafe(p, original, files) && ProcessOk(p, original, files, q) && Holds(q)
    requires q.pc.Replace?
    ensures HolderStepOk(p, original, files, q, Stage(p, files, q, token))
  {
    HolderNames(p, original, files, q, token);
    ReplaceMigrates(p, original, files, q, token);
    ReplacePlace(p, original, files, q, token);
    assert Untouched(p, original, files);
    hide Stage, ProcessOk, Candidate, Delete, LockName, BackupName, TempName, Migrated, IsTempName, Untouched, InHand,
      Saved, Staged;
  }

  lemma CleanUpKeepsConfig(p: Params, original: Bytes, files: Directory, q: Process)
    requires Sound(p.env) && ProcessOk(p, original, files, q)
    ensures SameConfig(p, original, files, CleanUp(p, files, q).0)
  {
    HolderNames(p, original, files, q, "");
    hide Candidate, Delete, LockName, BackupName, TempName, ConfigSafe, Migrated, IsTempName, Untouched, InHand,
      Saved, PlaceOk;
  }

  lemma CleanUpPlace(p: Params, original: Bytes, files: Directory, q: Process)
    requires ProcessOk(p, original, files, q) && Holds(q)
    requires q.pc.SyncDir? || q.pc.UnlinkTemp? || q.pc.UnlinkLock?
    requires q.temporary.Some? ==> q.temporary.value != LockName(p)
    requires Migrated(p, original, files) ==> Migrated(p, original, CleanUp(p, files, q).0)
    ensures ProcessOk(p, original, CleanUp(p, files, q).0, CleanUp(p, files, q).1)
  {
    hide Candidate, Delete, LockName, BackupName, TempName, ConfigSafe, Migrated, IsTempName, Untouched, InHand, Saved;
  }

  lemma HolderCleansUp(p: Params, original: Bytes, files: Directory, q: Process)
    requires Sound(p.env)
    requires ConfigSafe(p, original, files) && ProcessOk(p, original, files, q) && Holds(q)
    requires q.pc.SyncDir? || q.pc.UnlinkTemp? || q.pc.UnlinkLock?
    ensures HolderStepOk(p, original, files, q, CleanUp(p, files, q))
  {
    CleanUpKeepsConfig(p, original, files, q);
    SameConfigKeeps(p, original, files, CleanUp(p, files, q).0, q);
    HolderNames(p, original, files, q, "");
    CleanUpPlace(p, original, files, q);
    ConfigKept(p, original, files, q, CleanUp(p, files, q));
  }

  lemma StumblePlace(p: Params, original: Bytes, files: Directory, q: Process, token: string)
    requires ProcessOk(p, original, files, q) && Holds(q)
    requires !(q.pc.UnlinkTemp? && q.temporary == None)
    ensures Stumble(p, files, q, token).0 == files
    ensures ProcessOk(p, original, files, Stumble(p, files, q, token).1)
    ensures Stumble(p, files, q, token).1.replaced == q.replaced
  {
    hide Candidate, Delete, LockName, BackupName, ConfigSafe, Migrated, Untouched, InHand, Saved, Advance;
  }

  lemma HolderStumbles(p: Params, original: Bytes, files: Directory, q: Process, token: string)
    requires Sound(p.env)
    requires ConfigSafe(p, original, files) && ProcessOk(p, original, files, q) && Holds(q)
    ensures HolderStepOk(p, original, files, q, Stumble(p, files, q, token))
  {
    if q.pc.UnlinkTemp? && q.temporary == None {
      HolderCleansUp(p, original, files, q);
      hide ProcessOk, HolderStepOk, CleanUp;
    } else {
      StumblePlace(p, original, files, q, token);
      ConfigKept(p, original, files, q, Stumble(p, files, q, token));
      hide ProcessOk, HolderStepOk, Stumble;
    }
  }

  lemma WritePlace(p: Params, original: Bytes, files: Directory, q: Process, length: nat)
    requires ProcessOk(p, original, files, q) && Holds(q)
    requires q.pc.LockWriting? || q.pc.TempWriting?
    requires q.temporary.Some? ==> Apart(p, original, q.temporary.value)
    requires p.name != LockName(p) && LockName(p) != BackupName(p, original)
    ensures SameConfig(p, original, files, WriteSome(p, files, q, length).0)
    ensures WriteSome(p, files, q, length).1 == q
    ensures q.pc.TempWriting? ==> q.temporary.value in WriteSome(p, files, q, length).0
    ensures LockName(p) in WriteSome(p, files, q, length).0
  {
    hide Candidate, Delete, LockName, BackupName, TempName, ConfigSafe, Migrated, IsTempName, Untouched, InHand,
      Saved, Written;
  }

  lemma HolderWrites(p: Params, original: Bytes, files: Directory, q: Process, length: nat)
    requires Sound(p.env)
    requires ConfigSafe(p, original, files) && ProcessOk(p, original, files, q) && Holds(q)
    ensures HolderStepOk(p, original, files, q, WriteSome(p, files, q, length))
  {
    HolderNames(p, original, files, q, "");
    if q.pc.BackupWriting? {
      BackupKeeps(p, original, files, Written(q.raw, length), q);
      hide Candidate, Delete, LockName, BackupName, TempName, ConfigSafe, Migrated, IsTempName, Untouched, InHand,
        Saved, Written;
    } else if q.pc.LockWriting? || q.pc.TempWriting? {
      WritePlace(p, original, files, q, length);
      SameConfigKeeps(p, original, files, WriteSome(p, files, q, length).0, q);
      hide Candidate, Delete, LockName, BackupName, TempName, ConfigSafe, Migrated, IsTempName, Untouched, InHand,
        Saved, Written, WriteSome, SameConfig;
    } else {
      hide Candidate, Delete, LockName, BackupName, TempName, ConfigSafe, Migrated, IsTempName, Untouched, InHand,
        Saved, Written, ProcessOk;
    }
  }

  lemma HolderStep(p: Params, original: Bytes, files: Directory, q: Process, e: Event)
    requires Sound(p.env)
    requires ConfigSafe(p, original, files) && ProcessOk(p, original, files, q) && Holds(q)
    ensures HolderStepOk(p, original, files, q, StepProcess(p, files, q, e))
  {
    hide ConfigSafe, Sound, Candidate, LockName, BackupName, TempName;
    match e
    case Go(token) =>
      assert !q.pc.Start?;
      hide ProcessOk, HolderStepOk, Inspect, BackUp, Stage, CleanUp;
      match q.pc {
        case LockWriting => HolderTakesLock(p, original, files, q);
        case Reading => HolderReads(p, original, files, q);
        case BackupWriting => HolderFillsBackup(p, original, files, q);
        case BackupCreate => HolderFindsBackup(p, original, files, q);
        case BackupCompare => HolderFindsBackup(p, original, files, q);
        case TempCreate => HolderStages(p, original, files, q, token);
        case TempWriting => HolderStages(p, original, files, q, token);
        case Recheck => HolderRechecks(p, original, files, q, token);
        case Replace => HolderReplaces(p, original, files, q, token);
        case _ => HolderCleansUp(p, original, files, q);
      }
    case Fail(token) => HolderStumbles(p, original, files, q, token);
    case Partial(length) => HolderWrites(p, original, files, q, length);
    case Crash =>
  }

  /** A lock file appearing disturbs nothing that is known of anybody. */
  lemma LockAppears(p: Params, original: Bytes, files: Directory, q: Process)
    requires ConfigSafe(p, original, files) && ProcessOk(p, original, files, q) && !Holds(q)
    ensures var files' := files[LockName(p) := []];
            ConfigSafe(p, original, files') && ProcessOk(p, original, files', q)
  {
    NamesDiffer(p, original, "");
    hide Candidate, Delete, LockName, BackupName, TempName;
  }

  lemma OutsiderPlace(p: Params, original: Bytes, files: Directory, q: Process, token: string)
    requires ProcessOk(p, original, files, q) && !Holds(q)
    requires !(q.pc == Start && q.apply && LockName(p) !in files)
    ensures Advance(p, files, q, token).0 == files
    ensures ProcessOk(p, original, files, Advance(p, files, q, token).1)
  {
    if Inspecting(q.pc) {
      hide Candidate, Delete, LockName, BackupName, TempName, ConfigSafe, Migrated, IsTempName, Untouched, InHand,
        Saved, BackUp, Stage, CleanUp, Read;
    } else {
      hide Candidate, Delete, LockName, BackupName, TempName, ConfigSafe, Migrated, IsTempName, Untouched, InHand,
        Saved, BackUp, Stage, Inspect;
    }
  }

  lemma OutsiderAdvances(p: Params, original: Bytes, files: Directory, q: Process, token: string)
    requires Sound(p.env)
    requires ConfigSafe(p, original, files) && ProcessOk(p, original, files, q) && !Holds(q)
    ensures var (files', q') := Advance(p, files, q, token);
            ConfigSafe(p, original, files') && ProcessOk(p, original, files', q')
  {
    if q.pc == Start && q.apply && LockName(p) !in files {
      LockAppears(p, original, files, q);
      hide Candidate, Delete, LockName, BackupName, TempName, ConfigSafe, Migrated, IsTempName, Untouched, InHand,
        Saved, BackUp, Stage, CleanUp, Read, Decide;
    } else {
      OutsiderPlace(p, original, files, q, token);
      hide ProcessOk, ConfigSafe, Advance;
    }
  }

  lemma OutsiderStumbles(p: Params, original: Bytes, files: Directory, q: Process, token: string)
    requires Sound(p.env)
    requires ConfigSafe(p, original, files) && ProcessOk(p, original, files, q) && !Holds(q)
    ensures var (files', q') := Stumble(p, files, q, token);
            ConfigSafe(p, original, files') && ProcessOk(p, original, files', q')
  {
    hide Candidate, Delete, LockName, BackupName, TempName, ConfigSafe, Migrated, IsTempName, Inspect, BackUp, Stage;
  }

  lemma OutsiderStep(p: Params, original: Bytes, files: Directory, q: Process, e: Event)
    requires Sound(p.env)
    requires ConfigSafe(p, original, files) && ProcessOk(p, original, files, q) && !Holds(q)
    ensures var (files', q') := StepProcess(p, files, q, e);
            ConfigSafe(p, original, files') && ProcessOk(p, original, files', q')
  {
    hide Advance, Stumble, WriteSome, ProcessOk, ConfigSafe, Holds, Sound;
    match e
    case Go(token) => OutsiderAdvances(p, original, files, q, token);
    case Fail(token) => OutsiderStumbles(p, original, files, q, token);
    case Partial(length) => OutsiderWritesNothing(p, original, files, q, length);
    case Crash => Dies(p, original, files, q);
  }

  lemma Dies(p: Params, original: Bytes, files: Directory, q: Process)
    requires ProcessOk(p, original, files, q)
    ensures ProcessOk(p, original, files, q.(pc := Crashed))
  {
    hide Candidate, Delete, LockName, BackupName, TempName, ConfigSafe, Migrated, IsTempName, InHand, Saved;
  }

  lemma OutsiderWritesNothing(p: Params, original: Bytes, files: Directory, q: Process, length: nat)
    requires ProcessOk(p, original, files, q) && !Holds(q)
    ensures WriteSome(p, files, q, length) == (files, q)
  {
    hide Candidate, Delete, LockName, BackupName, TempName, ConfigSafe, Migrated, IsTempName, InHand, Saved, Written;
  }

  /** What is known of a process that does not hold the lock rests on the config alone. */
  lemma Bystander(p: Params, original: Bytes, files: Directory, files': Directory, r: Process)
    requires ProcessOk(p, original, files, r) && !Holds(r)
    requires Migrated(p, original, files) ==> Migrated(p, original, files')
    ensures ProcessOk(p, original, files', r)
  {
  }

  lemma LockFileIrrelevant(p: Params, original: Bytes, files: Directory)
    ensures Migrated(p, original, files) ==> Migrated(p, original, files[LockName(p) := []])
    ensures Migrated(p, original, files) ==> Migrated(p, original, Delete(files, LockName(p)))
    ensures ConfigSafe(p, original, files) ==> ConfigSafe(p, original, Delete(files, LockName(p)))
  {
    NamesDiffer(p, original, "");
    hide Candidate, Delete, LockName, BackupName;
  }

  lemma HolderMoves(p: Params, original: Bytes, s: System, i: nat, e: Event)
    requires Sound(p.env) && Invariant(p, original, s)
    requires i < |s.processes| && Holds(s.processes[i])
    ensures Invariant(p, original, Next(p, s, Act(i, e)))
  {
    var q := s.processes[i];
    HolderStep(p, original, s.files, q, e);
    HolderNames(p, original, s.files, q, "");
    var next := StepProcess(p, s.files, q, e);
    var s' := Next(p, s, Act(i, e));
    hide Candidate, Delete, LockName, BackupName, TempName, StepProcess, ConfigSafe;
    forall j | 0 <= j < |s.processes| && j != i
      ensures !Holds(s.processes[j]) && ProcessOk(p, original, next.0, s.processes[j])
      ensures !(next.1.replaced && s.processes[j].replaced)
    {
      assert !Holds(s.processes[j]) by {
        if j < i { } else { }
      }
      Bystander(p, original, s.files, next.0, s.processes[j]);
    }
  }

  lemma OutsiderMoves(p: Params, original: Bytes, s: System, i: nat, e: Event)
    requires Sound(p.env) && Invariant(p, original, s)
    requires i < |s.processes| && !Holds(s.processes[i])
    ensures Invariant(p, original, Next(p, s, Act(i, e)))
  {
    hide Candidate, Delete, LockName, BackupName, TempName, StepProcess, ConfigSafe, Migrated, PlaceOk;
    var q := s.processes[i];
    OutsiderStep(p, original, s.files, q, e);
    OutsiderChangesNothing(p, original, s.files, q, e);
    LockFileIrrelevant(p, original, s.files);
    var next := StepProcess(p, s.files, q, e);
    forall j | 0 <= j < |s.processes| && j != i
      ensures ProcessOk(p, original, next.0, s.processes[j])
      ensures !(Holds(next.1) && Holds(s.processes[j]))
    {
      var r := s.processes[j];
      if next.0 != s.files {
        assert !Holds(r);
        Bystander(p, original, s.files, next.0, r);
      }
    }
  }

  lemma LockCleared(p: Params, original: Bytes, s: System)
    requires Sound(p.env) && Invariant(p, original, s)
    ensures Invariant(p, original, Next(p, s, ClearStaleLock))
  {
    LockFileIrrelevant(p, original, s.files);
    if forall i :: 0 <= i < |s.processes| ==> !Holds(s.processes[i]) {
      forall j | 0 <= j < |s.processes|
        ensures ProcessOk(p, original, Delete(s.files, LockName(p)), s.processes[j])
      {
        Bystander(p, original, s.files, Delete(s.files, LockName(p)), s.processes[j]);
      }
    }
  }

  lemma StepKeepsInvariant(p: Params, original: Bytes, s: System, a: Action)
    requires Sound(p.env) && Invariant(p, original, s)
    ensures Invariant(p, original, Next(p, s, a))
  {
    match a
    case ClearStaleLock => LockCleared(p, original, s);
    case Act(i, e) =>
      if i < |s.processes| {
        if Holds(s.processes[i]) {
          HolderMoves(p, original, s, i, e);
        } else {
          OutsiderMoves(p, original, s, i, e);
        }
      }
  }

  lemma {:induction false} InvariantKept(p: Params, original: Bytes, s: System, actions: seq<Action>)
    requires Sound(p.env) && Invariant(p, original, s)
    ensures Invariant(p, original, Run(p, s, actions))
    decreases |actions|
  {
    if actions != [] {
      StepKeepsInvariant(p, original, s, actions[0]);
      InvariantKept(p, original, Next(p, s, actions[0]), actions[1..]);
    }
  }

  // --- Safety over whole runs ------------------------------------------------

  /** Any directory that holds the config, whatever else lies in it (a stale lock, a torn backup,
      left-over temporary files), and any number of calls that have not begun. */
  ghost predicate Initial(p: Params, original: Bytes, s: System)
  {
    && Untouched(p, original, s.files)
    && forall i :: 0 <= i < |s.processes| ==> Fresh(s.processes[i])
  }

  /** In every reachable state the config is the original or the complete candidate, and in the
      latter case the backup named by the original's digest holds the original. */
  lemma ConfigAlwaysSafe(p: Params, original: Bytes, s: System, actions: seq<Action>)
    requires Sound(p.env) && Initial(p, original, s)
    ensures ConfigSafe(p, original, Run(p, s, actions).files)
  {
    InvariantKept(p, original, s, actions);
  }

  /** At most one live process is between taking and releasing the lock, and the lock file is there
      while it is. */
  lemma MutualExclusion(p: Params, original: Bytes, s: System, actions: seq<Action>, i: nat, j: nat)
    requires Sound(p.env) && Initial(p, original, s)
    requires i < |s.processes| && j < |s.processes|
    ensures var t := Run(p, s, actions);
            && |t.processes| == |s.processes|
            && (Holds(t.processes[i]) ==> LockName(p) in t.files)
            && (Holds(t.processes[i]) && Holds(t.processes[j]) ==> i == j)
  {
    InvariantKept(p, original, s, actions);
    SameProcesses(p, s, actions);
  }

  lemma {:induction false} SameProcesses(p: Params, s: System, actions: seq<Action>)
    ensures |Run(p, s, actions).processes| == |s.processes|
    decreases |actions|
  {
    if actions != [] {
      SameProcesses(p, Next(p, s, actions[0]), actions[1..]);
    }
  }

  /** Over a whole run the config is replaced at most once, so at most one call reports
      `applied: True`, and that call was given the original's digest. */
  lemma AppliedAtMostOnce(p: Params, original: Bytes, s: System, actions: seq<Action>, i: nat, j: nat)
    requires Sound(p.env) && Initial(p, original, s)
    requires i < |s.processes| && j < |s.processes|
    ensures var t := Run(p, s, actions);
            && |t.processes| == |s.processes|
            && (t.processes[i].outcome.Applied? ==>
                  && t.processes[i].expected == Some(p.digest(original))
                  && Migrated(p, original, t.files)
                  && (t.processes[j].outcome.Applied? ==> i == j))
  {
    InvariantKept(p, original, s, actions);
    SameProcesses(p, s, actions);
  }

  /** Only the process that holds the lock ever deletes the lock file. */
  lemma OnlyHolderUnlocks(p: Params, original: Bytes, s: System, actions: seq<Action>, i: nat, e: Event)
    requires Sound(p.env) && Initial(p, original, s)
    ensures var t := Run(p, s, actions);
            LockName(p) in t.files && LockName(p) !in Next(p, t, Act(i, e)).files ==>
              i < |t.processes| && Holds(t.processes[i])
  {
    InvariantKept(p, original, s, actions);
    var t := Run(p, s, actions);
    if i < |t.processes| && !Holds(t.processes[i]) {
      OutsiderChangesNothing(p, original, t.files, t.processes[i], e);
    }
  }
}
