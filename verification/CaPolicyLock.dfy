/** How the lock of the migration is given back, and the paths on which it is not. About the `finally` block of
    `migrate_filesystem_ca_policy` in ca_policy_migration.py. */
module CaPolicyLock {
  import opened PyText
  import opened CaPolicyCandidate
  import opened CaPolicyMigration

  /** The steps by which a holder stops holding the lock and leaves the lock file behind: it dies, the write
      of the lock file fails, or unlinking the temporary file or the lock file does, the former also because
      there is no such file. */
  predicate LeavesLock(files: Directory, q: Process, e: Event)
  {
    match e
    case Go(_) => q.pc.UnlinkTemp? && q.temporary.Some? && q.temporary.value !in files
    case Fail(_) => q.pc.LockWriting? || q.pc.UnlinkLock? || (q.pc.UnlinkTemp? && q.temporary.Some?)
    case Partial(_) => false
    case Crash => true
  }

  /** A step of the holder removes the lock file exactly when it is the successful `unlink` of the lock, and ends the
      hold in no other way than this and those of `LeavesLock`. */
  lemma LockReleasedExactly(p: Params, original: Bytes, s: System, actions: seq<Action>, i: nat, e: Event)
    requires Sound(p.env) && Initial(p, original, s)
    requires i < |Run(p, s, actions).processes|
    requires Holds(Run(p, s, actions).processes[i])
    ensures var t := Run(p, s, actions);
            var q, t' := t.processes[i], Next(p, t, Act(i, e));
            && (LockName(p) !in t'.files <==> q.pc.UnlinkLock? && e.Go?)
            && (!Holds(t'.processes[i]) <==> (q.pc.UnlinkLock? && e.Go?) || LeavesLock(t.files, q, e))
  {
    InvariantKept(p, original, s, actions);
    var t := Run(p, s, actions);
    HolderNames(p, original, t.files, t.processes[i], "");
    ReleaseStep(p, original, t.files, t.processes[i], e);
    hide StepProcess, Holds, LeavesLock, ProcessOk, ConfigSafe, LockName, Run;
  }

  lemma AdvanceReleases(p: Params, original: Bytes, files: Directory, q: Process, token: string)
    requires ProcessOk(p, original, files, q) && Holds(q)
    requires q.temporary.Some? ==> q.temporary.value != LockName(p)
    ensures var (files', q') := Advance(p, files, q, token);
            && (LockName(p) !in files' <==> q.pc.UnlinkLock?)
            && (!Holds(q') <==> q.pc.UnlinkLock? || LeavesLock(files, q, Go(token)))
  {
    hide Candidate, Delete, LockName, BackupName, TempName, Migrated, IsTempName, Untouched, Saved, InHand, Written;
    if Inspecting(q.pc) {
      hide BackUp, Stage, CleanUp;
    } else if BackingUp(q.pc) {
      hide Inspect, Stage, CleanUp;
    } else if Staging(q.pc) {
      hide Inspect, BackUp, CleanUp;
    } else {
      hide Inspect, BackUp, Stage;
    }
  }

  lemma StumbleReleases(p: Params, original: Bytes, files: Directory, q: Process, token: string)
    requires ProcessOk(p, original, files, q) && Holds(q)
    ensures var (files', q') := Stumble(p, files, q, token);
            LockName(p) in files' && (!Holds(q') <==> LeavesLock(files, q, Fail(token)))
  {
    hide Candidate, Delete, LockName, BackupName, TempName, Migrated, IsTempName, Untouched, Saved, InHand, Written;
    hide Inspect, BackUp, Stage;
  }

  lemma ReleaseStep(p: Params, original: Bytes, files: Directory, q: Process, e: Event)
    requires ProcessOk(p, original, files, q) && Holds(q)
    requires q.temporary.Some? ==> q.temporary.value != LockName(p)
    ensures var (files', q') := StepProcess(p, files, q, e);
            && (LockName(p) !in files' <==> q.pc.UnlinkLock? && e.Go?)
            && (!Holds(q') <==> (q.pc.UnlinkLock? && e.Go?) || LeavesLock(files, q, e))
  {
    match e
    case Go(token) =>
      AdvanceReleases(p, original, files, q, token);
      hide Advance, ProcessOk, Holds, LeavesLock;
    case Fail(token) =>
      StumbleReleases(p, original, files, q, token);
      hide Stumble, ProcessOk, Holds;
    case _ =>
      hide Advance, Stumble, LockName, BackupName, PlaceOk, Migrated, Written;
  }

  // --- The two paths on which `finally` keeps the lock -----------------------------

  function NewCall(apply: bool, expected: Option<string>): Process
  {
    Process(apply, expected, Start, false, None, [], Plan([], []), Running, false)
  }

  /** The config can be migrated with this hash. */
  predicate ConfigReady(p: Params, files: Directory, expected: Option<string>)
  {
    && Read(files, p.name).Ok?
    && var raw := files[p.name];
    && Candidate(p.env, raw).Ok? && Candidate(p.env, raw).value.added != []
    && expected == Some(p.digest(raw))
  }

  /** The events of a process that is alone. */
  function Acts(events: seq<Event>): seq<Action>
  {
    if events == [] then [] else [Act(0, events[0])] + Acts(events[1..])
  }

  function RunAlone(p: Params, files: Directory, q: Process, events: seq<Event>): System
  {
    Run(p, System(files, [q]), Acts(events))
  }

  lemma Alone(p: Params, files: Directory, q: Process, events: seq<Event>)
    requires events != []
    ensures var (files', q') := StepProcess(p, files, q, events[0]);
            RunAlone(p, files, q, events) == RunAlone(p, files', q', events[1..])
  {
    hide StepProcess;
    assert Acts(events)[1..] == Acts(events[1..]);
    var (files', q') := StepProcess(p, files, q, events[0]);
    assert [q][0 := q'] == [q'];
  }

  lemma NoMore(p: Params, files: Directory, q: Process, events: seq<Event>)
    requires events == []
    ensures RunAlone(p, files, q, events) == System(files, [q])
  {
  }

  /** When the write of the lock file fails, `locked` is not set, nothing is unlinked, and the call ends with the lock
      file in place: from a fresh call, for every directory without a lock. */
  lemma FailedLockWriteLeavesLock(p: Params, files: Directory, expected: Option<string>, token: string)
    requires LockName(p) !in files
    ensures var t := RunAlone(p, files, NewCall(true, expected), [Go(token), Fail(token), Go(token), Go(token)]);
            && t.files == files[LockName(p) := []] && |t.processes| == 1
            && t.processes[0].pc == Done && t.processes[0].outcome == Refused(ConfigIoError)
  {
    hide LockName, RunAlone;
    var events, q := [Go(token), Fail(token), Go(token), Go(token)], NewCall(true, expected);
    var left, failed := files[LockName(p) := []], Leave(q, Refused(ConfigIoError));
    Alone(p, files, q, events);
    Alone(p, left, q.(pc := LockWriting), events[1..]);
    Alone(p, left, failed, events[2..]);
    Alone(p, left, failed.(pc := UnlinkLock), events[3..]);
    NoMore(p, left, failed.(pc := Done), events[4..]);
  }

  /** A call that has taken the lock and decided to migrate. */
  function Decided(p: Params, files: Directory, expected: Option<string>): Process
    requires ConfigReady(p, files, expected)
  {
    NewCall(true, expected).(pc := BackupCreate, locked := true, raw := files[p.name],
                             plan := Candidate(p.env, files[p.name]).value)
  }

  lemma AloneToBackup(p: Params, files: Directory, expected: Option<string>, token: string, events: seq<Event>)
    requires LockName(p) !in files && ConfigReady(p, files, expected)
    requires |events| >= 3 && events[0] == events[1] == events[2] == Go(token)
    ensures RunAlone(p, files, NewCall(true, expected), events)
         == RunAlone(p, files[LockName(p) := LOCK_CONTENT], Decided(p, files, expected), events[3..])
  {
    NamesDiffer(p, [], token);
    hide LockName, RunAlone, Candidate;
    var q := NewCall(true, expected);
    var created, locked := files[LockName(p) := []], files[LockName(p) := LOCK_CONTENT];
    Alone(p, files, q, events);
    Alone(p, created, q.(pc := LockWriting), events[1..]);
    assert created[LockName(p) := LOCK_CONTENT] == locked;
    Alone(p, locked, q.(pc := Reading, locked := true), events[2..]);
    assert Read(locked, p.name) == Ok(files[p.name]);
    assert events[2..][1..] == events[3..];
  }

  lemma AloneThroughBackup(p: Params, files: Directory, q: Process, token: string, events: seq<Event>)
    requires q.pc.BackupCreate? && |q.raw| <= MAX_CONFIG_BYTES
    requires BackupName(p, q.raw) !in files || files[BackupName(p, q.raw)] == q.raw
    requires |events| >= 2 && events[0] == events[1] == Go(token)
    ensures RunAlone(p, files, q, events)
         == RunAlone(p, files[BackupName(p, q.raw) := q.raw], q.(pc := TempCreate), events[2..])
  {
    hide BackupName, RunAlone;
    var backup := BackupName(p, q.raw);
    Alone(p, files, q, events);
    assert events[1..][1..] == events[2..];
    if backup in files {
      Alone(p, files, q.(pc := BackupCompare), events[1..]);
      assert files[backup := q.raw] == files;
    } else {
      Alone(p, files[backup := []], q.(pc := BackupWriting), events[1..]);
      assert files[backup := []][backup := q.raw] == files[backup := q.raw];
    }
  }

  lemma AloneWithoutTemp(p: Params, files: Directory, q: Process, token: string, events: seq<Event>)
    requires q.pc.TempCreate? && TempName(p, token) !in files && events == [Fail(token), Go(token)]
    ensures var t := RunAlone(p, files, q, events);
            && t.files == files && |t.processes| == 1
            && t.processes[0].pc == Done && t.processes[0].outcome == CleanupRaised
  {
    hide TempName, RunAlone;
    Alone(p, files, q, events);
    var failed := Leave(q.(temporary := Some(TempName(p, token))), Refused(ConfigIoError));
    Alone(p, files, failed, events[1..]);
    NoMore(p, files, failed.(pc := Done, outcome := CleanupRaised), events[1..][1..]);
  }

  /** When the temporary file cannot be created, unlinking it raises before the lock is unlinked: from a fresh call,
      for every directory in which nothing else is in the way. */
  lemma FailedTempCreationLeavesLock(p: Params, files: Directory, expected: Option<string>, token: string)
    requires LockName(p) !in files && ConfigReady(p, files, expected) && TempName(p, token) !in files
    requires var backup := BackupName(p, files[p.name]); backup !in files || files[backup] == files[p.name]
    ensures var go, raw := Go(token), files[p.name];
            var t := RunAlone(p, files, NewCall(true, expected), [go, go, go, go, go, Fail(token), go]);
            && t.files == files[LockName(p) := LOCK_CONTENT][BackupName(p, raw) := raw] && |t.processes| == 1
            && t.processes[0].pc == Done && t.processes[0].outcome == CleanupRaised
  {
    NamesDiffer(p, files[p.name], token);
    var q, locked := Decided(p, files, expected), files[LockName(p) := LOCK_CONTENT];
    assert q.pc.BackupCreate? && q.raw == files[p.name] && |q.raw| <= MAX_CONFIG_BYTES;
    hide *;
    var go := Go(token);
    var events, writing, failing := [go, go, go, go, go, Fail(token), go], [go, go, Fail(token), go], [Fail(token), go];
    assert events[3..] == writing && writing[2..] == failing;
    AloneToBackup(p, files, expected, token, events);
    AloneThroughBackup(p, locked, q, token, writing);
    AloneWithoutTemp(p, locked[BackupName(p, q.raw) := q.raw], q.(pc := TempCreate), token, failing);
  }
}
