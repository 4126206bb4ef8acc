/** One call of the migration that nobody disturbs, as the imperative program it is, over a directory
    it changes in place; any of its system calls may fail. Models `migrate_filesystem_ca_policy` in
    ca_policy_migration.py, and ties it to the protocol of CaPolicyMigration. */
module CaPolicyDirectory {
  import opened PyText
  import opened CaPolicyCandidate
  import opened CaPolicyMigration
  import opened CaPolicyLock

  /** How the system calls of a call go. Each place is passed at most once: the system call made there succeeds, or
      it raises OSError, a write after this many bytes. The temporary name uses `token`. */
  datatype Conditions = Conditions(token: string, faults: Pc -> Option<nat>)

  predicate Faultless(w: Conditions)
  {
    forall pc :: w.faults(pc) == None
  }

  function Rank(pc: Pc): nat
  {
    match pc
    case Start => 12
    case LockWriting => 11
    case Reading => 10
    case BackupCreate => 9
    case BackupWriting => 8
    case BackupCompare => 8
    case TempCreate => 7
    case TempWriting => 6
    case Recheck => 5
    case Replace => 4
    case SyncDir => 3
    case UnlinkTemp => 2
    case UnlinkLock => 1
    case Done => 0
    case Crashed => 0
  }

  lemma InspectNext(p: Params, files: Directory, q: Process)
    requires Inspecting(q.pc)
    ensures var pc := Inspect(p, files, q).1.pc;
            match q.pc
            case Start => pc.Reading? || pc.LockWriting? || pc.UnlinkTemp?
            case LockWriting => pc.Reading?
            case _ => pc.UnlinkTemp? || pc.BackupCreate?
  {
    hide Candidate, LockName, Read;
  }

  lemma BackUpNext(p: Params, files: Directory, q: Process)
    requires BackingUp(q.pc)
    ensures var pc := BackUp(p, files, q).1.pc;
            match q.pc
            case BackupCreate => pc.BackupCompare? || pc.BackupWriting?
            case _ => pc.TempCreate? || pc.UnlinkTemp?
  {
    hide BackupName, Read;
  }

  lemma StageNext(p: Params, files: Directory, q: Process, token: string)
    requires Staging(q.pc)
    ensures var pc := Stage(p, files, q, token).1.pc;
            || pc.UnlinkTemp?
            || match q.pc
               case TempCreate => pc.TempWriting?
               case TempWriting => pc.Recheck?
               case Recheck => pc.Replace?
               case _ => pc.SyncDir?
  {
    hide TempName, Read, Delete;
  }

  lemma CleanUpNext(p: Params, files: Directory, q: Process)
    requires q.pc.SyncDir? || q.pc.UnlinkTemp? || q.pc.UnlinkLock?
    ensures var pc := CleanUp(p, files, q).1.pc;
            if q.pc.SyncDir? then pc.UnlinkTemp? else pc.Done? || (q.pc.UnlinkTemp? && pc.UnlinkLock?)
  {
    hide LockName, Delete;
  }

  lemma AdvanceDescends(p: Params, files: Directory, q: Process, token: string)
    requires Rank(q.pc) > 0
    ensures Rank(Advance(p, files, q, token).1.pc) < Rank(q.pc)
  {
    hide Inspect, BackUp, Stage, CleanUp;
    if Inspecting(q.pc) {
      InspectNext(p, files, q);
    } else if BackingUp(q.pc) {
      BackUpNext(p, files, q);
    } else if Staging(q.pc) {
      StageNext(p, files, q, token);
    } else {
      CleanUpNext(p, files, q);
    }
  }

  lemma StumbleNext(p: Params, files: Directory, q: Process, token: string)
    requires !q.pc.Done? && !q.pc.Crashed?
    ensures var pc := Stumble(p, files, q, token).1.pc;
            match q.pc
            case Start => pc.Done?
            case UnlinkTemp => pc.UnlinkLock? || pc.Done?
            case UnlinkLock => pc.Done?
            case _ => pc.UnlinkTemp?
  {
    hide Inspect, BackUp, Stage, TempName, LockName, Delete;
  }

  lemma StumbleDescends(p: Params, files: Directory, q: Process, token: string)
    requires Rank(q.pc) > 0
    ensures Rank(Stumble(p, files, q, token).1.pc) < Rank(q.pc)
  {
    hide Stumble;
    StumbleNext(p, files, q, token);
  }

  /** What a process does at the place where it is. */
  function Turn(p: Params, files: Directory, q: Process, w: Conditions): (Directory, Process)
  {
    match w.faults(q.pc)
    case None => Advance(p, files, q, w.token)
    case Some(length) => Stumble(p, WriteSome(p, files, q, length).0, q, w.token)
  }

  lemma TurnDescends(p: Params, files: Directory, q: Process, w: Conditions)
    requires Rank(q.pc) > 0
    ensures Rank(Turn(p, files, q, w).1.pc) < Rank(q.pc)
  {
    hide Advance, Stumble, WriteSome;
    match w.faults(q.pc)
    case None => AdvanceDescends(p, files, q, w.token);
    case Some(length) => StumbleDescends(p, WriteSome(p, files, q, length).0, q, w.token);
  }

  /** The turns of one process, one after the other, until the call returns. */
  function Solo(p: Params, files: Directory, q: Process, w: Conditions): (Directory, Process)
    decreases Rank(q.pc)
  {
    if Rank(q.pc) == 0 then (files, q)
    else
      var next := Turn(p, files, q, w);
      TurnDescends(p, files, q, w);
      Solo(p, next.0, next.1, w)
  }

  lemma Unfold(p: Params, files: Directory, q: Process, w: Conditions)
    requires Rank(q.pc) > 0
    ensures var next := Turn(p, files, q, w);
            Solo(p, files, q, w) == Solo(p, next.0, next.1, w)
  {
  }

  lemma SoloDone(p: Params, files: Directory, q: Process, w: Conditions)
    ensures q.pc.Done? ==> Solo(p, files, q, w) == (files, q)
  {
  }

  // --- Single turns ----------------------------------------------------------------

  lemma TempCreateTurn(p: Params, files: Directory, q: Process, w: Conditions)
    requires q.pc.TempCreate?
    ensures var temp := TempName(p, w.token);
            var named := q.(temporary := Some(temp));
            Turn(p, files, q, w) ==
            if w.faults(TempCreate).Some? || temp in files then (files, Leave(named, Refused(ConfigIoError)))
            else (files[temp := []], named.(pc := TempWriting))
  {
    hide TempName, Inspect, BackUp, CleanUp;
  }

  lemma TempWriteTurn(p: Params, files: Directory, q: Process, w: Conditions)
    requires q.pc.TempWriting? && q.temporary.Some?
    ensures var fault, temp := w.faults(TempWriting), q.temporary.value;
            Turn(p, files, q, w) ==
            if fault.Some? then (files[temp := Written(q.plan.bytes, fault.value)], Leave(q, Refused(ConfigIoError)))
            else (files[temp := q.plan.bytes], q.(pc := Recheck))
  {
    hide TempName, Inspect, BackUp, CleanUp, Written;
  }

  lemma UnlinkTempTurn(p: Params, files: Directory, q: Process, w: Conditions)
    requires q.pc.UnlinkTemp?
    ensures Turn(p, files, q, w) ==
            if q.temporary == None then (files, q.(pc := UnlinkLock))
            else if w.faults(UnlinkTemp).Some? || q.temporary.value !in files
            then (files, q.(pc := Done, outcome := CleanupRaised))
            else (Delete(files, q.temporary.value), q.(pc := UnlinkLock))
  {
    hide Inspect, BackUp, Stage, Delete, LockName;
  }

  lemma UnlinkLockTurn(p: Params, files: Directory, q: Process, w: Conditions)
    requires q.pc.UnlinkLock?
    ensures Turn(p, files, q, w) ==
            if !q.locked then (files, q.(pc := Done))
            else if w.faults(UnlinkLock).Some? || LockName(p) !in files
            then (files, q.(pc := Done, outcome := CleanupRaised))
            else (Delete(files, LockName(p)), q.(pc := Done))
  {
    hide Inspect, BackUp, Stage, Delete, LockName;
  }

  // --- Solo calls are runs of the protocol -----------------------------------------

  function TurnEvents(w: Conditions, pc: Pc): seq<Event>
  {
    match w.faults(pc)
    case None => [Go(w.token)]
    case Some(length) => [Partial(length), Fail(w.token)]
  }

  function SoloEvents(p: Params, files: Directory, q: Process, w: Conditions): seq<Event>
    decreases Rank(q.pc)
  {
    if Rank(q.pc) == 0 then []
    else
      var next := Turn(p, files, q, w);
      TurnDescends(p, files, q, w);
      TurnEvents(w, q.pc) + SoloEvents(p, next.0, next.1, w)
  }

  lemma TurnIsARun(p: Params, files: Directory, q: Process, w: Conditions, rest: seq<Event>)
    ensures var next := Turn(p, files, q, w);
            RunAlone(p, files, q, TurnEvents(w, q.pc) + rest) == RunAlone(p, next.0, next.1, rest)
  {
    hide RunAlone, Advance, Stumble, WriteSome;
    var events := TurnEvents(w, q.pc) + rest;
    Alone(p, files, q, events);
    match w.faults(q.pc)
    case None => assert events[1..] == rest;
    case Some(length) =>
      var written := WriteSome(p, files, q, length);
      WriteSomeKeeps(p, files, q, length);
      Alone(p, written.0, q, events[1..]);
      assert events[1..][1..] == rest;
  }

  lemma WriteSomeKeeps(p: Params, files: Directory, q: Process, length: nat)
    ensures WriteSome(p, files, q, length).1 == q
  {
  }

  /** An undisturbed call, whichever of its system calls fail, is a run of the protocol with one process, so all that
      holds of runs holds of it. */
  lemma {:induction false} SoloIsARun(p: Params, files: Directory, q: Process, w: Conditions)
    ensures var (left, r) := Solo(p, files, q, w);
            RunAlone(p, files, q, SoloEvents(p, files, q, w)) == System(left, [r])
    decreases Rank(q.pc)
  {
    hide RunAlone, Turn;
    if Rank(q.pc) == 0 {
      NoMore(p, files, q, SoloEvents(p, files, q, w));
    } else {
      var next := Turn(p, files, q, w);
      TurnDescends(p, files, q, w);
      TurnIsARun(p, files, q, w, SoloEvents(p, next.0, next.1, w));
      SoloIsARun(p, next.0, next.1, w);
    }
  }

  // --- When an undisturbed call applies, and what it leaves behind -------------

  /** Everything an apply depends on, as a caller could check it beforehand. */
  predicate WouldApply(p: Params, files: Directory, expected: Option<string>, w: Conditions)
  {
    && LockName(p) !in files
    && ConfigReady(p, files, expected)
    && (BackupName(p, files[p.name]) !in files || files[BackupName(p, files[p.name])] == files[p.name])
    && TempName(p, w.token) !in files
  }

  lemma UnfoldCalm(p: Params, files: Directory, q: Process, w: Conditions)
    requires Faultless(w) && Rank(q.pc) > 0
    ensures var next := Advance(p, files, q, w.token);
            Solo(p, files, q, w) == Solo(p, next.0, next.1, w)
  {
    hide Advance;
    Unfold(p, files, q, w);
  }

  lemma FinishLocked(p: Params, files: Directory, q: Process, w: Conditions)
    requires Faultless(w)
    requires q.pc.UnlinkTemp? && q.locked && LockName(p) in files
    requires q.temporary.Some? ==> q.temporary.value in files && q.temporary.value != LockName(p)
    ensures var left := if q.temporary.Some? then Delete(files, q.temporary.value) else files;
            Solo(p, files, q, w) == (Delete(left, LockName(p)), q.(pc := Done))
  {
    hide LockName, Delete, Turn, Solo;
    var left := if q.temporary.Some? then Delete(files, q.temporary.value) else files;
    var unlocking := q.(pc := UnlinkLock);
    Unfold(p, files, q, w);
    UnlinkTempTurn(p, files, q, w);
    Unfold(p, left, unlocking, w);
    UnlinkLockTurn(p, left, unlocking, w);
    SoloDone(p, Delete(left, LockName(p)), q.(pc := Done), w);
  }

  /** From the lock being free to the decision on the config. */
  lemma SoloStart(p: Params, files: Directory, expected: Option<string>, w: Conditions)
    requires Faultless(w)
    requires LockName(p) !in files
    ensures var locked := files[LockName(p) := LOCK_CONTENT];
            var reading := NewCall(true, expected).(pc := Reading, locked := true);
            Solo(p, files, NewCall(true, expected), w) == Solo(p, locked, reading, w)
  {
    hide LockName, Candidate;
    var q := NewCall(true, expected);
    UnfoldCalm(p, files, q, w);
    var next := Advance(p, files, q, w.token);
    UnfoldCalm(p, next.0, next.1, w);
    assert files[LockName(p) := []][LockName(p) := LOCK_CONTENT] == files[LockName(p) := LOCK_CONTENT];
  }

  /** The backup step succeeds exactly when no other content is under the backup's name. */
  lemma SoloBackup(p: Params, files: Directory, q: Process, w: Conditions)
    requires Faultless(w)
    requires q.pc.BackupCreate?
    requires |q.raw| <= MAX_CONFIG_BYTES
    requires BackupName(p, q.raw) !in files || files[BackupName(p, q.raw)] == q.raw
    ensures Solo(p, files, q, w) == Solo(p, files[BackupName(p, q.raw) := q.raw], q.(pc := TempCreate), w)
  {
    hide BackupName;
    UnfoldCalm(p, files, q, w);
    var next := Advance(p, files, q, w.token);
    UnfoldCalm(p, next.0, next.1, w);
    assert files[BackupName(p, q.raw) := q.raw]
        == if BackupName(p, q.raw) in files then files
           else files[BackupName(p, q.raw) := []][BackupName(p, q.raw) := q.raw];
  }

  function BackupRefusal(other: Bytes): Outcome
  {
    Refused(if |other| > 1048576 then InvalidConfigFile else BackupConflict)
  }

  lemma SoloBackupRefused(p: Params, files: Directory, q: Process, w: Conditions)
    requires Faultless(w)
    requires q.pc.BackupCreate?
    requires BackupName(p, q.raw) in files && files[BackupName(p, q.raw)] != q.raw
    ensures Solo(p, files, q, w) == Solo(p, files, Leave(q, BackupRefusal(files[BackupName(p, q.raw)])), w)
  {
    hide BackupName;
    UnfoldCalm(p, files, q, w);
    var next := Advance(p, files, q, w.token);
    UnfoldCalm(p, next.0, next.1, w);
    var last := Advance(p, next.0, next.1, w.token);
    assert last == (files, Leave(q, last.1.outcome));
  }

  /** Staging and replacing, with nothing in the way. */
  lemma SoloReplace(p: Params, files: Directory, q: Process, w: Conditions)
    requires Faultless(w)
    requires q.pc.TempCreate? && TempName(p, w.token) !in files
    requires Read(files, p.name) == Ok(q.raw)
    requires p.name != TempName(p, w.token)
    ensures Solo(p, files, q, w) ==
            Solo(p, files[p.name := q.plan.bytes],
                 Leave(q.(temporary := None, replaced := true), Applied(q.plan.added)), w)
  {
    hide TempName;
    UnfoldCalm(p, files, q, w);
    var (f1, q1) := Advance(p, files, q, w.token);
    assert q1 == q.(pc := TempWriting, temporary := Some(TempName(p, w.token)));
    UnfoldCalm(p, f1, q1, w);
    var (f2, q2) := Advance(p, f1, q1, w.token);
    assert q2 == q1.(pc := Recheck);
    SoloRecheck(p, f2, q2, TempName(p, w.token), w);
    assert Delete(f2, TempName(p, w.token)) == files;
  }

  lemma SoloRecheck(p: Params, files: Directory, q: Process, temporary: string, w: Conditions)
    requires Faultless(w)
    requires q.pc.Recheck? && q.temporary == Some(temporary)
    requires temporary in files && files[temporary] == q.plan.bytes
    requires Read(files, p.name) == Ok(q.raw) && p.name != temporary
    ensures Solo(p, files, q, w) ==
            Solo(p, Delete(files, temporary)[p.name := q.plan.bytes],
                 Leave(q.(temporary := None, replaced := true), Applied(q.plan.added)), w)
  {
    hide Inspect, BackUp, Candidate, LockName, BackupName, TempName;
    UnfoldCalm(p, files, q, w);
    var (f3, q3) := Advance(p, files, q, w.token);
    assert f3 == files && q3 == q.(pc := Replace);
    UnfoldCalm(p, f3, q3, w);
    var (f4, q4) := Advance(p, f3, q3, w.token);
    assert q4 == q.(pc := SyncDir, temporary := None, replaced := true);
    UnfoldCalm(p, f4, q4, w);
    assert f4 == Delete(files, temporary)[p.name := q.plan.bytes];
  }

  /** The directory that an undisturbed apply leaves. When it is refused after the backup step, the backup stays; when
      another file has the temporary name, the `finally` block deletes that file. */
  function Left(p: Params, files: Directory, expected: Option<string>, w: Conditions): Directory
  {
    if LockName(p) in files || !ConfigReady(p, files, expected) then files
    else
      var raw, temp := files[p.name], TempName(p, w.token);
      var backup := BackupName(p, raw);
      var saved := files[backup := raw];
      if backup in files && files[backup] != raw then files
      else if temp in files then Delete(saved, temp)
      else saved[p.name := Candidate(p.env, raw).value.bytes]
  }

  /** What reading the config leads to; `Running` is an apply that goes on to write. */
  function Judged(p: Params, files: Directory, apply: bool, expected: Option<string>): Outcome
  {
    if p.name !in files then Refused(ConfigIoError)
    else if |files[p.name]| > 1048576 then Refused(InvalidConfigFile)
    else
      match Candidate(p.env, files[p.name])
      case Err(e) => Refused(BadConfig(e))
      case Ok(plan) =>
        var named := expected == Some(p.digest(files[p.name]));
        if !apply || (named && plan.added == []) then Unchanged(plan.added)
        else if !named then Refused(ConfigChanged)
        else Running
  }

  /** What an undisturbed apply reports. */
  function Reported(p: Params, files: Directory, expected: Option<string>, w: Conditions): Outcome
  {
    var judged := Judged(p, files, true, expected);
    if LockName(p) in files then Refused(ConfigIoError)
    else if judged != Running || p.name !in files then judged
    else
      var raw := files[p.name];
      var backup := BackupName(p, raw);
      if backup in files && files[backup] != raw then BackupRefusal(files[backup])
      else if TempName(p, w.token) in files then Refused(ConfigIoError)
      else Applied(AddedTo(p, raw))
  }

  /** The rules that a migration of these bytes adds. */
  function AddedTo(p: Params, raw: Bytes): seq<string>
  {
    match Candidate(p.env, raw)
    case Ok(plan) => plan.added
    case Err(_) => []
  }

  lemma JudgedExactly(p: Params, files: Directory, expected: Option<string>)
    ensures Judged(p, files, true, expected) == Running <==> ConfigReady(p, files, expected)
    ensures !Judged(p, files, true, expected).Applied?
  {
    hide Candidate;
  }

  /** An undisturbed apply whose system calls succeed reports exactly what is in its way, in the order of the steps, or
      `applied: True` with the rules it added, and leaves exactly the directory `Left`. It applies exactly under
      `WouldApply`. Unless it applies, the config is what it was; the lock file is there afterwards exactly when it was
      there before. */
  lemma SoloOutcome(p: Params, files: Directory, expected: Option<string>, w: Conditions)
    requires Faultless(w)
    ensures var (files', q) := Solo(p, files, NewCall(true, expected), w);
            && q.pc == Done && files' == Left(p, files, expected, w) && q.outcome == Reported(p, files, expected, w)
            && (q.outcome.Applied? <==> WouldApply(p, files, expected, w))
            && (!q.outcome.Applied? ==>
                  && (p.name in files' <==> p.name in files)
                  && (p.name in files ==> files'[p.name] == files[p.name]))
            && (LockName(p) in files' <==> LockName(p) in files)
  {
    NamesDiffer(p, if p.name in files then files[p.name] else [], w.token);
    JudgedExactly(p, files, expected);
    if LockName(p) in files {
      SoloLockTaken(p, files, expected, w);
    } else {
      SoloStart(p, files, expected, w);
      SoloFromReading(p, files, expected, w);
    }
    hide Solo, Candidate, LockName, BackupName, TempName, Judged, AddedTo;
  }

  lemma SoloFromReading(p: Params, files: Directory, expected: Option<string>, w: Conditions)
    requires Faultless(w) && LockName(p) !in files
    ensures var reading := NewCall(true, expected).(pc := Reading, locked := true);
            var (files', q) := Solo(p, files[LockName(p) := LOCK_CONTENT], reading, w);
            && q.pc == Done && files' == Left(p, files, expected, w) && q.outcome == Reported(p, files, expected, w)
  {
    hide Candidate;
    NamesDiffer(p, [], w.token);
    var locked := files[LockName(p) := LOCK_CONTENT];
    var reading := NewCall(true, expected).(pc := Reading, locked := true);
    UnfoldCalm(p, locked, reading, w);
    ReadingDecides(p, locked, reading, w);
    JudgedExactly(p, files, expected);
    assert Judged(p, locked, true, expected) == Judged(p, files, true, expected);
    hide Solo, Advance, LockName, BackupName, TempName, Judged;
    assert Delete(locked, LockName(p)) == files;
    var decided := Advance(p, locked, reading, w.token).1;
    if decided.pc.UnlinkTemp? {
      FinishLocked(p, locked, decided, w);
    } else {
      SoloDecided(p, files, decided, w);
    }
  }

  lemma ReadingDecides(p: Params, files: Directory, q: Process, w: Conditions)
    requires Faultless(w)
    requires q.pc.Reading? && q.temporary == None
    ensures var (same, d) := Advance(p, files, q, w.token);
            var judged := Judged(p, files, q.apply, q.expected);
            && same == files && d.locked == q.locked && d.temporary == None
            && (if judged == Running
                then && d.pc.BackupCreate? && p.name in files && d.raw == files[p.name]
                     && Candidate(p.env, d.raw) == Ok(d.plan)
                else d.pc.UnlinkTemp? && d.outcome == judged)
  {
    hide Candidate, LockName;
  }

  /** An undisturbed preview changes no file and reports what reading the config leads to: the rules that a migration
      would add, or why there is none. It takes no lock and heeds none. */
  lemma PreviewOutcome(p: Params, files: Directory, expected: Option<string>, w: Conditions)
    requires Faultless(w)
    ensures var (files', q) := Solo(p, files, NewCall(false, expected), w);
            && q.pc == Done && files' == files
            && (if p.name !in files then q.outcome == Refused(ConfigIoError)
                else if |files[p.name]| > 1048576 then q.outcome == Refused(InvalidConfigFile)
                else match Candidate(p.env, files[p.name])
                     case Ok(plan) => q.outcome == Unchanged(plan.added)
                     case Err(e) => q.outcome == Refused(BadConfig(e)))
  {
    hide LockName, Candidate, Solo;
    var q := NewCall(false, expected);
    var reading := q.(pc := Reading);
    UnfoldCalm(p, files, q, w);
    UnfoldCalm(p, files, reading, w);
    ReadingDecides(p, files, reading, w);
    hide Turn, Advance;
    var decided := Advance(p, files, reading, w.token).1;
    var unlocking := decided.(pc := UnlinkLock);
    Unfold(p, files, decided, w);
    UnlinkTempTurn(p, files, decided, w);
    Unfold(p, files, unlocking, w);
    UnlinkLockTurn(p, files, unlocking, w);
    SoloDone(p, files, unlocking.(pc := Done), w);
  }

  lemma SoloLockTaken(p: Params, files: Directory, expected: Option<string>, w: Conditions)
    requires Faultless(w)
    requires LockName(p) in files
    ensures var (files', q) := Solo(p, files, NewCall(true, expected), w);
            files' == files && q.pc == Done && q.outcome == Refused(ConfigIoError)
  {
    hide LockName, Candidate;
    var q := NewCall(true, expected);
    UnfoldCalm(p, files, q, w);
    var next := Advance(p, files, q, w.token);
    UnfoldCalm(p, next.0, next.1, w);
    var last := Advance(p, next.0, next.1, w.token);
    UnfoldCalm(p, last.0, last.1, w);
  }

  /** The part of an apply after the decision to go ahead. */
  lemma SoloDecided(p: Params, files: Directory, q: Process, w: Conditions)
    requires Faultless(w)
    requires q.pc.BackupCreate? && q.locked && q.temporary == None
    requires LockName(p) !in files && Read(files, p.name) == Ok(q.raw)
    ensures var (files', r) := Solo(p, files[LockName(p) := LOCK_CONTENT], q, w);
            var backup, temp := BackupName(p, q.raw), TempName(p, w.token);
            var saved := files[backup := q.raw];
            && r.pc == Done
            && r.outcome == (if backup in files && files[backup] != q.raw then BackupRefusal(files[backup])
                             else if temp in files then Refused(ConfigIoError)
                             else Applied(q.plan.added))
            && files' == if backup in files && files[backup] != q.raw then files
                         else if temp in files then Delete(saved, temp)
                         else saved[p.name := q.plan.bytes]
  {
    NamesDiffer(p, q.raw, w.token);
    hide LockName, BackupName, TempName, Candidate, Solo;
    var locked := files[LockName(p) := LOCK_CONTENT];
    var backup, temp := BackupName(p, q.raw), TempName(p, w.token);
    if backup in files && files[backup] != q.raw {
      SoloBackupRefused(p, locked, q, w);
      FinishLocked(p, locked, Leave(q, BackupRefusal(files[backup])), w);
      assert Delete(locked, LockName(p)) == files;
    } else {
      SoloBackup(p, locked, q, w);
      SoloSaved(p, files[backup := q.raw], q.(pc := TempCreate), w);
      assert locked[backup := q.raw] == files[backup := q.raw][LockName(p) := LOCK_CONTENT];
    }
  }

  lemma SoloSaved(p: Params, files: Directory, q: Process, w: Conditions)
    requires Faultless(w)
    requires q.pc.TempCreate? && q.locked && q.temporary == None
    requires LockName(p) !in files && Read(files, p.name) == Ok(q.raw)
    ensures var (files', r) := Solo(p, files[LockName(p) := LOCK_CONTENT], q, w);
            var temp := TempName(p, w.token);
            && r.pc == Done && r.outcome == (if temp in files then Refused(ConfigIoError) else Applied(q.plan.added))
            && files' == if temp in files then Delete(files, temp) else files[p.name := q.plan.bytes]
  {
    NamesDiffer(p, q.raw, w.token);
    hide LockName, BackupName, TempName, Candidate, Solo, Turn;
    var locked, temp := files[LockName(p) := LOCK_CONTENT], TempName(p, w.token);
    if temp in files {
      Unfold(p, locked, q, w);
      TempCreateTurn(p, locked, q, w);
      FinishLocked(p, locked, Leave(q.(temporary := Some(temp)), Refused(ConfigIoError)), w);
      assert Delete(Delete(locked, temp), LockName(p)) == Delete(files, temp);
    } else {
      SoloReplace(p, locked, q, w);
      FinishLocked(p, locked[p.name := q.plan.bytes],
                   Leave(q.(temporary := None, replaced := true), Applied(q.plan.added)), w);
      assert Delete(locked[p.name := q.plan.bytes], LockName(p)) == files[p.name := q.plan.bytes];
    }
  }

  lemma StartFails(p: Params, files: Directory, apply: bool, expected: Option<string>, w: Conditions)
    requires w.faults(Start).Some?
    ensures var q := NewCall(apply, expected);
            Solo(p, files, q, w) == (files, q.(pc := Done, outcome := Refused(ConfigIoError)))
  {
    hide LockName, Candidate;
    Unfold(p, files, NewCall(apply, expected), w);
    SoloDone(p, files, NewCall(apply, expected).(pc := Done, outcome := Refused(ConfigIoError)), w);
  }

  datatype WriteResult = Wrote | FileExists | WriteFailed

  class ConfigDirectory {
    var files: Directory

    constructor (files: Directory)
      ensures this.files == files
    {
      this.files := files;
    }

    /** `_read` */
    method ReadFile(name: string, fault: Option<nat>) returns (r: Result<Bytes, MigrationError>)
      ensures r == if fault.Some? then Err(ConfigIoError) else Read(files, name)
    {
      if fault.Some? || name !in files {
        return Err(ConfigIoError);
      }
      if |files[name]| > MAX_CONFIG_BYTES {
        return Err(InvalidConfigFile);
      }
      return Ok(files[name]);
    }

    /** `_write_exclusive`; a failing write leaves the file behind, torn. */
    method WriteExclusive(name: string, data: Bytes, create: Option<nat>, write: Option<nat>) returns (r: WriteResult)
      modifies this
      ensures r == if create.Some? then WriteFailed else if name in old(files) then FileExists
                   else if write.Some? then WriteFailed else Wrote
      ensures files == if create.Some? || name in old(files) then old(files)
                       else old(files)[name := if write.Some? then Written(data, write.value) else data]
    {
      if create.Some? {
        return WriteFailed;
      }
      if name in files {
        return FileExists;
      }
      files := files[name := []];
      if write.Some? {
        files := files[name := Written(data, write.value)];
        return WriteFailed;
      }
      files := files[name := data];
      return Wrote;
    }

    /** `os.replace` */
    method Rename(source: string, target: string)
      requires source in files
      modifies this
      ensures files == Delete(old(files)[target := old(files)[source]], source)
    {
      files := Delete(files[target := files[source]], source);
    }

    /** `os.unlink`; false stands for an OSError. */
    method Unlink(name: string, fault: Option<nat>) returns (ok: bool)
      modifies this
      ensures ok == (fault.None? && name in old(files))
      ensures files == if ok then Delete(old(files), name) else old(files)
    {
      ok := fault.None? && name in files;
      if ok {
        files := Delete(files, name);
      }
    }

    /** The `try` block, once the parent directory is open. The ghost `g` is the process of the protocol this
        call plays. */
    method TryBlock(p: Params, apply: bool, expected: Option<string>, w: Conditions)
      returns (outcome: Outcome, locked: bool, temporary: Option<string>, ghost g: Process)
      requires w.faults(Start).None?
      modifies this
      ensures g.pc == UnlinkTemp && g.outcome == outcome && g.locked == locked && g.temporary == temporary
      ensures Solo(p, files, g, w) == Solo(p, old(files), NewCall(apply, expected), w)
    {
      hide Solo, LockName, BackupName, TempName, Candidate, Written;
      locked, temporary, g := false, None, NewCall(apply, expected);
      Unfold(p, files, g, w);
      g := Turn(p, files, g, w).1;
      if apply {
        ghost var created := files[LockName(p) := []];
        var written := WriteExclusive(LockName(p), LOCK_CONTENT, None, w.faults(LockWriting));
        if written == FileExists {
          return Refused(ConfigIoError), locked, temporary, g;
        }
        Unfold(p, created, g, w);
        assert files == Turn(p, created, g, w).0;
        g := Turn(p, created, g, w).1;
        if written == WriteFailed {
          return Refused(ConfigIoError), locked, temporary, g;
        }
        locked := true;
      }
      assert g == NewCall(apply, expected).(pc := Reading, locked := apply);
      outcome, temporary, g := Decision(p, apply, expected, w, g);
    }

    /** From the first reading on. */
    method Decision(p: Params, apply: bool, expected: Option<string>, w: Conditions, ghost g: Process)
      returns (outcome: Outcome, temporary: Option<string>, ghost h: Process)
      requires g == NewCall(apply, expected).(pc := Reading, locked := apply)
      modifies this
      ensures h.pc == UnlinkTemp && h.outcome == outcome && h.locked == g.locked && h.temporary == temporary
      ensures Solo(p, files, h, w) == Solo(p, old(files), g, w)
    {
      hide Solo, LockName, BackupName, TempName, Candidate, Read;
      temporary, h := None, g;
      var config := ReadFile(p.name, w.faults(Reading));
      Unfold(p, files, h, w);
      h := Turn(p, files, h, w).1;
      if config.Err? {
        return Refused(config.error), temporary, h;
      }
      var raw := config.value;
      var candidate := ComputeCandidate(p.env, raw);
      if candidate.Err? {
        return Refused(BadConfig(candidate.error)), temporary, h;
      }
      var plan := candidate.value;
      if !apply {
        return Unchanged(plan.added), temporary, h;
      }
      if expected != Some(p.digest(raw)) {
        return Refused(ConfigChanged), temporary, h;
      }
      if plan.added == [] {
        return Unchanged(plan.added), temporary, h;
      }
      outcome, temporary, h := Apply(p, raw, plan, w, h);
    }

    /** The part of the `try` block that writes: backup, temporary file, replace. */
    method Apply(p: Params, raw: Bytes, plan: Plan, w: Conditions, ghost g: Process)
      returns (outcome: Outcome, temporary: Option<string>, ghost h: Process)
      requires g.pc.BackupCreate? && g.raw == raw && g.plan == plan && g.temporary == None
      modifies this
      ensures h.pc == UnlinkTemp && h.outcome == outcome && h.locked == g.locked && h.temporary == temporary
      ensures Solo(p, files, h, w) == Solo(p, old(files), g, w)
    {
      hide Solo, LockName, BackupName, TempName, Candidate, Read, Written, Inspect, Stage, CleanUp, Delete;
      var backup := BackupName(p, raw);
      temporary, h := None, g;
      Unfold(p, files, h, w);
      h := Turn(p, files, h, w).1;
      ghost var created := files[backup := []];
      var written := WriteExclusive(backup, raw, w.faults(BackupCreate), w.faults(BackupWriting));
      if w.faults(BackupCreate).Some? {
        return Refused(ConfigIoError), temporary, h;
      }
      if written == FileExists {
        var saved := ReadFile(backup, w.faults(BackupCompare));
        Unfold(p, files, h, w);
        h := Turn(p, files, h, w).1;
        if saved.Err? {
          return Refused(saved.error), temporary, h;
        }
        if saved.value != raw {
          return Refused(BackupConflict), temporary, h;
        }
      } else {
        Unfold(p, created, h, w);
        assert files == Turn(p, created, h, w).0;
        h := Turn(p, created, h, w).1;
        if written == WriteFailed {
          return Refused(ConfigIoError), temporary, h;
        }
      }
      assert h == g.(pc := TempCreate);
      outcome, temporary, h := StageCandidate(p, raw, plan, w, h);
    }

    method StageCandidate(p: Params, raw: Bytes, plan: Plan, w: Conditions, ghost g: Process)
      returns (outcome: Outcome, temporary: Option<string>, ghost h: Process)
      requires g.pc.TempCreate? && g.raw == raw && g.plan == plan && g.temporary == None
      modifies this
      ensures h.pc == UnlinkTemp && h.outcome == outcome && h.locked == g.locked && h.temporary == temporary
      ensures Solo(p, files, h, w) == Solo(p, old(files), g, w)
    {
      hide Solo, TempName, Candidate, Written, Turn;
      h := g;
      temporary := Some(TempName(p, w.token));
      Unfold(p, files, h, w);
      TempCreateTurn(p, files, h, w);
      h := Turn(p, files, h, w).1;
      ghost var created := files[temporary.value := []];
      var written := WriteExclusive(temporary.value, plan.bytes, w.faults(TempCreate), w.faults(TempWriting));
      if w.faults(TempCreate).Some? || written == FileExists {
        return Refused(ConfigIoError), temporary, h;
      }
      Unfold(p, created, h, w);
      TempWriteTurn(p, created, h, w);
      assert files == Turn(p, created, h, w).0;
      h := Turn(p, created, h, w).1;
      if written == WriteFailed {
        return Refused(ConfigIoError), temporary, h;
      }
      outcome, temporary, h := RecheckAndReplace(p, raw, plan, temporary.value, w, h);
    }

    method RecheckAndReplace(p: Params, raw: Bytes, plan: Plan, temp: string, w: Conditions, ghost g: Process)
      returns (outcome: Outcome, temporary: Option<string>, ghost h: Process)
      requires g.pc.Recheck? && g.raw == raw && g.plan == plan && g.temporary == Some(temp) && temp in files
      modifies this
      ensures h.pc == UnlinkTemp && h.outcome == outcome && h.locked == g.locked && h.temporary == temporary
      ensures Solo(p, files, h, w) == Solo(p, old(files), g, w)
    {
      hide Solo, Candidate, Read, LockName, BackupName;
      temporary, h := Some(temp), g;
      var now := ReadFile(p.name, w.faults(Recheck));
      Unfold(p, files, h, w);
      h := Turn(p, files, h, w).1;
      if now.Err? {
        return Refused(now.error), temporary, h;
      }
      if now.value != raw {
        return Refused(ConfigChanged), temporary, h;
      }
      Unfold(p, files, h, w);
      h := Turn(p, files, h, w).1;
      if w.faults(Replace).Some? {
        return Refused(ConfigIoError), temporary, h;
      }
      Rename(temp, p.name);
      temporary := None;
      Unfold(p, files, h, w);
      h := Turn(p, files, h, w).1;
      if w.faults(SyncDir).Some? {
        return Refused(ConfigIoError), temporary, h;
      }
      return Applied(plan.added), temporary, h;
    }

    /** `migrate_filesystem_ca_policy`: one undisturbed call, whichever of its system calls fail, is one process of the
        protocol run to its end. */
    method Migrate(p: Params, apply: bool, expected: Option<string>, w: Conditions) returns (outcome: Outcome)
      modifies this
      ensures var (left, q) := Solo(p, old(files), NewCall(apply, expected), w);
              files == left && outcome == q.outcome && q.pc == Done
    {
      hide LockName, Candidate, Solo, Turn;
      if w.faults(Start).Some? {
        StartFails(p, files, apply, expected, w);
        return Refused(ConfigIoError);
      }
      var locked, temporary;
      ghost var g;
      outcome, locked, temporary, g := TryBlock(p, apply, expected, w);
      outcome := Finally(p, outcome, locked, temporary, w, g);
    }

    /** The `finally` block: an error in it replaces the outcome. */
    method Finally(p: Params, reached: Outcome, locked: bool, temporary: Option<string>, w: Conditions, ghost g: Process)
      returns (outcome: Outcome)
      requires g.pc == UnlinkTemp && g.outcome == reached && g.locked == locked && g.temporary == temporary
      modifies this
      ensures var (left, q) := Solo(p, old(files), g, w);
              files == left && outcome == q.outcome && q.pc == Done
    {
      hide LockName, Solo, Turn, Delete;
      outcome := reached;
      Unfold(p, files, g, w);
      UnlinkTempTurn(p, files, g, w);
      ghost var h := Turn(p, files, g, w).1;
      SoloDone(p, files, h, w);
      if temporary.Some? {
        var ok := Unlink(temporary.value, w.faults(UnlinkTemp));
        if !ok {
          return CleanupRaised;
        }
      }
      Unfold(p, files, h, w);
      UnlinkLockTurn(p, files, h, w);
      h := Turn(p, files, h, w).1;
      if locked {
        var ok := Unlink(LockName(p), w.faults(UnlinkLock));
        if !ok {
          outcome := CleanupRaised;
        }
      }
      SoloDone(p, files, h, w);
    }
  }
}
