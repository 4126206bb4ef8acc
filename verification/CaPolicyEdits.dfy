/** What the second reading of the config protects: edits by someone who does not take the lock. About the
    `_read` before `os.replace` in ca_policy_migration.py. */
module CaPolicyEdits {
  import opened PyText
  import opened CaPolicyCandidate
  import opened CaPolicyMigration
  import opened CaPolicyLock

  /** The process has read the config and has not passed the second reading. */
  predicate BetweenReadings(pc: Pc)
  {
    BackingUp(pc) || pc.TempCreate? || pc.TempWriting? || pc.Recheck?
  }

  predicate Finishing(pc: Pc)
  {
    pc.SyncDir? || pc.UnlinkTemp? || pc.UnlinkLock? || pc.Done? || pc.Crashed?
  }

  // --- One call ------------------------------------------------------------------

  /** The config holds this content, and the process will not overwrite it. */
  predicate Guarded(p: Params, files: Directory, q: Process, content: Bytes)
  {
    && p.name in files && files[p.name] == content
    && ((BetweenReadings(q.pc) && content != q.raw) || Finishing(q.pc))
    && (q.temporary.Some? ==> q.temporary.value != p.name)
  }

  lemma BackUpKeepsEdit(p: Params, files: Directory, q: Process, content: Bytes)
    requires Guarded(p, files, q, content) && BackingUp(q.pc)
    ensures var (files', q') := BackUp(p, files, q); Guarded(p, files', q', content) && q'.replaced == q.replaced
  {
    NamesDiffer(p, q.raw, "");
    hide LockName, BackupName, TempName;
  }

  lemma StageKeepsEdit(p: Params, files: Directory, q: Process, content: Bytes, token: string)
    requires Guarded(p, files, q, content) && Staging(q.pc)
    ensures var (files', q') := Stage(p, files, q, token); Guarded(p, files', q', content) && q'.replaced == q.replaced
  {
    NamesDiffer(p, q.raw, token);
    hide LockName, BackupName, TempName;
  }

  lemma AdvanceKeepsEdit(p: Params, files: Directory, q: Process, content: Bytes, token: string)
    requires Guarded(p, files, q, content)
    ensures var (files', q') := Advance(p, files, q, token); Guarded(p, files', q', content) && q'.replaced == q.replaced
  {
    NamesDiffer(p, q.raw, token);
    hide LockName, BackupName, TempName, Candidate, Inspect, BackUp, Stage;
    if BackingUp(q.pc) {
      BackUpKeepsEdit(p, files, q, content);
    } else if Staging(q.pc) {
      StageKeepsEdit(p, files, q, content, token);
    }
  }

  lemma StumbleKeepsEdit(p: Params, files: Directory, q: Process, content: Bytes, token: string)
    requires Guarded(p, files, q, content)
    ensures var (files', q') := Stumble(p, files, q, token); Guarded(p, files', q', content) && q'.replaced == q.replaced
  {
    hide LockName, BackupName, TempName, Advance;
    NamesDiffer(p, q.raw, token);
    AdvanceKeepsEdit(p, files, q, content, token);
  }

  lemma StepKeepsEdit(p: Params, files: Directory, q: Process, content: Bytes, e: Event)
    requires Guarded(p, files, q, content)
    ensures var (files', q') := StepProcess(p, files, q, e); Guarded(p, files', q', content) && q'.replaced == q.replaced
  {
    NamesDiffer(p, q.raw, "");
    hide LockName, BackupName, TempName, Written, Advance, Stumble;
    match e
    case Go(token) => AdvanceKeepsEdit(p, files, q, content, token);
    case Fail(token) => StumbleKeepsEdit(p, files, q, content, token);
    case _ =>
  }

  /** The config and whether the call has replaced it stay as they are, whatever the rest of the call meets. */
  lemma {:induction false} EditSurvives(p: Params, files: Directory, q: Process, content: Bytes, events: seq<Event>)
    requires Guarded(p, files, q, content)
    ensures var t := RunAlone(p, files, q, events);
            && |t.processes| == 1 && t.processes[0].replaced == q.replaced
            && p.name in t.files && t.files[p.name] == content
    decreases |events|
  {
    if events == [] {
      NoMore(p, files, q, events);
    } else {
      Alone(p, files, q, events);
      StepKeepsEdit(p, files, q, content, events[0]);
      var next := StepProcess(p, files, q, events[0]);
      hide StepProcess, RunAlone;
      EditSurvives(p, next.0, next.1, content, events[1..]);
    }
  }

  /** The first event that is more than another piece of a write. */
  function FirstEvent(events: seq<Event>): Option<Event>
  {
    if events == [] then None
    else if events[0].Partial? then FirstEvent(events[1..])
    else Some(events[0])
  }

  predicate Renames(events: seq<Event>)
  {
    FirstEvent(events).Some? && FirstEvent(events).value.Go?
  }

  /** An edit that finds the call between the second reading and the rename is overwritten exactly when the rename
      is what the call does next. */
  lemma {:induction false} EditAtReplaceExactly(p: Params, files: Directory, q: Process, edit: Bytes, events: seq<Event>)
    requires q.pc.Replace? && q.temporary.Some? && q.temporary.value != p.name && !q.replaced
    requires q.temporary.value in files && files[q.temporary.value] == q.plan.bytes
    requires p.name in files && files[p.name] == edit
    ensures var t := RunAlone(p, files, q, events);
            && |t.processes| == 1 && p.name in t.files
            && (t.processes[0].replaced <==> Renames(events))
            && t.files[p.name] == if Renames(events) then q.plan.bytes else edit
    decreases |events|
  {
    hide RunAlone, Candidate, LockName, BackupName, TempName;
    if events == [] {
      NoMore(p, files, q, events);
    } else {
      Alone(p, files, q, events);
      if events[0].Partial? {
        EditAtReplaceExactly(p, files, q, edit, events[1..]);
      } else {
        var next := StepProcess(p, files, q, events[0]);
        EditSurvives(p, next.0, next.1, if events[0].Go? then q.plan.bytes else edit, events[1..]);
      }
    }
  }

  // --- Any number of calls ------------------------------------------------------------

  /** A holder that works on bytes that an edit has replaced. */
  ghost predicate Stale(p: Params, edit: Bytes, files: Directory, q: Process)
  {
    && BetweenReadings(q.pc) && q.locked && Quiet(q) && edit != q.raw
    && (q.temporary.Some? ==> IsTempName(p, q.temporary.value))
    && Untouched(p, edit, files) && LockName(p) in files
  }

  /** A process that goes on as if the edit had always been there. */
  ghost predicate Bystands(p: Params, edit: Bytes, files: Directory, q: Process)
  {
    ProcessOk(p, edit, files, q) && !Holds(q) && !q.replaced
  }

  ghost predicate OneStale(p: Params, edit: Bytes, s: System, k: nat)
  {
    && k < |s.processes| && Stale(p, edit, s.files, s.processes[k])
    && forall j :: 0 <= j < |s.processes| && j != k ==> Bystands(p, edit, s.files, s.processes[j])
  }

  lemma TempsApart(p: Params, q: Process)
    requires q.temporary.Some? ==> IsTempName(p, q.temporary.value)
    ensures q.temporary.Some? ==> q.temporary.value != p.name && q.temporary.value != LockName(p)
  {
    if q.temporary.Some? {
      var token :| q.temporary.value == TempName(p, token);
      NamesDiffer(p, [], token);
    }
  }

  /** Where a step takes a holder that is between the readings of the config. */
  lemma StalePlace(p: Params, files: Directory, q: Process, e: Event)
    requires BetweenReadings(q.pc) && q.locked && Quiet(q) && LockName(p) in files
    requires p.name in files && files[p.name] != q.raw
    requires q.temporary.Some? ==> IsTempName(p, q.temporary.value)
    ensures var (files', q') := StepProcess(p, files, q, e);
            && LockName(p) in files' && q'.locked && q'.raw == q.raw && !q'.replaced
            && (q'.temporary.Some? ==> IsTempName(p, q'.temporary.value))
            && ((BetweenReadings(q'.pc) && Quiet(q')) || q'.pc.Crashed? || (q'.pc.UnlinkTemp? && q'.outcome.Refused?))
            && (q'.pc.Crashed? ==> Quiet(q'))
  {
    hide LockName, BackupName, TempName, Candidate, Inspect, CleanUp, Written, Delete;
    assert e.Go? ==> IsTempName(p, TempName(p, e.token));
    assert e.Fail? ==> IsTempName(p, TempName(p, e.token));
  }

  lemma StaleStep(p: Params, edit: Bytes, files: Directory, q: Process, e: Event)
    requires Stale(p, edit, files, q)
    ensures var (files', q') := StepProcess(p, files, q, e);
            && Untouched(p, edit, files')
            && (Stale(p, edit, files', q') || (ProcessOk(p, edit, files', q') && !q'.replaced))
  {
    TempsApart(p, q);
    StalePlace(p, files, q, e);
    StepKeepsEdit(p, files, q, edit, e);
    hide StepProcess, LockName, IsTempName, Migrated, Working;
  }

  lemma NotYetMigrated(p: Params, edit: Bytes, files: Directory)
    requires Sound(p.env) && Untouched(p, edit, files)
    ensures !Migrated(p, edit, files)
  {
    if Candidate(p.env, edit).Ok? {
      CandidateIdempotent(p.env, edit);
    }
  }

  lemma StaleMoves(p: Params, edit: Bytes, s: System, k: nat, e: Event)
    requires Sound(p.env) && OneStale(p, edit, s, k)
    ensures var s' := Next(p, s, Act(k, e)); Invariant(p, edit, s') || OneStale(p, edit, s', k)
  {
    hide StepProcess, Stale, ProcessOk, Migrated, LockName;
    var q := s.processes[k];
    StaleStep(p, edit, s.files, q, e);
    assert Untouched(p, edit, s.files) by {
      StaleIsUntouched(p, edit, s.files, q);
    }
    NotYetMigrated(p, edit, s.files);
    var next := StepProcess(p, s.files, q, e);
    forall j | 0 <= j < |s.processes| && j != k ensures Bystands(p, edit, next.0, s.processes[j]) {
      Bystander(p, edit, s.files, next.0, s.processes[j]);
    }
  }

  lemma StaleIsUntouched(p: Params, edit: Bytes, files: Directory, q: Process)
    requires Stale(p, edit, files, q)
    ensures Untouched(p, edit, files) && LockName(p) in files && Holds(q) && !q.replaced
  {
  }

  lemma OtherMoves(p: Params, edit: Bytes, s: System, k: nat, i: nat, e: Event)
    requires Sound(p.env) && OneStale(p, edit, s, k) && i < |s.processes| && i != k
    ensures OneStale(p, edit, Next(p, s, Act(i, e)), k)
  {
    hide StepProcess, Stale, ProcessOk, Migrated, LockName;
    var q := s.processes[i];
    StaleIsUntouched(p, edit, s.files, s.processes[k]);
    OutsiderStep(p, edit, s.files, q, e);
    OutsiderChangesNothing(p, edit, s.files, q, e);
  }

  lemma StaleNext(p: Params, edit: Bytes, s: System, k: nat, a: Action)
    requires Sound(p.env) && OneStale(p, edit, s, k)
    ensures Invariant(p, edit, Next(p, s, a)) || OneStale(p, edit, Next(p, s, a), k)
  {
    match a
    case ClearStaleLock => StaleIsUntouched(p, edit, s.files, s.processes[k]);
    case Act(i, e) =>
      if i == k {
        StaleMoves(p, edit, s, k, e);
      } else if i < |s.processes| {
        OtherMoves(p, edit, s, k, i, e);
      }
      hide OneStale, Invariant, StepProcess;
  }

  lemma {:induction false} StaleRun(p: Params, edit: Bytes, s: System, k: nat, actions: seq<Action>)
    requires Sound(p.env) && OneStale(p, edit, s, k)
    ensures ConfigSafe(p, edit, Run(p, s, actions).files)
    decreases |actions|
  {
    hide Next, Invariant, Stale, Bystands;
    if actions == [] {
      StaleIsUntouched(p, edit, s.files, s.processes[k]);
    } else {
      StaleNext(p, edit, s, k, actions[0]);
      var next := Next(p, s, actions[0]);
      if OneStale(p, edit, next, k) {
        StaleRun(p, edit, next, k, actions[1..]);
      } else {
        InvariantKept(p, edit, next, actions[1..]);
        InvariantIsSafe(p, edit, Run(p, next, actions[1..]));
      }
    }
  }

  lemma InvariantIsSafe(p: Params, original: Bytes, s: System)
    requires Invariant(p, original, s)
    ensures ConfigSafe(p, original, s.files)
  {
  }

  lemma SeenBetweenReadings(p: Params, original: Bytes, files: Directory, q: Process, edit: Bytes)
    requires ProcessOk(p, original, files, q) && BetweenReadings(q.pc) && edit != original && p.name != LockName(p)
    ensures Stale(p, edit, files[p.name := edit], q) && Holds(q)
  {
    hide LockName, BackupName, TempName, Candidate, Migrated, IsTempName, Saved;
  }

  lemma SeenElsewhere(p: Params, original: Bytes, files: Directory, q: Process, edit: Bytes)
    requires ProcessOk(p, original, files, q) && !BetweenReadings(q.pc) && !q.pc.Replace? && !q.replaced
    requires p.name != LockName(p)
    ensures ProcessOk(p, edit, files[p.name := edit], q)
  {
    hide LockName, BackupName, TempName, Candidate, Migrated, IsTempName, Saved, InHand;
  }

  /** Seen from the edit, a process of the protocol is either stale or in order. */
  lemma EditSeen(p: Params, original: Bytes, files: Directory, q: Process, edit: Bytes)
    requires Sound(p.env) && ProcessOk(p, original, files, q) && Untouched(p, original, files)
    requires !q.pc.Replace? && edit != original
    ensures var files' := files[p.name := edit];
            && !q.replaced
            && (Stale(p, edit, files', q) || ProcessOk(p, edit, files', q))
            && (!Holds(q) ==> ProcessOk(p, edit, files', q))
            && (Stale(p, edit, files', q) ==> Holds(q))
  {
    NotYetMigrated(p, original, files);
    NamesDiffer(p, original, "");
    NotReplaced(p, original, files, q);
    hide LockName, ProcessOk, Stale, Holds, Untouched;
    if BetweenReadings(q.pc) {
      SeenBetweenReadings(p, original, files, q, edit);
    } else {
      SeenElsewhere(p, original, files, q, edit);
      OnlyBetweenReadings(p, edit, files[p.name := edit], q);
    }
  }

  lemma NotReplaced(p: Params, original: Bytes, files: Directory, q: Process)
    requires ProcessOk(p, original, files, q) && !Migrated(p, original, files)
    ensures !q.replaced
  {
  }

  lemma OnlyBetweenReadings(p: Params, edit: Bytes, files: Directory, q: Process)
    requires !BetweenReadings(q.pc)
    ensures !Stale(p, edit, files, q)
  {
  }

  lemma EditMeetsAll(p: Params, original: Bytes, s: System, edit: Bytes)
    requires Sound(p.env) && Invariant(p, original, s) && Untouched(p, original, s.files)
    requires forall i :: 0 <= i < |s.processes| ==> !s.processes[i].pc.Replace?
    requires edit != original
    ensures var s' := System(s.files[p.name := edit], s.processes);
            Invariant(p, edit, s') || exists k: nat :: OneStale(p, edit, s', k)
  {
    hide ProcessOk, Stale, Holds, Migrated;
    var s' := System(s.files[p.name := edit], s.processes);
    forall i | 0 <= i < |s.processes|
      ensures !s.processes[i].replaced
      ensures Stale(p, edit, s'.files, s.processes[i]) || ProcessOk(p, edit, s'.files, s.processes[i])
      ensures !Holds(s.processes[i]) ==> ProcessOk(p, edit, s'.files, s.processes[i])
      ensures Stale(p, edit, s'.files, s.processes[i]) ==> Holds(s.processes[i])
    {
      EditSeen(p, original, s.files, s.processes[i], edit);
    }
    if k: nat :| k < |s.processes| && Stale(p, edit, s'.files, s.processes[k]) {
      forall j | 0 <= j < |s.processes| && j != k ensures Bystands(p, edit, s'.files, s.processes[j]) {
        assert !Holds(s.processes[j]) by {
          if j < k { } else { }
        }
      }
      assert OneStale(p, edit, s', k);
    }
  }

  // --- An edit of a migrated config -----------------------------------------------------

  /** A call that has replaced the config and only has to clean up. */
  predicate Past(q: Process)
  {
    Finishing(q.pc) && q.temporary == None
  }

  const GONE := Process(false, None, Crashed, false, None, [], Plan([], []), Running, false)

  /** The system without the call that has replaced the config. */
  function Rest(s: System, k: nat): System
    requires k < |s.processes|
  {
    System(s.files, s.processes[k := GONE])
  }

  /** One call is past; the others go on as if the edit had always been there. */
  ghost predicate OnePast(p: Params, edit: Bytes, s: System, k: nat)
  {
    && k < |s.processes| && Past(s.processes[k]) && Invariant(p, edit, Rest(s, k))
    && (Holds(s.processes[k]) ==>
          && LockName(p) in s.files
          && forall j :: 0 <= j < |s.processes| && j != k ==> !Holds(s.processes[j]))
  }

  /** What is past only ever removes the lock it holds. */
  lemma PastStep(p: Params, files: Directory, q: Process, e: Event)
    requires Past(q)
    ensures var (files', q') := StepProcess(p, files, q, e);
            && Past(q') && (Holds(q') ==> Holds(q))
            && (files' == files || (files' == Delete(files, LockName(p)) && Holds(q) && !Holds(q')))
  {
    hide LockName, TempName, BackupName, Candidate, Inspect, BackUp, Stage, Written, Delete;
  }

  lemma PastMoves(p: Params, edit: Bytes, s: System, k: nat, e: Event)
    requires Sound(p.env) && OnePast(p, edit, s, k)
    ensures OnePast(p, edit, Next(p, s, Act(k, e)), k)
  {
    hide StepProcess, Invariant, LockName, Past, Delete;
    PastStep(p, s.files, s.processes[k], e);
    var s' := Next(p, s, Act(k, e));
    assert s.processes[k := s'.processes[k]][k := GONE] == s.processes[k := GONE];
    if s'.files != s.files {
      StepKeepsInvariant(p, edit, Rest(s, k), ClearStaleLock);
      assert Rest(s', k) == Next(p, Rest(s, k), ClearStaleLock);
    } else {
      assert Rest(s', k) == Rest(s, k);
    }
  }

  lemma RestMoves(p: Params, edit: Bytes, s: System, k: nat, i: nat, e: Event)
    requires Sound(p.env) && OnePast(p, edit, s, k) && i < |s.processes| && i != k
    ensures OnePast(p, edit, Next(p, s, Act(i, e)), k)
  {
    var s', rest := Next(p, s, Act(i, e)), Rest(s, k);
    assert rest.processes[i] == s.processes[i];
    if Holds(s.processes[k]) {
      OutsiderChangesNothing(p, edit, s.files, s.processes[i], e);
    }
    hide StepProcess, Invariant, LockName, Past;
    StepKeepsInvariant(p, edit, rest, Act(i, e));
    assert s'.processes[k := GONE] == rest.processes[i := s'.processes[i]];
  }

  lemma PastNext(p: Params, edit: Bytes, s: System, k: nat, a: Action)
    requires Sound(p.env) && OnePast(p, edit, s, k)
    ensures OnePast(p, edit, Next(p, s, a), k)
  {
    match a
    case ClearStaleLock =>
      hide Invariant, LockName, Past, Delete;
      StepKeepsInvariant(p, edit, Rest(s, k), ClearStaleLock);
      if forall i :: 0 <= i < |s.processes| ==> !Holds(s.processes[i]) {
        assert Rest(Next(p, s, a), k) == Next(p, Rest(s, k), a);
      }
    case Act(i, e) =>
      hide StepProcess, OnePast;
      if i == k {
        PastMoves(p, edit, s, k, e);
      } else if i < |s.processes| {
        RestMoves(p, edit, s, k, i, e);
      }
  }

  lemma {:induction false} PastRun(p: Params, edit: Bytes, s: System, k: nat, actions: seq<Action>)
    requires Sound(p.env) && OnePast(p, edit, s, k)
    ensures ConfigSafe(p, edit, Run(p, s, actions).files)
    decreases |actions|
  {
    hide Next, Invariant, Past;
    if actions == [] {
      InvariantIsSafe(p, edit, Rest(s, k));
    } else {
      PastNext(p, edit, s, k, actions[0]);
      PastRun(p, edit, Next(p, s, actions[0]), k, actions[1..]);
    }
  }

  /** Once the config is migrated, nobody is about to write it. */
  lemma SeenAfterMigration(p: Params, original: Bytes, files: Directory, q: Process, edit: Bytes)
    requires Sound(p.env) && ProcessOk(p, original, files, q) && Migrated(p, original, files)
    ensures q.replaced ==> Past(q)
    ensures !q.replaced ==> ProcessOk(p, edit, files[p.name := edit], q)
    ensures Holds(q) ==> LockName(p) in files[p.name := edit]
  {
    if Untouched(p, original, files) {
      NotYetMigrated(p, original, files);
    }
    NamesDiffer(p, original, "");
    hide LockName, BackupName, TempName, Candidate, Migrated, IsTempName, Saved, Untouched;
  }

  lemma GoneIsOk(p: Params, edit: Bytes, files: Directory)
    ensures ProcessOk(p, edit, files, GONE) && !Holds(GONE)
  {
  }

  lemma EditMeetsMigrated(p: Params, original: Bytes, s: System, edit: Bytes)
    requires Sound(p.env) && Invariant(p, original, s) && Migrated(p, original, s.files)
    ensures var s' := System(s.files[p.name := edit], s.processes);
            Invariant(p, edit, s') || exists k: nat :: OnePast(p, edit, s', k)
  {
    hide ProcessOk, Holds, Migrated, Past, LockName;
    var s' := System(s.files[p.name := edit], s.processes);
    forall i | 0 <= i < |s.processes|
      ensures s.processes[i].replaced ==> Past(s.processes[i])
      ensures !s.processes[i].replaced ==> ProcessOk(p, edit, s'.files, s.processes[i])
      ensures Holds(s.processes[i]) ==> LockName(p) in s'.files
    {
      SeenAfterMigration(p, original, s.files, s.processes[i], edit);
    }
    if k: nat :| k < |s.processes| && s.processes[k].replaced {
      GoneIsOk(p, edit, s'.files);
      forall j | 0 <= j < |s.processes| && j != k
        ensures !s.processes[j].replaced && !(Holds(s.processes[j]) && Holds(s.processes[k]))
      {
        if j < k { } else { }
      }
      assert OnePast(p, edit, s', k);
    }
  }

  /** No edit made while nobody is between the second reading and the rename is ever lost: whatever any number of calls
      have done before, and whatever they and new ones do afterwards, the config is the edit, or the complete
      candidate of the edit with the edit in its backup. */
  lemma EditNeverLost(p: Params, original: Bytes, s: System, before: seq<Action>, edit: Bytes, after: seq<Action>)
    requires Sound(p.env) && Initial(p, original, s)
    requires forall i :: 0 <= i < |Run(p, s, before).processes| ==> !Run(p, s, before).processes[i].pc.Replace?
    ensures var t := Run(p, s, before);
            ConfigSafe(p, edit, Run(p, System(t.files[p.name := edit], t.processes), after).files)
  {
    InvariantKept(p, original, s, before);
    var t := Run(p, s, before);
    var edited := System(t.files[p.name := edit], t.processes);
    InvariantIsSafe(p, original, t);
    hide Run, Invariant, OneStale, OnePast, Migrated;
    if !Untouched(p, original, t.files) {
      EditMeetsMigrated(p, original, t, edit);
      if k: nat :| OnePast(p, edit, edited, k) {
        PastRun(p, edit, edited, k, after);
        return;
      }
    } else if edit == original {
      assert edited == t;
    } else {
      EditMeetsAll(p, original, t, edit);
      if k: nat :| OneStale(p, edit, edited, k) {
        StaleRun(p, edit, edited, k, after);
        return;
      }
    }
    InvariantKept(p, edit, edited, after);
    InvariantIsSafe(p, edit, Run(p, edited, after));
  }
}
