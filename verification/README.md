# Verification of the AgentVeil SDK and MCP proxy core

A Dafny model of the parts of AgentVeil whose correctness spans several functions or whole runs, and proofs about it.
`dafny verify dfyconfig.toml` checks everything.

- **Config migration** (`CaPolicyCandidate`, `CaPolicyContract`, `CaPolicyMigration`, `CaPolicyLock`, `CaPolicyEdits`,
  `CaPolicyDirectory`). The directory is a map from names to bytes, a call is a program counter with the Python locals,
  and one step is one system call, which may fail, be cut short or be the last before a crash. Safety is proved over all interleavings of any number of calls;
  the sequential program, whose system calls may fail too, is a class over a directory changed in place, proved to be a
  run of that protocol.
- **Hermes config** (`HermesScalar`, `HermesConfig`, `HermesLayout`, `HermesRoundTrip`). Printer and line parser at the
  level of characters, with `str.strip`, `str.splitlines` and `str.replace` written out in `PyText`.
- **Signed receipts** (`Primitives`, `DataIntegrity`, `Delegation`, `StandaloneDelegation`, `Proof`, `ProofPacket`,
  `ProofPacketContract`). JSON is a datatype (`PyJson`), with Python's truthiness and equality. `jcs`, `json.loads`, SHA-256, base58, Ed25519 and the
  time format are functions in a record; the few facts a result needs about them are its preconditions: canonical text
  parses back, digests have 32 bytes, base58 decodes what it encoded, signatures verify, a time is read back as
  written or not at all. Collision resistance and unforgeability are never assumed: a conclusion that rests on them ends in "or this very pair of
  texts collides" or "or this signature verifies for both messages".
- **Circuit breaker** (`CircuitBreaker`, `CircuitBreakerRuns`). The class with a ghost history of its calls, and results
  over all runs with non-decreasing time. Time is a real number.
- **Requests and proof of work** (`Auth`, `Pow`), with percent-encoding, UTF-8, hexadecimal and decimal text written out
  in `Encoding`, and a stable sort in `Sorting`.
- **Audit chain** (`AuditChain`) and **hook settings** (`ClaudeHookSetup`).

A method that follows the Python statement by statement is proved equal to a function, and what the source promises is
proved of that function. The lemmas whose names end in `Exactly` or `Reads` say what such a function decides or writes
in terms other than its own, with the source's literal names: on the parsed JSON, on the texts of a packet, by a reader of the text,
or over the calls of a run.

## Where code and documentation disagree

The model follows the code; each point is a theorem.

- The peek at `schema_version` is said never to raise (`agentveil/proof.py`, line 205); a list or an object there raises
  TypeError (`Proof.PeekRaisesExactly`).
- `verify_delegation` is said to raise DelegationInvalid on any failure (`agentveil/delegation.py`, line 216); four kinds
  of receipt escape with another exception (`Delegation.FailsOtherwiseExactly`). The standalone verifier's ValueError has
  one exception (`StandaloneDelegation.FailureExactly`).
- A delegation issued for less than a second is signed but never accepted (`Delegation.IssuedIsAccepted`).
- The `finally` block of the migration does not release the lock when the write of the lock file fails
  (`CaPolicyLock.FailedLockWriteLeavesLock`) or the temporary file cannot be created
  (`CaPolicyLock.FailedTempCreationLeavesLock`). All the steps that leave the lock behind, and the one that
  removes it, are in `CaPolicyLock.LockReleasedExactly`.
- The parser of the Hermes config drops plain args and toolsets of whitespace alone and does not unescape disabled
  toolsets (`HermesRoundTrip.ParseRendered`, `HermesRoundTrip.BlankArgVanishes`, `HermesRoundTrip.DisabledBackExactly`).
- Tampering with any field of an audit entry is said to break the recomputation
  (`examples/proof_pack/verify_chain.py`, lines 81-82); the fields are hashed without separators, so it does exactly when
  their concatenation changes (`AuditChain.TamperingShowsExactly`, field by field
  `AuditChain.FieldTamperingExactly`), and the last hash pins a chain only together
  with its length (`AuditChain.LastHashAloneDoesNot`).

## Model

| member | source | states |
|---|---|---|
| `CaPolicyMigration.ConfigAlwaysSafe` | packages/agentveil-mcp-proxy/agentveil_mcp_proxy/ca_policy_migration.py:98-150 | For any number of calls in any interleaving, with an I/O failure or a crash at every system call and inside every write: the config is the original or the complete candidate, and in the latter case the backup named by the original's hash holds the original. |
| `CaPolicyMigration.MutualExclusion` | packages/agentveil-mcp-proxy/agentveil_mcp_proxy/ca_policy_migration.py:105-113 | At most one live call is between taking and releasing the lock, and the lock file is there while it is. |
| `CaPolicyMigration.AppliedAtMostOnce` | packages/agentveil-mcp-proxy/agentveil_mcp_proxy/ca_policy_migration.py:119-139 | Over a whole run at most one call reports `applied: True`; it was given the original's hash and the config is migrated. |
| `CaPolicyMigration.OnlyHolderUnlocks` | packages/agentveil-mcp-proxy/agentveil_mcp_proxy/ca_policy_migration.py:142-150 | Whoever deletes the lock file holds the lock; a call that failed to take it never unlinks it. |
| `CaPolicyLock.LockReleasedExactly` | packages/agentveil-mcp-proxy/agentveil_mcp_proxy/ca_policy_migration.py:142-150 | In every reachable state, a holder's step removes the lock file if and only if it is the successful `unlink` of the lock; the hold ends otherwise exactly by a crash, a failed write of the lock file, or a failed `unlink` of the temporary or the lock file. |
| `CaPolicyLock.FailedLockWriteLeavesLock` | packages/agentveil-mcp-proxy/agentveil_mcp_proxy/ca_policy_migration.py:111-113 | First path on which `finally` keeps the lock, as a run from a fresh call: the lock file is created and its write fails. |
| `CaPolicyLock.FailedTempCreationLeavesLock` | packages/agentveil-mcp-proxy/agentveil_mcp_proxy/ca_policy_migration.py:131-148 | Second path, as a run from a fresh call: the temporary file cannot be created, so unlinking it raises before the lock is unlinked. |
| `CaPolicyMigration.InvariantKept` | packages/agentveil-mcp-proxy/agentveil_mcp_proxy/ca_policy_migration.py:98-150 | The invariant behind these results (one holder, what is known of a call from where it is, at most one replacement) holds in every reachable state. |
| `CaPolicyMigration.NamesDiffer` | packages/agentveil-mcp-proxy/agentveil_mcp_proxy/ca_policy_migration.py:108-131 | Config, lock, backup and temporary file never share a name, whatever the config is called. |
| `CaPolicyMigration.NamesTell` | packages/agentveil-mcp-proxy/agentveil_mcp_proxy/ca_policy_migration.py:108-131 | Backups of different digests and temporary files of different tokens have different names; how each name is made from the config's. |
| `CaPolicyMigration.ReplaceMigrates` | packages/agentveil-mcp-proxy/agentveil_mcp_proxy/ca_policy_migration.py:135-136 | The rename makes the staged candidate the config while the backup holds the original. |
| `CaPolicyEdits.EditNeverLost` | packages/agentveil-mcp-proxy/agentveil_mcp_proxy/ca_policy_migration.py:133-135 | An edit made outside the lock at any point of any run, while no call is between its second reading and the rename, is never lost: whatever any number of calls do afterwards, the config is the edit, or the candidate of the edit with the edit in its backup. |
| `CaPolicyEdits.EditSurvives` | packages/agentveil-mcp-proxy/agentveil_mcp_proxy/ca_policy_migration.py:133-134 | For the call that meets the edit between its two readings: whatever it meets from there on, it neither overwrites the edit nor reports a replacement. |
| `CaPolicyEdits.EditAtReplaceExactly` | packages/agentveil-mcp-proxy/agentveil_mcp_proxy/ca_policy_migration.py:133-135 | An edit between the second reading and the rename is overwritten if and only if the next thing the call does is the successful rename; otherwise it stays for good. |
| `CaPolicyDirectory.SoloOutcome` | packages/agentveil-mcp-proxy/agentveil_mcp_proxy/ca_policy_migration.py:98-150 | An undisturbed apply whose system calls succeed reports `applied: True` with the rules it added if and only if lock, config, hash, backup and temporary name allow it, and otherwise the first thing in its way; the whole directory it leaves, applied or refused at any point. |
| `CaPolicyDirectory.PreviewOutcome` | packages/agentveil-mcp-proxy/agentveil_mcp_proxy/ca_policy_migration.py:98-120 | An undisturbed preview changes no file and reports the rules that a migration would add, or why there is none. |
| `CaPolicyDirectory.SoloIsARun` | packages/agentveil-mcp-proxy/agentveil_mcp_proxy/ca_policy_migration.py:98-150 | The sequential call, whichever of its system calls fail, is a run of the protocol with one process. |
| `CaPolicyDirectory.ConfigDirectory.Migrate` | packages/agentveil-mcp-proxy/agentveil_mcp_proxy/ca_policy_migration.py:98-150 | The call as a program over a directory changed in place, with any of its system calls failing, leaves the directory and the outcome that the protocol's process leaves. |
| `CaPolicyDirectory.ConfigDirectory.TryBlock` | packages/agentveil-mcp-proxy/agentveil_mcp_proxy/ca_policy_migration.py:109-139 | The `try` block, with the values of `locked` and `temporary` that `finally` reads. |
| `CaPolicyDirectory.ConfigDirectory.Finally` | packages/agentveil-mcp-proxy/agentveil_mcp_proxy/ca_policy_migration.py:142-150 | The `finally` block; an error in it replaces the outcome and skips the rest. |
| `CaPolicyDirectory.ConfigDirectory.Apply` | packages/agentveil-mcp-proxy/agentveil_mcp_proxy/ca_policy_migration.py:125-139 | The writing part of the `try` block. |
| `CaPolicyDirectory.ConfigDirectory.RecheckAndReplace` | packages/agentveil-mcp-proxy/agentveil_mcp_proxy/ca_policy_migration.py:133-139 | Second reading, rename and directory sync. |
| `CaPolicyDirectory.ConfigDirectory.WriteExclusive` | packages/agentveil-mcp-proxy/agentveil_mcp_proxy/ca_policy_migration.py:90-95 | Creates the file with its content, changes nothing when it exists or cannot be created, and leaves it torn when the write fails. |
| `CaPolicyDirectory.ConfigDirectory.ReadFile` | packages/agentveil-mcp-proxy/agentveil_mcp_proxy/ca_policy_migration.py:78-87 | The content, or the error for a missing, unreadable or oversized file. |
| `CaPolicyContract.CandidateExactly` | packages/agentveil-mcp-proxy/agentveil_mcp_proxy/ca_policy_migration.py:34-60 | On the JSON that the config parses to: there is a candidate if and only if the config is well-formed, its policy id is `filesystem`, its default decision is absent or `ask_backend`, its rule ids are distinct, no `filesystem-ca-` rule of the pack has its id taken by an unequal rule, and the updated config passes the other checks; for each of the five errors, exactly when it is raised; and the candidate is the config with the missing rules appended in the pack's order, or the same bytes when none is missing. |
| `CaPolicyCandidate.ComputeCandidate` | packages/agentveil-mcp-proxy/agentveil_mcp_proxy/ca_policy_migration.py:34-60 | The loop-by-loop computation yields the candidate of the specification, errors included. |
| `CaPolicyCandidate.MergeRules` | packages/agentveil-mcp-proxy/agentveil_mcp_proxy/ca_policy_migration.py:47-58 | The merging loop appends exactly the missing desired rules in desired order and reports a conflict if and only if some desired rule's id is taken by a different rule. |
| `CaPolicyCandidate.IndexOf` | packages/agentveil-mcp-proxy/agentveil_mcp_proxy/ca_policy_migration.py:54 | The first position of an id. |
| `CaPolicyCandidate.CandidatePreserves` | packages/agentveil-mcp-proxy/agentveil_mcp_proxy/ca_policy_migration.py:46-60 | A rewrite keeps the rules as a prefix, appends exactly the missing desired rules in desired order and reports them, keeps ids unique, covers every desired rule and changes no other field. |
| `CaPolicyCandidate.CandidateIdempotent` | packages/agentveil-mcp-proxy/agentveil_mcp_proxy/ca_policy_migration.py:34-60 | Applied to its own output it adds nothing and returns the same bytes. |
| `PyJson.PyEqExactly` | packages/agentveil-mcp-proxy/agentveil_mcp_proxy/ca_policy_migration.py:54 | When two JSON values are equal in Python: numbers and booleans by their number, lists element by element, objects key by key. |
| `HermesScalar.UnescapeEscape` | packages/agentveil-mcp-proxy/agentveil_mcp_proxy/agent_launcher.py:253-260 | The two replace-all passes of unescaping undo those of escaping, for every string. |
| `HermesScalar.ScalarRoundTrip` | packages/agentveil-mcp-proxy/agentveil_mcp_proxy/agent_launcher.py:250-261 | A scalar survives printing and reading if and only if it is quoted or has no outer whitespace. |
| `HermesScalar.UnquoteScalar` | packages/agentveil-mcp-proxy/agentveil_mcp_proxy/agent_launcher.py:257-261 | What a scalar comes back as, with whitespace around it or stripped. |
| `HermesScalar.ScalarExactly` | packages/agentveil-mcp-proxy/agentveil_mcp_proxy/agent_launcher.py:250-254 | A scalar is written as it is if and only if it is not empty and has none of the nine special characters; otherwise it is escaped and quoted. |
| `PyText.SplitLinesExactly` | packages/agentveil-mcp-proxy/agentveil_mcp_proxy/agent_launcher.py:516 | How the text is split into lines: at the first line end, a carriage return with a newline being one, and then in what follows. |
| `HermesConfig.Render` | packages/agentveil-mcp-proxy/agentveil_mcp_proxy/agent_launcher.py:329-364 | The printer's loops produce the lines of the document, joined. |
| `HermesConfig.RenderServer` | packages/agentveil-mcp-proxy/agentveil_mcp_proxy/agent_launcher.py:337-354 | The lines of one server. |
| `HermesConfig.ParseConfig` | packages/agentveil-mcp-proxy/agentveil_mcp_proxy/agent_launcher.py:500-567 | The loop with its four flags computes the line-by-line specification and its three errors. |
| `HermesLayout.DocumentLayout` | packages/agentveil-mcp-proxy/agentveil_mcp_proxy/agent_launcher.py:329-364 | The indentation of every line of a document: top-level keys at 0, servers at 2, their headers at 4, entries at 6, the toolsets' key at 2. |
| `HermesLayout.ArgsLayout` | packages/agentveil-mcp-proxy/agentveil_mcp_proxy/agent_launcher.py:345-349 | Every arg is a list item at depth 6. |
| `HermesLayout.DisabledsLayout` | packages/agentveil-mcp-proxy/agentveil_mcp_proxy/agent_launcher.py:356-362 | Every disabled toolset is a list item at depth 4. |
| `HermesRoundTrip.ParseRendered` | packages/agentveil-mcp-proxy/agentveil_mcp_proxy/agent_launcher.py:302-364 | What parsing a rendered config gives back, for any number of args, entries and toolsets without line breaks, with a command, an arg and well-formed env keys: blank plain args and toolsets are gone, and what is left decides between the two errors and the result. Excluded are entries with a blank value whose key reads as a header of the config. |
| `HermesRoundTrip.RoundTripExactly` | packages/agentveil-mcp-proxy/agentveil_mcp_proxy/agent_launcher.py:500-567 | With distinct env keys, and those entries included, it gives back the very same config if and only if every scalar survives. |
| `HermesRoundTrip.BlankArgVanishes` | packages/agentveil-mcp-proxy/agentveil_mcp_proxy/agent_launcher.py:548-554 | A plain arg of whitespace alone disappears: its line is read as no item. |
| `HermesRoundTrip.DisabledBackExactly` | packages/agentveil-mcp-proxy/agentveil_mcp_proxy/agent_launcher.py:533-535 | A disabled toolset survives if and only if it has nothing that the printer escapes and no outer whitespace to lose. |
| `HermesRoundTrip.ProxyRunArgsExactly` | packages/agentveil-mcp-proxy/agentveil_mcp_proxy/agent_launcher.py:469-487 | Arguments are recovered from a config's args if and only if they begin with `run` and are those args, or follow the module's name in them. |
| `HermesRoundTrip.RunArgsExactly` | packages/agentveil-mcp-proxy/agentveil_mcp_proxy/agent_launcher.py:469-487 | From an invocation's args the launcher recovers the `run` arguments if and only if they begin with `run`. |
| `HermesRoundTrip.BootstrapRecoversRunArgs` | packages/agentveil-mcp-proxy/agentveil_mcp_proxy/agent_launcher.py:302-326 | The same through the written and parsed config. |
| `DataIntegrity.Sign` | agentveil/data_integrity.py:82-124 | Signing refuses exactly a document with a proof and a seed of the wrong length; otherwise it yields the canonical text of the secured document. |
| `DataIntegrity.SecuredExactly` | agentveil/data_integrity.py:101-124 | The secured document is the document with a proof, and these are all of its fields and values: type, suite, the DID with its own key part as fragment, purpose, `created` when given, the document's context, and the signature of the two digests. |
| `DataIntegrity.SignThenVerify` | agentveil/data_integrity.py:82-211 | What is signed verifies for the signer and gives the document back if it was signed for the default purpose, and is refused otherwise. |
| `DataIntegrity.VerifyExactly` | agentveil/data_integrity.py:139-211 | A text verifies for a DID if and only if it is a secured document with that signer, suite, purpose, context and a 64-byte signature of the digests of the canonical proof without its value and of the canonical document without its proof. |
| `Primitives.DecodeDidExactly` | agentveil/data_integrity.py:47-59 | A DID decodes to a key if and only if it is `did:key:z` and the base58 of ED 01 and the 32 bytes of the key. |
| `DataIntegrity.ReadProofExactly` | agentveil/data_integrity.py:162-184 | The structural checks on the proof accept exactly the proofs of the suite that name this signer and carry this signature. |
| `DataIntegrity.SignatureBindsDocument` | agentveil/data_integrity.py:62-211 | Two texts accepted from one signer with one proof value have equal configurations and documents, or the signature covers two messages, or a named pair of texts collides. |
| `DataIntegrity.HashDataTells` | agentveil/data_integrity.py:75-79 | Equal hashData means equal configuration and document, up to a collision of those very texts. |
| `Delegation.IssueDelegation` | agentveil/delegation.py:135-194 | Issuing succeeds exactly for valid arguments whose expiry can be written, and yields the signed receipt. |
| `Delegation.IssuedExactly` | agentveil/delegation.py:173-188 | What an issued receipt says: these fields and no others beside the proof, valid from the whole second of its start, for the whole seconds of its lifetime. |
| `Delegation.IssuedIsAccepted` | agentveil/delegation.py:173-316 | An issued receipt is accepted if and only if it lasts a second at least, its times read back as written, and the floored clock is in [validFrom - 60 s, validFrom + floored lifetime], the start of which exists; from year 1000 on the times do read back. What is reported is what was issued. |
| `Delegation.FailsOtherwiseExactly` | agentveil/delegation.py:201-316 | An exception other than the documented DelegationInvalid escapes if and only if one of the four named guards is met. |
| `Delegation.MalformedIssuerEscapes` | agentveil/delegation.py:77-90 | Witness of the first guard: an issuer that is not base58 raises ValueError. |
| `Delegation.BeginningOfTimeEscapes` | agentveil/delegation.py:259-261 | Witness of the second: a `validFrom` at the beginning of year 1 raises OverflowError. |
| `Delegation.NullMethodEscapes` | agentveil/delegation.py:280-283 | Witness of the third: a null `verificationMethod` raises AttributeError. |
| `Delegation.ShortSignatureEscapes` | agentveil/delegation.py:299-306 | Witness of the fourth: a legacy signature of 63 bytes raises ValueError. |
| `StandaloneDelegation.SameVerdict` | examples/delegation/verify.py:157-235 | The SDK's and the standalone verifier accept the same receipts at every time, legacy and hashData, and report the same. |
| `StandaloneDelegation.SameHashData` | examples/delegation/verify.py:131-154 | Checking the canonical text (SDK) and the receipt itself (standalone) comes to the same on the hashData branch. |
| `StandaloneDelegation.SameScope` | examples/delegation/verify.py:75-94 | The two copies of the scope check agree on every scope. |
| `StandaloneDelegation.FailureExactly` | examples/delegation/verify.py:157-235 | The standalone verifier fails with something else than its documented ValueError if and only if the claims are in order and `validFrom` lies in the first minute of year 1. |
| `StandaloneDelegation.BeginningOfTimeEscapes` | examples/delegation/verify.py:193-197 | A receipt for which it does. |
| `StandaloneDelegation.EscapesAreRefusedHere` | examples/delegation/verify.py:157-235 | Where both refuse, they fail alike except that what escapes the SDK is an ordinary refusal here. |
| `Proof.VerifyBackendReceipt` | agentveil/proof.py:191-243 | The loop over the trusted DIDs decides as the specification does, which knows no order of them. |
| `Proof.BackendExactly` | agentveil/proof.py:191-243 | A receipt is accepted if and only if it is a secured document whose proof names a trusted Ed25519 DID and carries its 64-byte signature: under one of the three /3 schemas of the two digests, with purpose and context, otherwise of the canonical body. |
| `Proof.BackendFacts` | agentveil/proof.py:191-243 | An accepted receipt is signed by a trusted DID over the message its own schema calls for. |
| `Proof.SignedJcsExactly` | agentveil/proof.py:72-129 | A legacy receipt verifies if and only if its proof names an Ed25519 DID and carries a 64-byte signature of the canonical body. |
| `Proof.OtherRouteRejected` | agentveil/proof.py:178-243 | A text signed for the other construction than its schema claims is rejected, unless one signature covers both messages or they are the same bytes. |
| `Proof.PeekRaisesExactly` | agentveil/proof.py:211-222 | Looking at the schema raises if and only if the text is an object whose `schema_version` is a list or an object. |
| `Proof.ListSchemaRaises` | agentveil/proof.py:205-222 | A text for which it does. |
| `ProofPacket.TrustedExactly` | agentveil/proof.py:141-171 | Each kind of receipt trusts exactly the strings of the list that counts for it; the map is refused if and only if some kind is left without. |
| `ProofPacket.HistoricalExactly` | agentveil/proof.py:54-69 | The historical check accepts a delegation if and only if some clock value would. |
| `ProofPacketContract.PacketExactly` | agentveil/proof.py:298-443 | A packet is accepted if and only if each kind of receipt has a trusted signer, the delegation was valid at some time, every receipt there is comes from a listed signer, a decision is there, and the texts are tied together: known schema versions, both `gate_audit_id` and the packet's `audit_id` equal to the decision's `audit_id`, one delegation hash, the chain of digests, one intent, and the status that the receipts show. It is accepted as what its texts say. |
| `ProofPacketContract.TiesExactly` | agentveil/proof.py:264-435 | The checks receipt by receipt come to the same as those ties, which are stated by subject. |
| `ProofPacket.ExecutionPinsPacket` | agentveil/proof.py:298-443 | Two accepted packets with one execution receipt that names its decision have the same decision and approval texts (or no approval), agent and delegation, up to collisions of those texts. |
| `Proof.SignedReceiptAccepted` | agentveil/proof.py:224-242 | What a trusted signer secures under a /3 schema is accepted as a receipt, with its body. |
| `ProofPacketContract.HonestPacketExactly` | agentveil/proof.py:298-443 | A packet put together from such receipts, with or without approval and execution, with a delegation valid at some time, is accepted if and only if the secured documents are tied together. |
| `ProofPacketContract.OneStory` | agentveil/proof.py:264-435 | The texts of an accepted packet with decision, execution and approval agree on audit, approval, delegation and, under the strict schemas, agent, action, resource and environment, also where the code does not compare them directly. |
| `ProofPacket.StatusIsBacked` | agentveil/proof.py:339-353 | In an accepted packet each status is backed by texts signed by the DIDs trusted for them: an execution receipt, a BLOCK decision and no execution receipt, or a waiting decision and an approval receipt. |
| `ProofPacket.ApprovalExactly` | agentveil/proof.py:417-436 | An accepted packet with an execution receipt has an approval receipt if and only if the execution receipt has a field for its hash. |
| `CircuitBreaker.ConfigFromDict` | packages/agentveil-mcp-proxy/agentveil_mcp_proxy/circuit_breaker.py:38-72 | Accepted if and only if all fields are known and positive ints; missing ones take their defaults. |
| `CircuitBreaker.Breaker.Before` | packages/agentveil-mcp-proxy/agentveil_mcp_proxy/circuit_breaker.py:108-119 | State and answer are the specification's; the history grows by this call. |
| `CircuitBreaker.Breaker.Success` | packages/agentveil-mcp-proxy/agentveil_mcp_proxy/circuit_breaker.py:121-133 | The same for a success. |
| `CircuitBreaker.Breaker.Failure` | packages/agentveil-mcp-proxy/agentveil_mcp_proxy/circuit_breaker.py:135-149 | The same for a failure. |
| `CircuitBreaker.Breaker.Drain` | packages/agentveil-mcp-proxy/agentveil_mcp_proxy/circuit_breaker.py:151-157 | The same for draining; the pending events are handed over. |
| `CircuitBreaker.Breaker.ChangeTo` | packages/agentveil-mcp-proxy/agentveil_mcp_proxy/circuit_breaker.py:159-179 | A transition with its bounded event buffer. |
| `CircuitBreaker.Breaker.PruneFailures` | packages/agentveil-mcp-proxy/agentveil_mcp_proxy/circuit_breaker.py:181-184 | The pruning loop. |
| `CircuitBreakerRuns.ForgettingIsHarmless` | packages/agentveil-mcp-proxy/agentveil_mcp_proxy/circuit_breaker.py:92-184 | Over every run the breaker with the pruned deque and the bounded buffer answers each call as one that keeps all failures and events. |
| `CircuitBreakerRuns.DrainedExactly` | packages/agentveil-mcp-proxy/agentveil_mcp_proxy/circuit_breaker.py:151-179 | Every drain of every run yields the changes of state since the drain before it, the last 1000 of them, in order: each with the name, state and count that its call left, that call's time and the two configured thresholds. |
| `CircuitBreakerRuns.CountExactly` | packages/agentveil-mcp-proxy/agentveil_mcp_proxy/circuit_breaker.py:159-163 | The count is the number of calls of the run at which the state changed. |
| `CircuitBreakerRuns.OpensExactly` | packages/agentveil-mcp-proxy/agentveil_mcp_proxy/circuit_breaker.py:144-149 | A failure opens the closed circuit if and only if the failures since the last reset that lie in the window, with itself, reach the threshold. |
| `CircuitBreakerRuns.PruneTwice` | packages/agentveil-mcp-proxy/agentveil_mcp_proxy/circuit_breaker.py:181-184 | Earlier pruning never loses a failure that a later count needs. |
| `CircuitBreakerRuns.RefusedForTheCooldown` | packages/agentveil-mcp-proxy/agentveil_mcp_proxy/circuit_breaker.py:108-143 | After a failure that leaves the circuit open every call within the cooldown is refused. |
| `CircuitBreakerRuns.OpenedByLastFailure` | packages/agentveil-mcp-proxy/agentveil_mcp_proxy/circuit_breaker.py:135-149 | While the circuit is open, the cooldown runs from the last failure of the whole history. |
| `CircuitBreakerRuns.ProbedAfterTheCooldown` | packages/agentveil-mcp-proxy/agentveil_mcp_proxy/circuit_breaker.py:108-119 | A call that finds the circuit open is let through, and makes it half-open, if and only if the cooldown has passed since the last failure of the whole history. |
| `CircuitBreakerRuns.ClosesExactly` | packages/agentveil-mcp-proxy/agentveil_mcp_proxy/circuit_breaker.py:121-133 | The circuit closes if and only if the call is the success that makes `half_open_test_count` since it became half-open, with no failure since. |
| `CircuitBreakerRuns.CannotFlap` | packages/agentveil-mcp-proxy/agentveil_mcp_proxy/circuit_breaker.py:108-179 | Entries to half-open times cooldown fit into the elapsed time, and there are at most three state changes for each and one more. |
| `Auth.CanonicalizeQueryParams` | agentveil/auth.py:14-32 | The loop over the parameters computes the canonical query of their pairs. |
| `Auth.CanonicalReads` | agentveil/auth.py:31-32 | Splitting the canonical query at its separators and decoding the parts gives the pairs back, each as often, ordered by key and then value, by code points. |
| `Auth.PercentDecodes` | agentveil/auth.py:32 | Decoding undoes percent-encoding; the unreserved characters stand for themselves. |
| `Auth.TextLeqExactly` | agentveil/auth.py:31 | The order of the texts: a prefix comes first, otherwise the first different character decides. |
| `Auth.CanonicalExactly` | agentveil/auth.py:31-32 | Two canonical queries are equal if and only if the pairs are equal as multisets. |
| `Auth.UrlEncodeInjective` | agentveil/auth.py:32 | Percent-encoding and joining lose nothing. |
| `Auth.MessageReads` | agentveil/auth.py:65-74 | For a method without a colon other than `v2`, the signed text reads back as: version 2 if and only if there is a query or it is forced, method, path, canonical query, and in the last three parts the decimal timestamp, the hexadecimal nonce and the hexadecimal digest of the body. |
| `Auth.MessageDetermines` | agentveil/auth.py:65-74 | The signed message determines version, method, path, parameters, timestamp and nonce, and the body up to a collision, for methods without a colon other than `v2`. |
| `Auth.MessageIsAmbiguousOtherwise` | agentveil/auth.py:70-74 | Both conditions on the method are needed. |
| `Auth.SignatureBindsRequest` | agentveil/auth.py:65-76 | One signature that verifies for two requests: the same request, or a clash or collision of what was signed. |
| `Encoding.DecimalReads` | agentveil/pow.py:31 | A decimal numeral has decimal digits only, no leading zero, and reads back as the number in base ten. |
| `Encoding.HexReads` | agentveil/auth.py:66-67 | Each byte reads back from its two lower-case hexadecimal digits. |
| `Pow.SolvePow` | agentveil/pow.py:11-45 | Returns the decimal text of the smallest solution, whenever there is a solution, for every difficulty up to 256. |
| `Pow.TestIsBound` | agentveil/pow.py:26-42 | Byte loop and mask test accept if and only if the digest is below 2^(256 - difficulty). |
| `Pow.MaskTest` | agentveil/pow.py:28-42 | The mask test is a bound on one octet. |
| `AuditChain.VerifyChain` | examples/proof_pack/verify_chain.py:67-131 | The sort and the loop report exactly the specified problems; valid if and only if all hashes match and, in full mode, the sorted entries are linked. |
| `AuditChain.ValidExactly` | examples/proof_pack/verify_chain.py:90-115 | The same of the specification. |
| `AuditChain.ReportExactly` | examples/proof_pack/verify_chain.py:67-131 | What is reported: valid if and only if every entry carries the digest of its five texts in the documented order and, in full mode, the entries in sequence order link up from none; their number, the first and last sequence and the last hash in that order. |
| `AuditChain.LastHashPinsChain` | examples/proof_pack/verify_chain.py:51-131 | Two valid full chains of one length with one last hash agree on hash and hashed message at every position, or collide at one. |
| `AuditChain.LastHashAloneDoesNot` | examples/proof_pack/verify_chain.py:51-64 | The length matters: a single valid entry can report the last hash of a longer chain. |
| `AuditChain.TamperingShowsExactly` | examples/proof_pack/verify_chain.py:81-83 | A changed entry is reported if and only if the concatenation of its five texts changed, up to a collision. |
| `AuditChain.FieldTamperingExactly` | examples/proof_pack/verify_chain.py:51-64 | Field by field: a new previous hash, event type, agent, payload or timestamp is reported if and only if the text of that field changed, up to a collision: a missing hash and a falsy payload are empty, and the two spellings of UTC are one. |
| `AuditChain.MovedCharacterDoesNotShow` | examples/proof_pack/verify_chain.py:57-63 | A change that does not show: a character moved into the next field. |
| `AuditChain.OrderDoesNotMatter` | examples/proof_pack/verify_chain.py:88 | The report is the same for every order of entries with distinct sequence numbers. |
| `AuditChain.OrderMattersOtherwise` | examples/proof_pack/verify_chain.py:88-99 | With a repeated sequence number it can differ. |
| `AuditChain.PrefixStaysValid` | examples/proof_pack/verify_chain.py:90-115 | Every prefix of a valid chain is valid. |
| `AuditChain.SubsetSafe` | examples/proof_pack/verify_chain.py:74-79 | Without linkage every selection of valid entries is valid. |
| `AuditChain.NormalizeTsExactly` | examples/proof_pack/verify_chain.py:38-48 | Two timestamps are hashed alike if and only if they are equal or the two spellings of UTC. |
| `Sorting.SortIsStable` | examples/proof_pack/verify_chain.py:88 | The sort keeps equivalent elements in their order. |
| `Sorting.SortForgetsOrder` | agentveil/auth.py:31 | Sorting gives one result for all orders of the input when no two elements are equivalent. |
| `ClaudeHookSetup.SettingsFile.Install` | packages/agentveil-mcp-proxy/agentveil_mcp_proxy/claude_hook_setup.py:263-321 | The file afterwards and its report; a missing or blank file counts as empty, and one that is not a JSON object is refused and left alone. |
| `ClaudeHookSetup.SettingsFile.Uninstall` | packages/agentveil-mcp-proxy/agentveil_mcp_proxy/claude_hook_setup.py:324-377 | The same for uninstalling; nothing is written when nothing is removed. |
| `ClaudeHookSetup.StripGroups` | packages/agentveil-mcp-proxy/agentveil_mcp_proxy/claude_hook_setup.py:293-299 | The loop with its counter strips every group. |
| `ClaudeHookSetup.StripGroupExactly` | packages/agentveil-mcp-proxy/agentveil_mcp_proxy/claude_hook_setup.py:145-167 | A group loses its managed hooks and nothing else, and goes if and only if it held nothing but managed hooks. |
| `ClaudeHookSetup.StripAllExactly` | packages/agentveil-mcp-proxy/agentveil_mcp_proxy/claude_hook_setup.py:352-362 | The removed count is the number of managed hooks, the others stay in order, and nothing changes if and only if nothing was managed. |
| `ClaudeHookSetup.EntryIsManaged` | packages/agentveil-mcp-proxy/agentveil_mcp_proxy/claude_hook_setup.py:77-112 | The entry that is installed has the matcher and one command hook that runs the module with both options, and is recognised as managed, whatever the paths. |
| `ClaudeHookSetup.ManagedExactly` | packages/agentveil-mcp-proxy/agentveil_mcp_proxy/claude_hook_setup.py:140-142 | A hook is managed if and only if it is an object whose command, as text, holds the name of the module. |
| `ClaudeHookSetup.StripAllFilters` | packages/agentveil-mcp-proxy/agentveil_mcp_proxy/claude_hook_setup.py:293-299 | Stripping leaves the groups in their order, each with its managed hooks filtered out and its other fields kept, without those that held nothing else. |
| `ClaudeHookSetup.InstalledExactly` | packages/agentveil-mcp-proxy/agentveil_mcp_proxy/claude_hook_setup.py:281-310 | Afterwards there is one managed hook, in the last group; before it come those filtered groups, and nothing outside `PreToolUse` has changed. |
| `ClaudeHookSetup.InstallTwice` | packages/agentveil-mcp-proxy/agentveil_mcp_proxy/claude_hook_setup.py:263-321 | Installing again replaces the entry, so installing is idempotent. |
| `ClaudeHookSetup.UninstallUndoesInstallExactly` | packages/agentveil-mcp-proxy/agentveil_mcp_proxy/claude_hook_setup.py:342-377 | Uninstall after install restores the settings if and only if there was no managed hook and no empty or ill-typed container. |

## Left out

- JSON: the order of an object's keys, NaN, the infinities and integers that a double cannot hold, lone surrogates, the
  difference between an int and a float of the same value, and nesting so deep that `json.loads` raises RecursionError,
  which is a second way in which the peek at `schema_version` raises.
- Primitives: the insides of Ed25519, SHA-256, base58, `jcs`, `json`, `shlex` and `datetime`; whether `strftime` pads the
  years before 1000 differs between platforms and is the condition `Readable`.
- Types the signatures rule out: arguments of a wrong Python type, naive datetimes, iterables other than lists,
  packets with a `to_dict`.
- Refusals: the texts of the messages; the model tells a documented refusal from an escaping exception, and the
  checks that tie a packet together are one refusal.
- Config migration: walking the parent directories, file modes, symbolic links, the order of writes across a power loss,
  and the details of `ProxyConfig.from_dict` that do not concern the policy block, which are a predicate. The rules of
  the built-in filesystem pack are a list with distinct ids. A failing `fsync` counts as a
  failing write.
- Edits of the config by programs that do not take the lock are outside `CaPolicyMigration.ConfigAlwaysSafe`; what becomes of
  them is in `CaPolicyEdits`, one edit at a time.
- Hermes config: `isinstance` checks on ill-typed documents, the choice of the Python interpreter and of the environment
  in the document's builder, the round trip of documents with other servers beside `agentveil`, scalars with line breaks,
  and newline translation on reading.
- Circuit breaker: rounding of the clock, and the lock itself; a call is one step because the clock is read inside it.
- Requests: the header text around the signature, which is only formatting.
- Proof of work: difficulties above 256, for which the code indexes past the digest, and the search without a solution,
  which does not end.
- Audit chain: missing keys and ill-typed fields, the command line and the explanatory texts of the report.
- Hook settings: files and directories, git excludes, status and the MCP route; a settings file is what loading it
  yields, and `str(command)` is a function that is the identity on strings.
- `egress.py`, the HTTP clients, the MCP servers, adapters, command lines, reports and tables of tool risks.
