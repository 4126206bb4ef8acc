/** The contract of `verify_proof_packet`, read off the packet's texts: when a packet is accepted, and what follows.
    The ties between the receipts are stated by subject, with literal field names. About proof.py, lines 264 to 443. */
module ProofPacketContract {
  import opened PyText
  import opened PyJson
  import opened Encoding
  import opened Primitives
  import opened Proof
  import opened ProofPacket
  import DataIntegrity
  import Delegation

  // --- The ties ---------------------------------------------------------------------

  function Version(r: Receipt): Json
  {
    Get(r.body, "schema_version")
  }

  /** Each receipt names no schema or one of the three of its kind. */
  predicate KnownVersions(decision: Receipt, approval: Option<Receipt>, execution: Option<Receipt>)
  {
    && Version(decision) in [Null, Str("decision_receipt/1"), Str("decision_receipt/2"), Str("decision_receipt/3")]
    && (approval.Some? ==>
          Version(approval.value)
          in [Null, Str("human_approval_receipt/1"), Str("human_approval_receipt/2"), Str("human_approval_receipt/3")])
    && (execution.Some? ==>
          Version(execution.value)
          in [Null, Str("execution_receipt/1"), Str("execution_receipt/2"), Str("execution_receipt/3")])
  }

  predicate StrictVersion(r: Receipt)
  {
    Version(r) in [Str("execution_receipt/2"), Str("execution_receipt/3"),
                   Str("human_approval_receipt/2"), Str("human_approval_receipt/3")]
  }

  /** The gate's audit is the decision's. */
  predicate OneAudit(packet: Fields, decision: Receipt, approval: Option<Receipt>, execution: Option<Receipt>)
  {
    var audit := Get(decision.body, "audit_id");
    && (Get(packet, "audit_id") == Null || PyEq(Get(packet, "audit_id"), audit))
    && (approval.Some? ==> PyEq(Get(approval.value.body, "gate_audit_id"), audit))
    && (execution.Some? ==> PyEq(Get(execution.value.body, "gate_audit_id"), audit))
  }

  /** Decision and approval name the packet's delegation, or none. */
  predicate OneDelegation(delegationHash: string, decision: Receipt, approval: Option<Receipt>)
  {
    && Get(decision.body, "delegation_receipt_hash") in [Null, Str(delegationHash)]
    && (approval.Some? ==> Get(approval.value.body, "delegation_receipt_hash") in [Null, Str(delegationHash)])
  }

  /** The receipt carries the decision's digest, or it is an old one that carries none. */
  predicate CarriesDigest(r: Receipt, decision: Receipt)
  {
    || Get(r.body, "decision_receipt_hash") == Str(decision.digest)
    || (!StrictVersion(r) && "decision_receipt_hash" !in r.body)
  }

  predicate DigestsChained(decision: Receipt, approval: Option<Receipt>, execution: Option<Receipt>)
  {
    && (approval.Some? ==> CarriesDigest(approval.value, decision))
    && (execution.Some? ==> CarriesDigest(execution.value, decision))
    && (approval.Some? && execution.Some? ==>
          Get(execution.value.body, "approval_receipt_hash") == Str(approval.value.digest))
  }

  /** The receipt repeats a field of the decision, perhaps under another name; an old one may leave it out. */
  predicate Repeats(r: Receipt, name: string, decision: Receipt, field: string)
  {
    || (name in r.body && PyEq(r.body[name], Get(decision.body, field)))
    || (name !in r.body && !StrictVersion(r))
  }

  predicate OneIntent(packet: Fields, decision: Receipt, approval: Option<Receipt>, execution: Option<Receipt>)
  {
    && PyEq(Get(packet, "agent_did"), Get(decision.body, "agent_did"))
    && (approval.Some? ==>
          && Repeats(approval.value, "requester_agent_did", decision, "agent_did")
          && forall name :: name in ["action", "resource", "environment"] ==> Repeats(approval.value, name, decision, name))
    && (execution.Some? ==>
          forall name :: name in ["agent_did", "action", "resource", "environment"] ==>
            Repeats(execution.value, name, decision, name))
  }

  /** The packet's status is what its receipts show, and whatever calls for an approval has one. */
  predicate StatusShown(packet: Fields, decision: Receipt, approval: Option<Receipt>, execution: Option<Receipt>)
  {
    var status, verdict := Get(packet, "outcome_status"), Get(decision.body, "decision");
    && (status == Str("executed") ==> execution.Some?)
    && (status == Str("blocked") ==> execution.None? && verdict == Str("BLOCK"))
    && (status == Str("approval_required") ==> approval.Some? && verdict == Str("WAITING_FOR_HUMAN_APPROVAL"))
    && (approval.None? ==>
          Get(packet, "approval") == Null && (execution.Some? ==> "approval_receipt_hash" !in execution.value.body))
    && (approval.Some? && execution.Some? ==> Get(approval.value.body, "decision") == Str("APPROVED"))
  }

  predicate Tied(packet: Fields, delegationHash: string, decision: Receipt, approval: Option<Receipt>,
                 execution: Option<Receipt>)
  {
    && KnownVersions(decision, approval, execution)
    && OneAudit(packet, decision, approval, execution)
    && OneDelegation(delegationHash, decision, approval)
    && DigestsChained(decision, approval, execution)
    && OneIntent(packet, decision, approval, execution)
    && StatusShown(packet, decision, approval, execution)
  }

  lemma SameVersions(r: Receipt)
    ensures SchemaAllowed(r.body, "decision_receipt")
       <==> Version(r) in [Null, Str("decision_receipt/1"), Str("decision_receipt/2"), Str("decision_receipt/3")]
    ensures SchemaAllowed(r.body, "execution_receipt")
       <==> Version(r) in [Null, Str("execution_receipt/1"), Str("execution_receipt/2"), Str("execution_receipt/3")]
    ensures SchemaAllowed(r.body, "human_approval_receipt")
       <==> Version(r) in [Null, Str("human_approval_receipt/1"), Str("human_approval_receipt/2"),
                           Str("human_approval_receipt/3")]
    ensures StrictExecution(Schema(r.body)) || StrictApproval(Schema(r.body)) <==> StrictVersion(r)
    ensures SchemaAllowed(r.body, "execution_receipt") ==> (StrictExecution(Schema(r.body)) <==> StrictVersion(r))
    ensures SchemaAllowed(r.body, "human_approval_receipt") ==> (StrictApproval(Schema(r.body)) <==> StrictVersion(r))
  {
    hide Get;
    KindNames("decision_receipt", "decision_receipt/1", "decision_receipt/2", "decision_receipt/3");
    KindNames("execution_receipt", "execution_receipt/1", "execution_receipt/2", "execution_receipt/3");
    KindNames("human_approval_receipt", "human_approval_receipt/1", "human_approval_receipt/2", "human_approval_receipt/3");
  }

  lemma KindNames(kind: string, first: string, second: string, third: string)
    requires first == kind + "/1" && second == kind + "/2" && third == kind + "/3"
    ensures forall body :: SchemaAllowed(body, kind)
                      <==> Get(body, "schema_version") in [Null, Str(first), Str(second), Str(third)]
  {
  }

  lemma SameExecution(decision: Receipt, execution: Receipt)
    ensures ExecutionLinked(decision, execution)
       <==> && SchemaAllowed(execution.body, "execution_receipt")
            && PyEq(Get(execution.body, "gate_audit_id"), Get(decision.body, "audit_id"))
            && CarriesDigest(execution, decision)
            && (forall name :: name in ["agent_did", "action", "resource", "environment"] ==>
                  Repeats(execution, name, decision, name))
  {
    SameVersions(execution);
    hide PyEq, SchemaAllowed, StrictExecution, StrictApproval, StrictVersion;
    var names := ["agent_did", "action", "resource", "environment"];
    assert names[0] in names && names[1] in names && names[2] in names && names[3] in names;
  }

  lemma SameApproval(decision: Receipt, approval: Receipt, delegationHash: string)
    ensures ApprovalLinked(decision, approval, delegationHash)
       <==> && SchemaAllowed(approval.body, "human_approval_receipt")
            && PyEq(Get(approval.body, "gate_audit_id"), Get(decision.body, "audit_id"))
            && CarriesDigest(approval, decision)
            && Get(approval.body, "delegation_receipt_hash") in [Null, Str(delegationHash)]
            && Repeats(approval, "requester_agent_did", decision, "agent_did")
            && (forall name :: name in ["action", "resource", "environment"] ==>
                  Repeats(approval, name, decision, name))
  {
    SameVersions(approval);
    hide PyEq, SchemaAllowed, StrictExecution, StrictApproval, StrictVersion;
    var names := ["action", "resource", "environment"];
    assert names[0] in names && names[1] in names && names[2] in names;
  }

  lemma SameDecision(packet: Fields, decision: Receipt, executed: bool, delegationHash: string)
    ensures var status, verdict := Get(packet, "outcome_status"), Get(decision.body, "decision");
            DecisionLinked(packet, decision, executed, delegationHash)
            <==>
            && SchemaAllowed(decision.body, "decision_receipt")
            && PyEq(Get(packet, "agent_did"), Get(decision.body, "agent_did"))
            && (Get(packet, "audit_id") == Null || PyEq(Get(packet, "audit_id"), Get(decision.body, "audit_id")))
            && Get(decision.body, "delegation_receipt_hash") in [Null, Str(delegationHash)]
            && (status == Str("executed") ==> executed)
            && (status == Str("blocked") ==> !executed && verdict == Str("BLOCK"))
            && (status == Str("approval_required") ==> verdict == Str("WAITING_FOR_HUMAN_APPROVAL"))
  {
    hide PyEq, SchemaAllowed, Get;
  }

  /** What the code checks receipt by receipt is what the ties say by subject. */
  lemma TiesExactly(packet: Fields, delegationHash: string, decision: Receipt, approval: Option<Receipt>,
                    execution: Option<Receipt>)
    ensures Linked(packet, decision, approval, execution, delegationHash)
       <==> Tied(packet, delegationHash, decision, approval, execution)
  {
    hide PyEq, SchemaAllowed, CarriesDigest, Repeats, StrictVersion, DecisionLinked, ExecutionLinked, ApprovalLinked, Get;
    SameVersions(decision);
    SameDecision(packet, decision, execution.Some?, delegationHash);
    if execution.Some? {
      SameVersions(execution.value);
      SameExecution(decision, execution.value);
    }
    if approval.Some? {
      SameVersions(approval.value);
      SameApproval(decision, approval.value, delegationHash);
    }
  }

  // --- The packet -------------------------------------------------------------------

  /** What a receipt's text says, read without looking at its signature. */
  function ReceiptIn(c: Suite, text: Json): Receipt
  {
    Receipt(DataIntegrity.Parsed(c, TextOf(text)) - {"proof"}, NamedSigner(c, TextOf(text)),
            Hex(c.sha256(Utf8(TextOf(text)))))
  }

  function OptionalIn(c: Suite, text: Json): Option<Receipt>
  {
    if text == Null then None else Some(ReceiptIn(c, text))
  }

  /** A text from a signer on the list that counts for its kind. */
  predicate FromListed(c: Suite, text: Json, listed: seq<Json>)
  {
    Genuine(c, text) && Str(NamedSigner(c, TextOf(text))) in listed
  }

  lemma OptionalExactly(c: Suite, packet: Fields, key: string, trusted: set<string>, listed: seq<Json>)
    requires var signer := NamedSigner(c, TextOf(Get(packet, key))); signer in trusted <==> Str(signer) in listed
    ensures var r, text := OptionalReceipt(c, packet, key, trusted), Get(packet, key);
            && (r.Ok? <==> text == Null || FromListed(c, text, listed))
            && (r.Ok? ==> r.value == OptionalIn(c, text))
  {
    var text := Get(packet, key);
    BackendExactly(c, text, trusted);
    if BackendReceipt(c, text, trusted).Ok? {
      BackendFacts(c, text, trusted);
    }
    hide BackendReceipt, Genuine, NamedSigner, Hex, Utf8, DataIntegrity.Parsed;
  }

  /** Every receipt there is comes from a listed signer, and a decision is there. */
  predicate AllFromListed(c: Suite, packet: Fields, lists: TrustLists)
  {
    var approval, execution := Get(packet, "approval_receipt_jcs"), Get(packet, "execution_receipt_jcs");
    && FromListed(c, Get(packet, "decision_receipt_jcs"), Effective(lists.decision, lists.backend))
    && (approval == Null || FromListed(c, approval, Effective(lists.approval, lists.backend)))
    && (execution == Null || FromListed(c, execution, Effective(lists.execution, lists.backend)))
  }

  /** What the packet's texts say, and the digest of its delegation. */
  function Said(c: Suite, packet: Fields): Verdict
  {
    Verdict(ReceiptIn(c, Get(packet, "decision_receipt_jcs")), OptionalIn(c, Get(packet, "approval_receipt_jcs")),
            OptionalIn(c, Get(packet, "execution_receipt_jcs")),
            Hex(c.sha256(Utf8(c.jcs(Get(packet, "delegation_receipt"))))))
  }

  lemma ReceiptsExactly(c: Suite, packet: Fields, lists: TrustLists)
    requires NormalizeTrust(lists).Some?
    ensures var r := VerifyReceipts(c, packet, NormalizeTrust(lists).value);
            (r.Ok? <==> AllFromListed(c, packet, lists)) && (r.Ok? ==> r.value == Said(c, packet))
  {
    assert !Genuine(c, Null);
    hide ReceiptIn, NormalizeTrust, Effective, OptionalReceipt, Strings, Genuine, Get, Hex, Utf8, NamedSigner;
    TrustedExactly(lists, NamedSigner(c, TextOf(Get(packet, "decision_receipt_jcs"))));
    TrustedExactly(lists, NamedSigner(c, TextOf(Get(packet, "approval_receipt_jcs"))));
    TrustedExactly(lists, NamedSigner(c, TextOf(Get(packet, "execution_receipt_jcs"))));
    var trust := NormalizeTrust(lists).value;
    OptionalExactly(c, packet, "decision_receipt_jcs", trust.decision, Effective(lists.decision, lists.backend));
    OptionalExactly(c, packet, "approval_receipt_jcs", trust.approval, Effective(lists.approval, lists.backend));
    OptionalExactly(c, packet, "execution_receipt_jcs", trust.execution, Effective(lists.execution, lists.backend));
  }

  /** A packet is accepted exactly when each kind of receipt has a trusted signer, the delegation was valid at some
      time, every receipt there is comes from a listed signer, a decision is there, and what the texts say is tied
      together. It is accepted as what its texts say. */
  lemma PacketExactly(c: Suite, packet: Fields, lists: TrustLists, wall: int)
    ensures var r, said, delegation :=
              VerifyProofPacket(c, Obj(packet), lists, wall), Said(c, packet), Get(packet, "delegation_receipt");
            && (r.Ok? <==>
                  && Strings(Effective(lists.decision, lists.backend)) != {}
                  && Strings(Effective(lists.approval, lists.backend)) != {}
                  && Strings(Effective(lists.execution, lists.backend)) != {}
                  && delegation.Obj? && (exists clock :: Delegation.VerifyDelegation(c, delegation, Some(clock), wall).Ok?)
                  && AllFromListed(c, packet, lists)
                  && Tied(packet, said.delegationHash, said.decision, said.approval, said.execution))
            && (r.Ok? ==> r.value == said)
  {
    hide Delegation.VerifyDelegation, HistoricalVerify, Linked, Tied, Said, NormalizeTrust, Effective, VerifyReceipts, Strings,
      AllFromListed;
    TrustedExactly(lists, "");
    if DelegationOf(packet).Obj? {
      HistoricalExactly(c, DelegationOf(packet).fields, wall);
    }
    if NormalizeTrust(lists).Some? {
      var said := Said(c, packet);
      ReceiptsExactly(c, packet, lists);
      TiesExactly(packet, said.delegationHash, said.decision, said.approval, said.execution);
    }
  }

  // --- What follows -------------------------------------------------------------------

  /** The packet's receipt of this kind is what a signer listed for it has secured, or there is none on either side. */
  predicate HonestReceipt(c: Suite, packet: Fields, key: string, s: Option<Signing>, listed: seq<Json>)
  {
    match s
    case None => Get(packet, key) == Null
    case Some(signing) =>
      && Signable(signing) && Get(packet, key) == Str(SecuredText(c, signing)) && Str(SignerDid(c, signing)) in listed
  }

  function ReceiptOf(c: Suite, s: Option<Signing>): Option<Receipt>
  {
    if s.Some? then Some(SecuredReceipt(c, s.value)) else None
  }

  lemma HonestReceiptListed(c: Suite, packet: Fields, key: string, s: Option<Signing>, listed: seq<Json>)
    requires JcsParses(c) && Base58Decodes(c) && SignaturesVerify(c)
    requires HonestReceipt(c, packet, key, s, listed)
    ensures var text := Get(packet, key);
            (s.None? <==> text == Null) && (s.Some? ==> FromListed(c, text, listed)) && OptionalIn(c, text) == ReceiptOf(c, s)
  {
    hide BackendReceipt, SecuredText, SignerDid, JcsParses, Base58Decodes, SignaturesVerify, SecuredReceipt, Genuine, Signable,
      NamedSigner, Hex, Utf8;
    if s.Some? {
      var signer, text := SignerDid(c, s.value), Str(SecuredText(c, s.value));
      SignedReceiptAccepted(c, s.value, {signer});
      BackendExactly(c, text, {signer});
      BackendFacts(c, text, {signer});
      assert ReceiptIn(c, text) == SecuredReceipt(c, s.value);
    }
  }

  /** What listed signers secure under the /3 schemas, with or without approval and execution, with a delegation that is
      valid at some time, is accepted exactly when the secured documents are tied together. */
  lemma HonestPacketExactly(c: Suite, packet: Fields, lists: TrustLists, wall: int, clock: int,
                            decision: Signing, approval: Option<Signing>, execution: Option<Signing>)
    requires JcsParses(c) && Base58Decodes(c) && SignaturesVerify(c)
    requires var delegation := Get(packet, "delegation_receipt");
             delegation.Obj? && Delegation.VerifyDelegation(c, delegation, Some(clock), wall).Ok?
    requires NormalizeTrust(lists).Some?
    requires HonestReceipt(c, packet, "decision_receipt_jcs", Some(decision), Effective(lists.decision, lists.backend))
    requires HonestReceipt(c, packet, "approval_receipt_jcs", approval, Effective(lists.approval, lists.backend))
    requires HonestReceipt(c, packet, "execution_receipt_jcs", execution, Effective(lists.execution, lists.backend))
    ensures var hash := Hex(c.sha256(Utf8(c.jcs(Get(packet, "delegation_receipt")))));
            VerifyProofPacket(c, Obj(packet), lists, wall).Ok?
            <==> Tied(packet, hash, SecuredReceipt(c, decision), ReceiptOf(c, approval), ReceiptOf(c, execution))
  {
    hide Tied, Delegation.VerifyDelegation, VerifyProofPacket, NormalizeTrust, Effective, HonestReceipt, FromListed, ReceiptIn;
    hide Strings, SecuredReceipt, JcsParses, Base58Decodes, SignaturesVerify, Hex, Utf8;
    PacketExactly(c, packet, lists, wall);
    TrustedExactly(lists, "");
    HonestReceiptListed(c, packet, "decision_receipt_jcs", Some(decision), Effective(lists.decision, lists.backend));
    HonestReceiptListed(c, packet, "approval_receipt_jcs", approval, Effective(lists.approval, lists.backend));
    HonestReceiptListed(c, packet, "execution_receipt_jcs", execution, Effective(lists.execution, lists.backend));
  }

  /** Agent, action, resource and environment are the same. */
  predicate SameIntent(a: Fields, agentA: string, b: Fields, agentB: string)
  {
    && PyEq(Get(a, agentA), Get(b, agentB)) && PyEq(Get(a, "action"), Get(b, "action"))
    && PyEq(Get(a, "resource"), Get(b, "resource")) && PyEq(Get(a, "environment"), Get(b, "environment"))
  }

  lemma StrictRepeats(r: Receipt, agent: string, decision: Receipt)
    requires StrictVersion(r) && Repeats(r, agent, decision, "agent_did")
    requires forall name :: name in ["action", "resource", "environment"] ==> Repeats(r, name, decision, name)
    ensures SameIntent(r.body, agent, decision.body, "agent_did")
  {
    hide PyEq, StrictVersion;
    var names := ["action", "resource", "environment"];
    assert names[0] in names && names[1] in names && names[2] in names;
  }

  /** One audit, one approval, one delegation, and under the strict schemas one intent of the packet's own agent. */
  predicate OneStoryTold(packet: Fields, decision: Receipt, approval: Receipt, execution: Receipt)
  {
    var d, a, e := decision.body, approval.body, execution.body;
    && PyEq(Get(e, "gate_audit_id"), Get(d, "audit_id")) && PyEq(Get(a, "gate_audit_id"), Get(d, "audit_id"))
    && PyEq(Get(e, "gate_audit_id"), Get(a, "gate_audit_id"))
    && Get(e, "approval_receipt_hash") == Str(approval.digest) && Get(a, "decision") == Str("APPROVED")
    && (Get(a, "delegation_receipt_hash") != Null && Get(d, "delegation_receipt_hash") != Null ==>
          Get(a, "delegation_receipt_hash") == Get(d, "delegation_receipt_hash"))
    && (StrictVersion(execution) ==>
          PyEq(Get(packet, "agent_did"), Get(e, "agent_did")) && SameIntent(e, "agent_did", d, "agent_did"))
    && (StrictVersion(approval) ==> PyEq(Get(packet, "agent_did"), Get(a, "requester_agent_did")))
    && (StrictVersion(execution) && StrictVersion(approval) ==> SameIntent(e, "agent_did", a, "requester_agent_did"))
  }

  lemma TiedTellsOneStory(packet: Fields, delegationHash: string, decision: Receipt, approval: Receipt, execution: Receipt)
    requires Tied(packet, delegationHash, decision, Some(approval), Some(execution))
    ensures OneStoryTold(packet, decision, approval, execution)
  {
    hide Repeats, StrictVersion, Plain, KnownVersions, CarriesDigest, Get;
    if StrictVersion(execution) {
      StrictRepeats(execution, "agent_did", decision);
    }
    if StrictVersion(approval) {
      StrictRepeats(approval, "requester_agent_did", decision);
    }
  }

  /** The receipts of an accepted packet with approval and execution tell one story, also where the code compares them
      only by way of the decision. */
  lemma OneStory(c: Suite, packet: Fields, lists: TrustLists, wall: int)
    requires VerifyProofPacket(c, Obj(packet), lists, wall).Ok?
    requires Get(packet, "approval_receipt_jcs") != Null && Get(packet, "execution_receipt_jcs") != Null
    ensures OneStoryTold(packet, ReceiptIn(c, Get(packet, "decision_receipt_jcs")),
                         ReceiptIn(c, Get(packet, "approval_receipt_jcs")), ReceiptIn(c, Get(packet, "execution_receipt_jcs")))
  {
    hide VerifyProofPacket, ReceiptIn, Tied, OneStoryTold, AllFromListed, Get;
    PacketExactly(c, packet, lists, wall);
    var said := Said(c, packet);
    TiedTellsOneStory(packet, said.delegationHash, said.decision, said.approval.value, said.execution.value);
  }
}
