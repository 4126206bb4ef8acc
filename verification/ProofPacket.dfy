/** Whole proof packets: trusted signers, the delegation's history and the links between the receipts. Models
    `_normalize_trust_map`, `_historical_delegation_verify`, `_check_shared_intent` and
    `verify_proof_packet` in proof.py. */
module ProofPacket {
  import opened PyText
  import opened PyJson
  import opened Encoding
  import opened Primitives
  import opened Proof
  import Delegation

  // --- Trust --------------------------------------------------------------------

  /** The caller's lists of signer DIDs; an element need not be a string. */
  datatype TrustLists = TrustLists(backend: Option<seq<Json>>, decision: Option<seq<Json>>,
                                   execution: Option<seq<Json>>, approval: Option<seq<Json>>)

  datatype Trust = Trust(decision: set<string>, execution: set<string>, approval: set<string>)

  function Strings(dids: seq<Json>): set<string>
  {
    set did | did in dids && did.Str? :: did.s
  }

  /** `{did for did in (given or fallback) if isinstance(did, str)}` */
  function Signers(given: Option<seq<Json>>, fallback: set<string>): set<string>
  {
    if given.None? || given.value == [] then fallback else Strings(given.value)
  }

  /** `_normalize_trust_map` */
  function NormalizeTrust(lists: TrustLists): Option<Trust>
  {
    var fallback := if lists.backend.Some? then Strings(lists.backend.value) else {};
    var trust := Trust(Signers(lists.decision, fallback), Signers(lists.execution, fallback),
                       Signers(lists.approval, fallback));
    if trust.decision == {} || trust.execution == {} || trust.approval == {} then None else Some(trust)
  }

  /** The list that counts for one kind of receipt: its own, or the backend's when that is missing or empty. */
  function Effective(given: Option<seq<Json>>, backend: Option<seq<Json>>): seq<Json>
  {
    if given.Some? && given.value != [] then given.value else if backend.Some? then backend.value else []
  }

  /** Each kind trusts exactly the strings of the list that counts for it, and none may be left without. */
  lemma TrustedExactly(lists: TrustLists, did: string)
    ensures var trust := NormalizeTrust(lists);
            var decision, execution, approval := Effective(lists.decision, lists.backend),
                                                 Effective(lists.execution, lists.backend),
                                                 Effective(lists.approval, lists.backend);
            && (trust.None? <==> Strings(decision) == {} || Strings(execution) == {} || Strings(approval) == {})
            && (trust.Some? ==>
                  && (did in trust.value.decision <==> Str(did) in decision)
                  && (did in trust.value.execution <==> Str(did) in execution)
                  && (did in trust.value.approval <==> Str(did) in approval))
  {
    StringsMembers(Effective(lists.decision, lists.backend), did);
    StringsMembers(Effective(lists.execution, lists.backend), did);
    StringsMembers(Effective(lists.approval, lists.backend), did);
    assert Strings([]) == {};
    hide Strings;
  }

  lemma StringsMembers(dids: seq<Json>, did: string)
    ensures did in Strings(dids) <==> Str(did) in dids
  {
    if Str(did) in dids {
      var j := Str(did);
      assert j in dids && j.Str? && j.s == did;
    }
  }

  // --- The delegation, at any time in its past ------------------------------------------

  /** `_historical_delegation_verify`: the clock is set to the receipt's own `validFrom`. */
  function HistoricalVerify(c: Suite, receipt: Fields, wall: int): Result<Delegation.Accepted, Failure>
  {
    var from := Delegation.ParseTime(c, Get(receipt, "validFrom"));
    var now := if from.Some? then Some(from.value * Delegation.SECOND) else None;
    Delegation.VerifyDelegation(c, Obj(receipt), now, wall)
  }

  /** The historical check accepts exactly the receipts that were, or will be, acceptable at some time. */
  lemma HistoricalExactly(c: Suite, receipt: Fields, wall: int)
    ensures HistoricalVerify(c, receipt, wall).Ok?
        <==> exists clock :: Delegation.VerifyDelegation(c, Obj(receipt), Some(clock), wall).Ok?
  {
    ClaimTimes(c, receipt);
    hide Delegation.ReadClaims, Delegation.CheckProof;
    var from := Delegation.ParseTime(c, Get(receipt, "validFrom"));
    if from.Some? {
      var now := from.value * Delegation.SECOND;
      WholeSecond(from.value);
      assert HistoricalVerify(c, receipt, wall) == Delegation.VerifyDelegation(c, Obj(receipt), Some(now), wall);
    }
  }

  lemma WholeSecond(t: int)
    ensures Delegation.Floor(t * Delegation.SECOND) == t
  {
  }

  lemma ClaimTimes(c: Suite, receipt: Fields)
    ensures var claims := Delegation.ReadClaims(c, receipt);
            claims.Ok? ==>
              && Delegation.ParseTime(c, Get(receipt, "validFrom")) == Some(claims.value.validFrom)
              && claims.value.validFrom < claims.value.validUntil
  {
    hide Delegation.HeadersValid, Delegation.IssuerKey, Delegation.ReadSubject, Delegation.ParseTime;
  }

  // --- Links ------------------------------------------------------------------------

  predicate StrictExecution(schema: Json)
  {
    schema == Str("execution_receipt/2") || schema == Str("execution_receipt/3")
  }

  predicate StrictApproval(schema: Json)
  {
    schema == Str("human_approval_receipt/2") || schema == Str("human_approval_receipt/3")
  }

  function Schema(body: Fields): Json
  {
    Get(body, "schema_version")
  }

  /** `_check_schema_version` passes. */
  predicate SchemaAllowed(body: Fields, kind: string)
  {
    var schema := Schema(body);
    schema == Null || schema == Str(kind + "/1") || schema == Str(kind + "/2") || schema == Str(kind + "/3")
  }

  predicate FieldMatches(decision: Fields, other: Fields, required: bool, field: string, otherField: string)
  {
    if otherField in other then PyEq(other[otherField], Get(decision, field)) else !required
  }

  /** `_check_shared_intent` passes. */
  predicate SharedIntent(decision: Fields, other: Fields, approval: bool)
  {
    var required := StrictExecution(Schema(other)) || StrictApproval(Schema(other));
    && FieldMatches(decision, other, required, "agent_did", if approval then "requester_agent_did" else "agent_did")
    && FieldMatches(decision, other, required, "action", "action")
    && FieldMatches(decision, other, required, "resource", "resource")
    && FieldMatches(decision, other, required, "environment", "environment")
  }

  predicate DecisionLinked(packet: Fields, decision: Receipt, executed: bool, delegationHash: string)
  {
    var outcome, body := Get(packet, "outcome_status"), decision.body;
    && SchemaAllowed(body, "decision_receipt")
    && (outcome == Str("executed") ==> executed)
    && (outcome == Str("blocked") ==> Get(body, "decision") == Str("BLOCK") && !executed)
    && (outcome == Str("approval_required") ==> Get(body, "decision") == Str("WAITING_FOR_HUMAN_APPROVAL"))
    && PyEq(Get(packet, "agent_did"), Get(body, "agent_did"))
    && (Get(packet, "audit_id") != Null ==> PyEq(Get(packet, "audit_id"), Get(body, "audit_id")))
    && HashMatches(body, delegationHash)
  }

  /** A `delegation_receipt_hash` that is there and not null is the packet's. */
  predicate HashMatches(body: Fields, delegationHash: string)
  {
    var hash := Get(body, "delegation_receipt_hash");
    hash != Null ==> hash == Str(delegationHash)
  }

  predicate NamesDecision(body: Fields, strict: bool, decision: Receipt)
  {
    && (strict || "decision_receipt_hash" in body ==> Get(body, "decision_receipt_hash") == Str(decision.digest))
    && PyEq(Get(body, "gate_audit_id"), Get(decision.body, "audit_id"))
  }

  predicate ExecutionLinked(decision: Receipt, execution: Receipt)
  {
    && SchemaAllowed(execution.body, "execution_receipt")
    && NamesDecision(execution.body, StrictExecution(Schema(execution.body)), decision)
    && SharedIntent(decision.body, execution.body, false)
  }

  predicate ApprovalLinked(decision: Receipt, approval: Receipt, delegationHash: string)
  {
    && SchemaAllowed(approval.body, "human_approval_receipt")
    && NamesDecision(approval.body, StrictApproval(Schema(approval.body)), decision)
    && HashMatches(approval.body, delegationHash)
    && SharedIntent(decision.body, approval.body, true)
  }

  predicate ApprovalPath(packet: Fields, execution: Option<Receipt>)
  {
    || Get(packet, "outcome_status") == Str("approval_required")
    || (execution.Some? && "approval_receipt_hash" in execution.value.body)
    || Get(packet, "approval") != Null
  }

  predicate Linked(packet: Fields, decision: Receipt, approval: Option<Receipt>, execution: Option<Receipt>,
                   delegationHash: string)
  {
    && DecisionLinked(packet, decision, execution.Some?, delegationHash)
    && (execution.Some? ==> ExecutionLinked(decision, execution.value))
    && (approval.Some? ==> ApprovalLinked(decision, approval.value, delegationHash))
    && (ApprovalPath(packet, execution) ==> approval.Some?)
    && (execution.Some? && approval.Some? ==>
          && Get(execution.value.body, "approval_receipt_hash") == Str(approval.value.digest)
          && Get(approval.value.body, "decision") == Str("APPROVED"))
  }

  // --- The packet -------------------------------------------------------------------

  datatype Verdict = Verdict(decision: Receipt, approval: Option<Receipt>, execution: Option<Receipt>,
                             delegationHash: string)

  /** `_verify_optional_backend_receipt` */
  function OptionalReceipt(c: Suite, packet: Fields, key: string, trusted: set<string>): Result<Option<Receipt>, Failure>
  {
    if Get(packet, key) == Null then Ok(None)
    else
      match BackendReceipt(c, Get(packet, key), trusted)
      case Err(e) => Err(e)
      case Ok(r) => Ok(Some(r))
  }

  function DelegationOf(packet: Fields): Json
  {
    Get(packet, "delegation_receipt")
  }

  function DelegationHash(c: Suite, packet: Fields): string
  {
    TextDigest(c, c.jcs(DelegationOf(packet)))
  }

  function VerifyReceipts(c: Suite, packet: Fields, trust: Trust): Result<Verdict, Failure>
  {
    match OptionalReceipt(c, packet, "decision_receipt_jcs", trust.decision)
    case Err(e) => Err(e)
    case Ok(decision) =>
      match OptionalReceipt(c, packet, "approval_receipt_jcs", trust.approval)
      case Err(e) => Err(e)
      case Ok(approval) =>
        match OptionalReceipt(c, packet, "execution_receipt_jcs", trust.execution)
        case Err(e) => Err(e)
        case Ok(execution) =>
          if decision.None? then Err(Refused("proof packet missing DecisionReceipt"))
          else Ok(Verdict(decision.value, approval, execution, DelegationHash(c, packet)))
  }

  /** `verify_proof_packet` */
  function VerifyProofPacket(c: Suite, packet: Json, lists: TrustLists, wall: int): Result<Verdict, Failure>
  {
    match NormalizeTrust(lists)
    case None => Err(Refused("trusted signer DID(s) are required"))
    case Some(trust) =>
      if !packet.Obj? || !DelegationOf(packet.fields).Obj? then Err(Refused("packet"))
      else
        match HistoricalVerify(c, DelegationOf(packet.fields).fields, wall)
        case Err(e) => Err(e)
        case Ok(_) =>
          match VerifyReceipts(c, packet.fields, trust)
          case Err(e) => Err(e)
          case Ok(v) =>
            if Linked(packet.fields, v.decision, v.approval, v.execution, v.delegationHash) then Ok(v)
            else Err(Refused("linkage"))
  }

  // --- What an accepted packet is ------------------------------------------------------

  ghost predicate GenuineIfPresent(c: Suite, packet: Fields, key: string, trusted: set<string>, r: Option<Receipt>)
  {
    var text := Get(packet, key);
    && (r.Some? <==> text != Null)
    && (r.Some? ==>
          && text.Str? && SignedByTrusted(c, text, trusted)
          && r.value == Receipt(BodyOf(c, text), NamedSigner(c, text.s), TextDigest(c, text.s)))
  }

  lemma OptionalFacts(c: Suite, packet: Fields, key: string, trusted: set<string>)
    requires OptionalReceipt(c, packet, key, trusted).Ok?
    ensures GenuineIfPresent(c, packet, key, trusted, OptionalReceipt(c, packet, key, trusted).value)
  {
    hide BackendReceipt, SignedByTrusted, TextDigest, BodyOf, NamedSigner;
    if Get(packet, key) != Null {
      BackendFacts(c, Get(packet, key), trusted);
    }
  }

  /** Every receipt of an accepted packet is signed by a DID trusted for its kind, the delegation was valid
      at some time, and the links hold between what the texts say. */
  lemma AcceptedPacket(c: Suite, packet: Json, lists: TrustLists, wall: int)
    requires VerifyProofPacket(c, packet, lists, wall).Ok?
    ensures packet.Obj? && DelegationOf(packet.fields).Obj? && NormalizeTrust(lists).Some?
    ensures exists clock :: Delegation.VerifyDelegation(c, DelegationOf(packet.fields), Some(clock), wall).Ok?
    ensures var v, trust, p := VerifyProofPacket(c, packet, lists, wall).value, NormalizeTrust(lists).value, packet.fields;
            && GenuineIfPresent(c, p, "decision_receipt_jcs", trust.decision, Some(v.decision))
            && GenuineIfPresent(c, p, "approval_receipt_jcs", trust.approval, v.approval)
            && GenuineIfPresent(c, p, "execution_receipt_jcs", trust.execution, v.execution)
            && v.delegationHash == DelegationHash(c, p)
            && Linked(p, v.decision, v.approval, v.execution, v.delegationHash)
  {
    hide HistoricalVerify, Linked, OptionalReceipt, GenuineIfPresent, Delegation.VerifyDelegation, DelegationHash;
    hide NormalizeTrust;
    var p, trust := packet.fields, NormalizeTrust(lists).value;
    HistoricalExactly(c, DelegationOf(p).fields, wall);
    OptionalFacts(c, p, "decision_receipt_jcs", trust.decision);
    OptionalFacts(c, p, "approval_receipt_jcs", trust.approval);
    OptionalFacts(c, p, "execution_receipt_jcs", trust.execution);
  }

  /** A text signed by a DID trusted for its kind. */
  ghost predicate Vouched(c: Suite, text: Json, trusted: set<string>)
  {
    text.Str? && SignedByTrusted(c, text, trusted)
  }

  /** In an accepted packet a status is backed by signed texts: `executed` by an execution receipt, `blocked` by a
      decision that says BLOCK and by no execution receipt, `approval_required` by a decision that waits and an
      approval receipt. */
  lemma StatusIsBacked(c: Suite, packet: Json, lists: TrustLists, wall: int)
    requires VerifyProofPacket(c, packet, lists, wall).Ok?
    ensures packet.Obj? && NormalizeTrust(lists).Some?
    ensures var p, trust := packet.fields, NormalizeTrust(lists).value;
            var decision, approval, execution :=
              Get(p, "decision_receipt_jcs"), Get(p, "approval_receipt_jcs"), Get(p, "execution_receipt_jcs");
            var status, verdict := Get(p, "outcome_status"), Get(BodyOf(c, decision), "decision");
            && Vouched(c, decision, trust.decision)
            && (status == Str("executed") ==> Vouched(c, execution, trust.execution))
            && (status == Str("blocked") ==> verdict == Str("BLOCK") && execution == Null)
            && (status == Str("approval_required") ==>
                  verdict == Str("WAITING_FOR_HUMAN_APPROVAL") && Vouched(c, approval, trust.approval))
  {
    AcceptedPacket(c, packet, lists, wall);
    hide VerifyProofPacket, NormalizeTrust, SignedByTrusted, TextDigest, BodyOf, NamedSigner, DelegationHash;
    hide SharedIntent, SchemaAllowed, NamesDecision, HashMatches, PyEq, ExecutionLinked, ApprovalLinked;
  }

  /** An accepted packet with an execution receipt has an approval receipt exactly when the execution receipt has a
      field for its hash. */
  lemma ApprovalExactly(c: Suite, packet: Json, lists: TrustLists, wall: int)
    requires VerifyProofPacket(c, packet, lists, wall).Ok?
    ensures packet.Obj?
    ensures var execution := Get(packet.fields, "execution_receipt_jcs");
            execution != Null ==>
              (Get(packet.fields, "approval_receipt_jcs") != Null
               <==> "approval_receipt_hash" in BodyOf(c, execution))
  {
    AcceptedPacket(c, packet, lists, wall);
    hide VerifyProofPacket, NormalizeTrust, SignedByTrusted, TextDigest, BodyOf, NamedSigner, DelegationHash;
    hide SharedIntent, SchemaAllowed, NamesDecision, HashMatches, PyEq, DecisionLinked, ExecutionLinked, ApprovalLinked;
  }

  /** Does this execution receipt have to name its decision? */
  predicate NamesItsDecision(c: Suite, execution: Json)
  {
    var body := BodyOf(c, execution);
    StrictExecution(Schema(body)) || "decision_receipt_hash" in body
  }

  ghost predicate SameTextOrCollision(c: Suite, a: Json, b: Json)
  {
    a == b || ShaCollision(c, Utf8(TextOf(a)), Utf8(TextOf(b)))
  }

  /** The execution receipt pins the packet. Whoever is trusted and whenever they are verified, two accepted
      packets with one execution receipt that names its decision have the same decision text and the same
      approval text or none, up to a collision of the very texts; with the same decision text goes the same
      agent, and with a delegation hash in it the same delegation. */
  lemma ExecutionPinsPacket(c: Suite, packet1: Json, lists1: TrustLists, wall1: int,
                            packet2: Json, lists2: TrustLists, wall2: int)
    requires VerifyProofPacket(c, packet1, lists1, wall1).Ok? && VerifyProofPacket(c, packet2, lists2, wall2).Ok?
    requires packet1.Obj? && packet2.Obj?
    requires var execution := Get(packet1.fields, "execution_receipt_jcs");
             && execution != Null && execution == Get(packet2.fields, "execution_receipt_jcs")
             && NamesItsDecision(c, execution)
    ensures var p1, p2 := packet1.fields, packet2.fields;
            var decision1, decision2 := Get(p1, "decision_receipt_jcs"), Get(p2, "decision_receipt_jcs");
            var approval1, approval2 := Get(p1, "approval_receipt_jcs"), Get(p2, "approval_receipt_jcs");
            && SameTextOrCollision(c, decision1, decision2)
            && (approval1 == Null <==> approval2 == Null)
            && SameTextOrCollision(c, approval1, approval2)
            && (decision1 == decision2 ==>
                  && PyEq(Get(p1, "agent_did"), Get(p2, "agent_did"))
                  && (JcsParses(c) && Get(BodyOf(c, decision1), "delegation_receipt_hash") != Null ==>
                        DelegationOf(p1) == DelegationOf(p2)
                        || ShaCollision(c, Utf8(c.jcs(DelegationOf(p1))), Utf8(c.jcs(DelegationOf(p2))))))
  {
    AcceptedPacket(c, packet1, lists1, wall1);
    AcceptedPacket(c, packet2, lists2, wall2);
    var v1, v2 := VerifyProofPacket(c, packet1, lists1, wall1).value, VerifyProofPacket(c, packet2, lists2, wall2).value;
    hide VerifyProofPacket, TextDigest, BodyOf, SignedByTrusted, SharedIntent, SchemaAllowed, ShaCollision, JcsParses;
    SamePinned(c, packet1.fields, v1, packet2.fields, v2);
  }

  /** The parts of two accepted packets that the pinning needs. */
  ghost predicate Pinning(c: Suite, p: Fields, v: Verdict)
  {
    var decision, approval, execution :=
      Get(p, "decision_receipt_jcs"), Get(p, "approval_receipt_jcs"), Get(p, "execution_receipt_jcs");
    && decision.Str? && v.decision.body == BodyOf(c, decision) && v.decision.digest == TextDigest(c, decision.s)
    && (v.approval.Some? <==> approval != Null)
    && (v.approval.Some? ==> approval.Str? && v.approval.value.digest == TextDigest(c, approval.s))
    && (v.execution.Some? <==> execution != Null)
    && (v.execution.Some? ==> v.execution.value.body == BodyOf(c, execution))
    && v.delegationHash == DelegationHash(c, p)
    && Linked(p, v.decision, v.approval, v.execution, v.delegationHash)
  }

  lemma SamePinned(c: Suite, p1: Fields, v1: Verdict, p2: Fields, v2: Verdict)
    requires Pinning(c, p1, v1) && Pinning(c, p2, v2)
    requires var execution := Get(p1, "execution_receipt_jcs");
             && execution != Null && execution == Get(p2, "execution_receipt_jcs") && NamesItsDecision(c, execution)
    ensures var decision1, decision2 := Get(p1, "decision_receipt_jcs"), Get(p2, "decision_receipt_jcs");
            var approval1, approval2 := Get(p1, "approval_receipt_jcs"), Get(p2, "approval_receipt_jcs");
            && SameTextOrCollision(c, decision1, decision2)
            && (approval1 == Null <==> approval2 == Null)
            && SameTextOrCollision(c, approval1, approval2)
            && (decision1 == decision2 ==>
                  && PyEq(Get(p1, "agent_did"), Get(p2, "agent_did"))
                  && (JcsParses(c) && Get(BodyOf(c, decision1), "delegation_receipt_hash") != Null ==>
                        DelegationOf(p1) == DelegationOf(p2)
                        || ShaCollision(c, Utf8(c.jcs(DelegationOf(p1))), Utf8(c.jcs(DelegationOf(p2))))))
  {
    hide TextDigest, BodyOf, SharedIntent, SchemaAllowed, JcsParses;
    var decision1, decision2 := Get(p1, "decision_receipt_jcs"), Get(p2, "decision_receipt_jcs");
    var approval1, approval2 := Get(p1, "approval_receipt_jcs"), Get(p2, "approval_receipt_jcs");
    DigestsTell(c, decision1.s, decision2.s);
    if v1.approval.Some? && v2.approval.Some? {
      DigestsTell(c, approval1.s, approval2.s);
    }
    if decision1 == decision2 && JcsParses(c) && Get(BodyOf(c, decision1), "delegation_receipt_hash") != Null {
      DigestsTell(c, c.jcs(DelegationOf(p1)), c.jcs(DelegationOf(p2)));
      if c.jcs(DelegationOf(p1)) == c.jcs(DelegationOf(p2)) {
        JcsTells(c, DelegationOf(p1), DelegationOf(p2));
      }
    }
  }
}
