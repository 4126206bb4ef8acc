/** Delegation receipts: issuing them and the SDK's verifier. Models delegation.py: `_validate_scope`,
    `issue_delegation`, `verify_delegation` and the time helpers. */
module Delegation {
  import opened PyText
  import opened PyJson
  import opened Primitives
  import DataIntegrity

  const VC_CONTEXT_V2 := "https://www.w3.org/ns/credentials/v2"
  const DELEGATION_CONTEXT_V1 := "https://agentveil.dev/contexts/delegation/v1.jsonld"
  const VC_TYPE := "VerifiableCredential"
  const DELEGATION_TYPE := "AgentDelegation"

  /** Clock readings and lifetimes are in microseconds; the receipt's times are in seconds. */
  const SECOND := 1000000
  const CLOCK_SKEW := 60

  /** `replace(microsecond=0)`, in seconds. */
  function Floor(time: int): int
  {
    time / SECOND
  }

  type Fields = map<string, Json>

  // --- The scope -----------------------------------------------------------------

  predicate PositiveAmount(j: Json)
  {
    match j
    case Num(units) => units > 0
    case Bool(b) => b
    case _ => false
  }

  predicate ScopeEntryValid(entry: Json)
  {
    && entry.Obj?
    && match Get(entry.fields, "predicate")
       case Str("max_spend") =>
         var currency := Get(entry.fields, "currency");
         currency.Str? && |currency.s| == 3 && PositiveAmount(Get(entry.fields, "amount"))
       case Str("allowed_category") =>
         var value := Get(entry.fields, "value");
         value.Str? && value.s != ""
       case _ => false
  }

  /** `_validate_scope` accepts the scope. */
  predicate ScopeValid(scope: Json)
  {
    scope.Arr? && forall i :: 0 <= i < |scope.items| ==> ScopeEntryValid(scope.items[i])
  }

  // --- Verifying --------------------------------------------------------------

  /** What a receipt says, as far as it can be read without looking at the clock or the proof. */
  datatype Claims = Claims(issuer: string, key: Bytes, subject: string, scope: Json, purpose: string,
                           validFrom: int, validUntil: int)

  datatype Accepted = Accepted(claims: Claims, id: Json)

  /** `_did_to_public_key`: base58's own ValueError is not caught here. */
  function IssuerKey(c: Suite, did: string): Result<Bytes, Failure>
  {
    match DecodeDid(c, did)
    case Key(key) => Ok(key)
    case NotBase58 => Err(Crash("ValueError"))
    case _ => Err(Refused("issuer DID"))
  }

  /** `_parse_iso8601` */
  function ParseTime(c: Suite, raw: Json): Option<int>
  {
    if raw.Str? then c.parseTime(raw.s) else None
  }

  predicate HeadersValid(receipt: Fields)
  {
    var contexts, types := Get(receipt, "@context"), Get(receipt, "type");
    && contexts.Arr? && Str(VC_CONTEXT_V2) in contexts.items && Str(DELEGATION_CONTEXT_V1) in contexts.items
    && types.Arr? && Str(VC_TYPE) in types.items && Str(DELEGATION_TYPE) in types.items
  }

  /** The subject's agent, scope and purpose. */
  function ReadSubject(subject: Json): (r: Result<(string, Json, string), Failure>)
    ensures r.Err? ==> r.error.Refused?
  {
    if !subject.Obj? then Err(Refused("credentialSubject"))
    else
      var agent, scope, purpose :=
        Get(subject.fields, "id"), Get(subject.fields, "scope"), Get(subject.fields, "purpose");
      if !agent.Str? || !StartsWith(agent.s, DID_PREFIX) then Err(Refused("credentialSubject.id"))
      else if !ScopeValid(scope) then Err(Refused("invalid scope"))
      else if !purpose.Str? then Err(Refused("credentialSubject.purpose"))
      else Ok((agent.s, scope, purpose.s))
  }

  function ReadClaims(c: Suite, receipt: Fields): Result<Claims, Failure>
  {
    var issuer := Get(receipt, "issuer");
    if !HeadersValid(receipt) then Err(Refused("@context or type"))
    else if !issuer.Str? then Err(Refused("issuer is required"))
    else
      match IssuerKey(c, issuer.s)
      case Err(e) => Err(e)
      case Ok(key) =>
        match ReadSubject(GetOr(receipt, "credentialSubject", Obj(map[])))
        case Err(e) => Err(e)
        case Ok((agent, scope, purpose)) =>
          match (ParseTime(c, Get(receipt, "validFrom")), ParseTime(c, Get(receipt, "validUntil")))
          case (Some(from), Some(until)) =>
            if until <= from then Err(Refused("validUntil must be after validFrom"))
            else Ok(Claims(issuer.s, key, agent, scope, purpose, from, until))
          case _ => Err(Refused("not ISO 8601"))
  }

  /** The time window. `valid_from - timedelta(seconds=60)` overflows in the first minute of year 1. */
  function CheckClock(claims: Claims, clock: int): Option<Failure>
  {
    var current := Floor(clock);
    if claims.validFrom - CLOCK_SKEW < MIN_TIME then Some(Crash("OverflowError"))
    else if current < claims.validFrom - CLOCK_SKEW then Some(Refused("not yet valid"))
    else if current > claims.validUntil then Some(Refused("expired"))
    else None
  }

  /** The proof's signature, once type, suite and proof value are in order. */
  function ReadSignature(c: Suite, proof: Json): (r: Result<Bytes, Failure>)
    ensures r.Ok? ==> proof.Obj?
    ensures r.Err? ==> r.error.Refused?
  {
    if !proof.Obj? then Err(Refused("proof is required"))
    else if Get(proof.fields, "type") != Str(DataIntegrity.PROOF_TYPE) then Err(Refused("proof.type"))
    else if Get(proof.fields, "cryptosuite") != Str(DataIntegrity.CRYPTOSUITE) then Err(Refused("proof.cryptosuite"))
    else
      var value := GetOr(proof.fields, "proofValue", Str(""));
      if !value.Str? || !StartsWith(value.s, "z") then Err(Refused("proof.proofValue"))
      else
        match c.b58decode(value.s[1..])
        case None => Err(Refused("proofValue not valid base58"))
        case Some(signature) => Ok(signature)
  }

  /** The signature check: hashData when the proof has a `proofPurpose`, raw JCS otherwise. */
  function CheckProof(c: Suite, receipt: Fields, claims: Claims): Option<Failure>
  {
    var proof := Get(receipt, "proof");
    match ReadSignature(c, proof)
    case Err(e) => Some(e)
    case Ok(signature) =>
      var vm := GetOr(proof.fields, "verificationMethod", Str(""));
      if !vm.Str? then Some(Crash("AttributeError"))
      else if BeforeHash(vm.s) != claims.issuer then Some(Refused("verificationMethod does not match issuer"))
      else if "proofPurpose" in proof.fields then
        match DataIntegrity.Verify(c, c.jcs(Obj(receipt)), claims.issuer)
        case Ok(_) => None
        case Err(_) => Some(Refused("data integrity verification failed"))
      else
        match CheckSignature(c, claims.key, DataIntegrity.CanonicalBytes(c, Without(receipt, "proof")), signature)
        case Good => None
        case Bad => Some(Refused("signature verification failed"))
        case Malformed => Some(Crash("ValueError"))
  }

  /** `verify_delegation`; `wall` is what the clock shows. */
  function VerifyDelegation(c: Suite, receipt: Json, now: Option<int>, wall: int): Result<Accepted, Failure>
  {
    if !receipt.Obj? then Err(Refused("receipt is not a JSON object"))
    else
      match ReadClaims(c, receipt.fields)
      case Err(e) => Err(e)
      case Ok(claims) =>
        match CheckClock(claims, if now.Some? then now.value else wall)
        case Some(e) => Err(e)
        case None =>
          match CheckProof(c, receipt.fields, claims)
          case Some(e) => Err(e)
          case None => Ok(Accepted(claims, Get(receipt.fields, "id")))
  }

  // --- What escapes the documented exception ---------------------------------------

  /** The guards behind which an exception other than DelegationInvalid leaves `verify_delegation`. */
  predicate Escapes(c: Suite, receipt: Fields, clock: int)
  {
    match ReadClaims(c, receipt)
    case Err(_) =>
      HeadersValid(receipt) && Get(receipt, "issuer").Str? && DecodeDid(c, Get(receipt, "issuer").s).NotBase58?
    case Ok(claims) =>
      || claims.validFrom < MIN_TIME + CLOCK_SKEW
      || (CheckClock(claims, clock) == None && ProofEscapes(c, Get(receipt, "proof"), claims.issuer))
  }

  predicate ProofEscapes(c: Suite, proof: Json, issuer: string)
  {
    && ReadSignature(c, proof).Ok?
    && proof.Obj?
    && var vm := GetOr(proof.fields, "verificationMethod", Str(""));
    && (vm.Str? ==>
          && BeforeHash(vm.s) == issuer && "proofPurpose" !in proof.fields
          && |ReadSignature(c, proof).value| != 64)
  }

  /** The docstring promises DelegationInvalid on any failure; that holds except exactly for `Escapes`. */
  lemma FailsOtherwiseExactly(c: Suite, receipt: Fields, clock: int)
    ensures var r := VerifyDelegation(c, Obj(receipt), Some(clock), clock);
            (r.Err? && r.error.Crash?) <==> Escapes(c, receipt, clock)
  {
    hide HeadersValid, ReadSubject, ReadSignature, DecodeDid;
    if ReadClaims(c, receipt).Ok? {
      hide ReadClaims;
    }
  }

  /** A receipt that fails the promise: its issuer is not base58. */
  lemma MalformedIssuerEscapes(c: Suite, clock: int)
    requires c.b58decode("0") == None
    ensures var contexts := Arr([Str(VC_CONTEXT_V2), Str(DELEGATION_CONTEXT_V1)]);
            var types := Arr([Str(VC_TYPE), Str(DELEGATION_TYPE)]);
            var receipt := Obj(map["@context" := contexts, "type" := types, "issuer" := Str(DID_PREFIX + "0")]);
            VerifyDelegation(c, receipt, Some(clock), clock) == Err(Crash("ValueError"))
  {
    var contexts := [Str(VC_CONTEXT_V2), Str(DELEGATION_CONTEXT_V1)];
    var types := [Str(VC_TYPE), Str(DELEGATION_TYPE)];
    assert contexts[0] in contexts && contexts[1] in contexts && types[0] in types && types[1] in types;
    assert (DID_PREFIX + "0")[|DID_PREFIX|..] == "0";
  }

  /** A receipt with an Ed25519 issuer, an empty scope, and times and a proof to choose. */
  function Sample(c: Suite, key: Bytes, from: string, until: string, proof: Json): Fields
  {
    map["@context" := Arr([Str(VC_CONTEXT_V2), Str(DELEGATION_CONTEXT_V1)]),
        "type" := Arr([Str(VC_TYPE), Str(DELEGATION_TYPE)]),
        "issuer" := Str(PublicKeyToDid(c, key)),
        "validFrom" := Str(from),
        "validUntil" := Str(until),
        "credentialSubject" := SubjectOf(DID_PREFIX, Arr([]), ""),
        "proof" := proof]
  }

  lemma SampleClaims(c: Suite, key: Bytes, from: string, until: string, proof: Json)
    requires Base58Decodes(c) && |key| == 32
    requires c.parseTime(from).Some? && c.parseTime(until).Some?
    requires c.parseTime(from).value < c.parseTime(until).value
    ensures ReadClaims(c, Sample(c, key, from, until, proof))
         == Ok(Claims(PublicKeyToDid(c, key), key, DID_PREFIX, Arr([]), "",
                      c.parseTime(from).value, c.parseTime(until).value))
  {
    DidOfKey(c, key);
    var contexts := [Str(VC_CONTEXT_V2), Str(DELEGATION_CONTEXT_V1)];
    var types := [Str(VC_TYPE), Str(DELEGATION_TYPE)];
    assert contexts[0] in contexts && contexts[1] in contexts && types[0] in types && types[1] in types;
    SubjectReads(DID_PREFIX, Arr([]), "");
    hide ReadSubject, PublicKeyToDid, DecodeDid, ScopeValid, SubjectOf;
  }

  lemma SampleHasProof(c: Suite, key: Bytes, from: string, until: string, proof: Json)
    ensures Get(Sample(c, key, from, until, proof), "proof") == proof
  {
    hide PublicKeyToDid, SubjectOf;
  }

  /** A receipt whose `validFrom` is the beginning of time: one minute earlier there is no datetime. */
  lemma BeginningOfTimeEscapes(c: Suite, key: Bytes, proof: Json, clock: int)
    requires Base58Decodes(c) && |key| == 32
    requires c.parseTime("0001-01-01T00:00:00Z") == Some(0) && c.parseTime("0001-01-01T00:01:00Z") == Some(60)
    ensures VerifyDelegation(c, Obj(Sample(c, key, "0001-01-01T00:00:00Z", "0001-01-01T00:01:00Z", proof)),
                             Some(clock), clock) == Err(Crash("OverflowError"))
  {
    SampleClaims(c, key, "0001-01-01T00:00:00Z", "0001-01-01T00:01:00Z", proof);
    hide ReadClaims, Sample, CheckProof;
  }

  function SampleProof(c: Suite, signature: Bytes, vm: Json): Json
  {
    Obj(map["type" := Str(DataIntegrity.PROOF_TYPE), "cryptosuite" := Str(DataIntegrity.CRYPTOSUITE),
            "proofValue" := Str("z" + c.b58encode(signature)), "verificationMethod" := vm])
  }

  lemma SampleSignature(c: Suite, signature: Bytes, vm: Json)
    requires Base58Decodes(c)
    ensures ReadSignature(c, SampleProof(c, signature, vm)) == Ok(signature)
  {
    var value := "z" + c.b58encode(signature);
    assert value[1..] == c.b58encode(signature) && StartsWith(value, "z");
  }

  /** In a valid window, a `verificationMethod` that is null. */
  lemma NullMethodEscapes(c: Suite, key: Bytes, from: string, until: string, clock: int)
    requires Base58Decodes(c) && |key| == 32
    requires c.parseTime(from).Some? && c.parseTime(until).Some?
    requires MIN_TIME + CLOCK_SKEW <= c.parseTime(from).value <= Floor(clock) <= c.parseTime(until).value
    requires c.parseTime(from).value < c.parseTime(until).value
    ensures VerifyDelegation(c, Obj(Sample(c, key, from, until, SampleProof(c, [], Null))), Some(clock), clock)
         == Err(Crash("AttributeError"))
  {
    SampleClaims(c, key, from, until, SampleProof(c, [], Null));
    SampleSignature(c, [], Null);
    hide ReadClaims, ReadSignature, DataIntegrity.Verify, BeforeHash, Floor;
  }

  /** In a valid window, a legacy proof whose signature is one byte short. */
  lemma ShortSignatureEscapes(c: Suite, key: Bytes, from: string, until: string, clock: int)
    requires Base58Decodes(c) && |key| == 32
    requires c.parseTime(from).Some? && c.parseTime(until).Some?
    requires MIN_TIME + CLOCK_SKEW <= c.parseTime(from).value <= Floor(clock) <= c.parseTime(until).value
    requires c.parseTime(from).value < c.parseTime(until).value
    ensures var proof := SampleProof(c, seq(63, _ => 0), Str(PublicKeyToDid(c, key)));
            VerifyDelegation(c, Obj(Sample(c, key, from, until, proof)), Some(clock), clock) == Err(Crash("ValueError"))
  {
    hide ReadClaims, ReadSignature, DataIntegrity.Verify, BeforeHash, Floor, PublicKeyToDid, DataIntegrity.CanonicalBytes,
      DecodeDid, ScopeValid, Sample;
    var signature: Bytes := seq(63, _ => 0);
    var vm := Str(PublicKeyToDid(c, key));
    SampleClaims(c, key, from, until, SampleProof(c, signature, vm));
    SampleSignature(c, signature, vm);
    SampleHasProof(c, key, from, until, SampleProof(c, signature, vm));
    DidOfKey(c, key);
  }

  // --- Issuing -------------------------------------------------------------------

  predicate IssueArgumentsValid(seed: Bytes, agent: string, scope: Json, life: int)
  {
    |seed| == 32 && StartsWith(agent, DID_PREFIX) && life > 0 && ScopeValid(scope)
  }

  function Payload(c: Suite, seed: Bytes, agent: string, scope: Json, purpose: string,
                   from: int, until: int, id: string): Fields
  {
    map["@context" := Arr([Str(VC_CONTEXT_V2), Str(DELEGATION_CONTEXT_V1)]),
        "type" := Arr([Str(VC_TYPE), Str(DELEGATION_TYPE)]),
        "id" := Str(id),
        "issuer" := Str(PublicKeyToDid(c, c.publicKey(seed))),
        "validFrom" := Str(c.formatTime(from)),
        "validUntil" := Str(c.formatTime(until)),
        "credentialSubject" := SubjectOf(agent, scope, purpose)]
  }

  lemma PayloadUnsecured(c: Suite, seed: Bytes, agent: string, scope: Json, purpose: string,
                         from: int, until: int, id: string)
    ensures "proof" !in Payload(c, seed, agent, scope, purpose, from, until, id)
  {
  }

  /** The second in which an issued receipt expires: its lifetime starts at a whole second. */
  function IssueUntil(start: int, life: int): int
  {
    Floor(Floor(start) * SECOND + life)
  }

  function IssuedReceipt(c: Suite, seed: Bytes, agent: string, scope: Json, purpose: string,
                         life: int, start: int, id: string): Json
  {
    var from, until := Floor(start), IssueUntil(start, life);
    DataIntegrity.Secured(c, Payload(c, seed, agent, scope, purpose, from, until, id), seed,
                          DataIntegrity.DEFAULT_PROOF_PURPOSE, None)
  }

  /** `issue_delegation`; `start` is `valid_from` or the clock, `id` the given or the generated one. */
  method IssueDelegation(c: Suite, seed: Bytes, agent: string, scope: Json, purpose: string,
                         life: int, start: int, id: string) returns (r: Result<Json, Failure>)
    requires JcsParses(c)
    ensures r.Ok? <==> IssueArgumentsValid(seed, agent, scope, life)
                       && IssueUntil(start, life) <= MAX_TIME
    ensures r.Ok? ==> r.value == IssuedReceipt(c, seed, agent, scope, purpose, life, start, id)
    ensures r.Err? ==> (r.error.Crash? <==> IssueArgumentsValid(seed, agent, scope, life))
  {
    WholeSeconds(start, life);
    hide ScopeValid, Payload, DataIntegrity.Secured, Floor;
    if |seed| != 32 {
      return Err(Refused("principal_private_key must be 32 bytes"));
    }
    if !StartsWith(agent, DID_PREFIX) {
      return Err(Refused("agent_did must be a did:key string"));
    }
    if life <= 0 {
      return Err(Refused("valid_for must be a positive timedelta"));
    }
    if !ScopeValid(scope) {
      return Err(Refused("scope"));
    }
    var now := Floor(start) * SECOND;
    var expires := now + life;
    if Floor(expires) > MAX_TIME {
      return Err(Crash("OverflowError"));
    }
    var payload := Payload(c, seed, agent, scope, purpose, Floor(now), Floor(expires), id);
    PayloadUnsecured(c, seed, agent, scope, purpose, Floor(now), Floor(expires), id);
    var signed := DataIntegrity.Sign(c, payload, seed, DataIntegrity.DEFAULT_PROOF_PURPOSE, None);
    var receipt := c.loads(signed.value);
    return Ok(receipt.value);
  }

  lemma PayloadExactly(c: Suite, seed: Bytes, agent: string, scope: Json, purpose: string, from: int, until: int, id: string)
    ensures var payload := Payload(c, seed, agent, scope, purpose, from, until, id);
            && payload.Keys == {"@context", "type", "id", "issuer", "validFrom", "validUntil", "credentialSubject"}
            && payload["@context"] == Arr([Str("https://www.w3.org/ns/credentials/v2"),
                                           Str("https://agentveil.dev/contexts/delegation/v1.jsonld")])
            && payload["type"] == Arr([Str("VerifiableCredential"), Str("AgentDelegation")])
            && payload["id"] == Str(id)
            && payload["issuer"] == Str("did:key:z" + c.b58encode([0xED, 0x01] + c.publicKey(seed)))
            && payload["validFrom"] == Str(c.formatTime(from)) && payload["validUntil"] == Str(c.formatTime(until))
            && payload["credentialSubject"] == Obj(map["id" := Str(agent), "scope" := scope, "purpose" := Str(purpose)])
  {
  }

  /** What an issued receipt says: these fields and no others beside its proof, valid from the whole second of its start,
      for the whole seconds of its lifetime. */
  lemma IssuedExactly(c: Suite, seed: Bytes, agent: string, scope: Json, purpose: string, life: int, start: int, id: string)
    ensures var receipt := IssuedReceipt(c, seed, agent, scope, purpose, life, start, id).fields;
            && receipt.Keys
               == {"@context", "type", "id", "issuer", "validFrom", "validUntil", "credentialSubject", "proof"}
            && receipt["@context"] == Arr([Str("https://www.w3.org/ns/credentials/v2"),
                                           Str("https://agentveil.dev/contexts/delegation/v1.jsonld")])
            && receipt["type"] == Arr([Str("VerifiableCredential"), Str("AgentDelegation")])
            && receipt["id"] == Str(id)
            && receipt["issuer"] == Str("did:key:z" + c.b58encode([0xED, 0x01] + c.publicKey(seed)))
            && receipt["validFrom"] == Str(c.formatTime(start / 1000000))
            && receipt["validUntil"] == Str(c.formatTime(start / 1000000 + life / 1000000))
            && receipt["credentialSubject"] == Obj(map["id" := Str(agent), "scope" := scope, "purpose" := Str(purpose)])
  {
    WholeSeconds(start, life);
    assert Floor(start) == start / 1000000 && Floor(life) == life / 1000000;
    hide Payload, IssueUntil, Floor, DataIntegrity.ProofOptions, DataIntegrity.HashData, PublicKeyToDid;
    PayloadExactly(c, seed, agent, scope, purpose, Floor(start), IssueUntil(start, life), id);
  }

  lemma PayloadClaims(c: Suite, seed: Bytes, agent: string, scope: Json, purpose: string,
                      from: int, until: int, id: string, receipt: Fields)
    requires Base58Decodes(c) && SignaturesVerify(c) && TimesParse(c) && |seed| == 32
    requires StartsWith(agent, DID_PREFIX) && ScopeValid(scope)
    requires MIN_TIME <= from <= until <= MAX_TIME
    requires Without(receipt, "proof") == Payload(c, seed, agent, scope, purpose, from, until, id)
    ensures var did := PublicKeyToDid(c, c.publicKey(seed));
            var claims := ReadClaims(c, receipt);
            if from < until && Readable(c, from) && Readable(c, until)
            then claims == Ok(Claims(did, c.publicKey(seed), agent, scope, purpose, from, until))
            else claims.Err?
  {
    assert |c.sign(seed, [])| == 64;
    DidOfKey(c, c.publicKey(seed));
    PayloadHeaders(c, seed, agent, scope, purpose, from, until, id, receipt);
    PayloadFields(c, seed, agent, scope, purpose, from, until, id, receipt);
    SubjectReads(agent, scope, purpose);
    assert Readable(c, from) ==> c.parseTime(c.formatTime(from)) == Some(from);
    assert Readable(c, until) ==> c.parseTime(c.formatTime(until)) == Some(until);
    hide HeadersValid, ScopeValid, PublicKeyToDid, DecodeDid, Payload, ReadSubject, Get, GetOr, Without, StartsWith;
  }

  function SubjectOf(agent: string, scope: Json, purpose: string): Json
  {
    Obj(map["id" := Str(agent), "scope" := scope, "purpose" := Str(purpose)])
  }

  lemma SubjectReads(agent: string, scope: Json, purpose: string)
    requires StartsWith(agent, DID_PREFIX) && ScopeValid(scope)
    ensures ReadSubject(SubjectOf(agent, scope, purpose)) == Ok((agent, scope, purpose))
  {
    hide ScopeValid;
  }

  lemma PayloadFields(c: Suite, seed: Bytes, agent: string, scope: Json, purpose: string,
                      from: int, until: int, id: string, receipt: Fields)
    requires Without(receipt, "proof") == Payload(c, seed, agent, scope, purpose, from, until, id)
    ensures Get(receipt, "issuer") == Str(PublicKeyToDid(c, c.publicKey(seed)))
    ensures Get(receipt, "validFrom") == Str(c.formatTime(from))
    ensures Get(receipt, "validUntil") == Str(c.formatTime(until))
    ensures Get(receipt, "id") == Str(id)
    ensures GetOr(receipt, "credentialSubject", Obj(map[])) == SubjectOf(agent, scope, purpose)
  {
    hide PublicKeyToDid;
    var payload := Payload(c, seed, agent, scope, purpose, from, until, id);
    assert forall k | k in payload :: k in Without(receipt, "proof") && k in receipt && receipt[k] == payload[k];
  }

  lemma PayloadHeaders(c: Suite, seed: Bytes, agent: string, scope: Json, purpose: string,
                       from: int, until: int, id: string, receipt: Fields)
    requires Without(receipt, "proof") == Payload(c, seed, agent, scope, purpose, from, until, id)
    ensures HeadersValid(receipt)
  {
    var contexts := [Str(VC_CONTEXT_V2), Str(DELEGATION_CONTEXT_V1)];
    var types := [Str(VC_TYPE), Str(DELEGATION_TYPE)];
    var payload := Payload(c, seed, agent, scope, purpose, from, until, id);
    assert Without(receipt, "proof")["@context"] == payload["@context"] == Arr(contexts);
    assert Without(receipt, "proof")["type"] == payload["type"] == Arr(types);
    assert contexts[0] in contexts && contexts[1] in contexts && types[0] in types && types[1] in types;
  }

  /** An issued receipt is accepted exactly while the floored clock is between one minute before
      `validFrom` and `validUntil`, provided that it was to last a second at least, that its times read back as
      written (from year 1000 on they always do), and that a minute before `validFrom` there still was a time; a shorter
      lifetime is issued but never accepted. What is reported is what was issued. */
  lemma IssuedIsAccepted(c: Suite, seed: Bytes, agent: string, scope: Json, purpose: string,
                         life: int, start: int, id: string, clock: int)
    requires JcsParses(c) && Base58Decodes(c) && SignaturesVerify(c) && TimesParse(c)
    requires IssueArgumentsValid(seed, agent, scope, life)
    requires MIN_TIME <= Floor(start) && IssueUntil(start, life) <= MAX_TIME
    ensures var from, until := Floor(start), Floor(start) + Floor(life);
            var did := PublicKeyToDid(c, c.publicKey(seed));
            var receipt := IssuedReceipt(c, seed, agent, scope, purpose, life, start, id);
            var r := VerifyDelegation(c, receipt, Some(clock), clock);
            && (r.Ok? <==> && life >= SECOND && Readable(c, from) && Readable(c, until)
                           && MIN_TIME <= from - CLOCK_SKEW <= Floor(clock) <= until)
            && (YEAR_1000 <= from ==> Readable(c, from) && Readable(c, until))
            && (r.Ok? ==>
                  r.value == Accepted(Claims(did, c.publicKey(seed), agent, scope, purpose, from, until), Str(id)))
  {
    WholeSeconds(start, life);
    hide Floor, VerifyDelegation, Payload, DataIntegrity.Secured, ScopeValid, StartsWith, Readable;
    ReceiptIsAccepted(c, seed, agent, scope, purpose, Floor(start), IssueUntil(start, life), id, clock);
  }

  lemma WholeSeconds(start: int, life: int)
    ensures IssueUntil(start, life) == Floor(start) + Floor(life)
    ensures life >= SECOND <==> Floor(life) >= 1
    ensures life >= 0 ==> Floor(life) >= 0
    ensures Floor(Floor(start) * SECOND) == Floor(start)
  {
  }

  lemma ReceiptIsAccepted(c: Suite, seed: Bytes, agent: string, scope: Json, purpose: string,
                          from: int, until: int, id: string, clock: int)
    requires JcsParses(c) && Base58Decodes(c) && SignaturesVerify(c) && TimesParse(c) && |seed| == 32
    requires StartsWith(agent, DID_PREFIX) && ScopeValid(scope)
    requires MIN_TIME <= from <= until <= MAX_TIME
    ensures var payload := Payload(c, seed, agent, scope, purpose, from, until, id);
            var receipt := DataIntegrity.Secured(c, payload, seed, DataIntegrity.DEFAULT_PROOF_PURPOSE, None);
            var did := PublicKeyToDid(c, c.publicKey(seed));
            var r := VerifyDelegation(c, receipt, Some(clock), clock);
            && (r.Ok? <==> && from < until && Readable(c, from) && Readable(c, until)
                           && MIN_TIME <= from - CLOCK_SKEW <= Floor(clock) <= until)
            && (r.Ok? ==>
                  r.value == Accepted(Claims(did, c.publicKey(seed), agent, scope, purpose, from, until), Str(id)))
  {
    PayloadUnsecured(c, seed, agent, scope, purpose, from, until, id);
    hide Payload, DataIntegrity.ProofOptions, DataIntegrity.HashData, ReadClaims, CheckProof, ScopeValid,
      PublicKeyToDid, Get, StartsWith, Readable;
    var payload := Payload(c, seed, agent, scope, purpose, from, until, id);
    var receipt := DataIntegrity.Secured(c, payload, seed, DataIntegrity.DEFAULT_PROOF_PURPOSE, None);
    assert Without(receipt.fields, "proof") == payload;
    PayloadFields(c, seed, agent, scope, purpose, from, until, id, receipt.fields);
    PayloadClaims(c, seed, agent, scope, purpose, from, until, id, receipt.fields);
    if from < until && Readable(c, from) && Readable(c, until) {
      var claims := Claims(PublicKeyToDid(c, c.publicKey(seed)), c.publicKey(seed), agent, scope, purpose, from, until);
      SecuredProofPasses(c, payload, seed, claims);
    }
  }

  lemma SecuredProofPasses(c: Suite, payload: Fields, seed: Bytes, claims: Claims)
    requires JcsParses(c) && Base58Decodes(c) && SignaturesVerify(c) && |seed| == 32
    requires "proof" !in payload && claims.issuer == PublicKeyToDid(c, c.publicKey(seed))
    ensures var receipt := DataIntegrity.Secured(c, payload, seed, DataIntegrity.DEFAULT_PROOF_PURPOSE, None);
            CheckProof(c, receipt.fields, claims) == None
  {
    hide DataIntegrity.Verify, PublicKeyToDid, DataIntegrity.VerificationMethod, DataIntegrity.HashData;
    DataIntegrity.SignThenVerify(c, payload, seed, DataIntegrity.DEFAULT_PROOF_PURPOSE, None);
    assert |c.sign(seed, [])| == 64;
    DidOfKey(c, c.publicKey(seed));
    DataIntegrity.SignerOf(c, seed);
    var options := DataIntegrity.ProofOptions(c, payload, seed, DataIntegrity.DEFAULT_PROOF_PURPOSE, None);
    DataIntegrity.OptionsExactly(c, payload, seed, DataIntegrity.DEFAULT_PROOF_PURPOSE, None);
    var signature := c.sign(seed, DataIntegrity.HashData(c, DataIntegrity.ProofConfiguration(options), payload));
    var value := "z" + c.b58encode(signature);
    assert value[1..] == c.b58encode(signature) && StartsWith(value, "z");
  }
}
