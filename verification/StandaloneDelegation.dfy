/** The verifier an auditor runs without the SDK, and its agreement with the SDK's. Models `verify_delegation`
    in examples/delegation/verify.py, which repeats the SDK's checks in its own code, as this model does. */
module StandaloneDelegation {
  import opened PyText
  import opened PyJson
  import opened Encoding
  import opened Primitives
  import DataIntegrity
  import Delegation

  type Fields = map<string, Json>

  type Claims = Delegation.Claims

  /** `_did_to_public_key`: every failure is a ValueError, base58's too. */
  function IssuerKey(c: Suite, did: string): Option<Bytes>
  {
    if !StartsWith(did, "did:key:z") then None
    else
      match c.b58decode(did[|"did:key:z"|..])
      case None => None
      case Some(decoded) =>
        if |decoded| < 2 || decoded[0] != 0xED || decoded[1] != 0x01 then None
        else if |decoded[2..]| != 32 then None
        else Some(decoded[2..])
  }

  /** `_validate_scope` on the first entries of a list does not raise. */
  predicate EntriesValid(entries: seq<Json>)
  {
    if entries == [] then true
    else
      var entry := entries[|entries| - 1];
      if !EntriesValid(entries[..|entries| - 1]) || !entry.Obj? then false
      else
        var kind := Get(entry.fields, "predicate");
        if kind == Str("max_spend") then
          var currency, amount := Get(entry.fields, "currency"), Get(entry.fields, "amount");
          if !currency.Str? || |currency.s| != 3 then false
          else (amount.Num? && amount.units > 0) || amount == Bool(true)
        else if kind == Str("allowed_category") then
          var value := Get(entry.fields, "value");
          value.Str? && |value.s| > 0
        else false
  }

  predicate ListContains(j: Json, text: string)
  {
    j.Arr? && Str(text) in j.items
  }

  function ReadTime(c: Suite, raw: Json): Option<int>
  {
    match raw
    case Str(s) => c.parseTime(s)
    case _ => None
  }

  function ReadClaims(c: Suite, receipt: Fields): Option<Claims>
  {
    var contexts, types, issuer := Get(receipt, "@context"), Get(receipt, "type"), Get(receipt, "issuer");
    var subject := GetOr(receipt, "credentialSubject", Obj(map[]));
    if !ListContains(contexts, "https://www.w3.org/ns/credentials/v2") then None
    else if !ListContains(contexts, "https://agentveil.dev/contexts/delegation/v1.jsonld") then None
    else if !ListContains(types, "VerifiableCredential") || !ListContains(types, "AgentDelegation") then None
    else if !issuer.Str? || !subject.Obj? then None
    else
      match IssuerKey(c, issuer.s)
      case None => None
      case Some(key) =>
        var agent, purpose := Get(subject.fields, "id"), Get(subject.fields, "purpose");
        var scope := Get(subject.fields, "scope");
        if !agent.Str? || !StartsWith(agent.s, "did:key:z") then None
        else if !scope.Arr? || !EntriesValid(scope.items) || !purpose.Str? then None
        else
          var from, until := ReadTime(c, Get(receipt, "validFrom")), ReadTime(c, Get(receipt, "validUntil"));
          if from.None? || until.None? || until.value <= from.value then None
          else Some(Delegation.Claims(issuer.s, key, agent.s, scope, purpose.s, from.value, until.value))
  }

  /** `_verify_ed25519` does not raise. */
  predicate SignatureGood(c: Suite, key: Bytes, message: Bytes, signature: Bytes)
  {
    CheckSignature(c, key, message, signature).Good?
  }

  /** `_verify_legacy_raw_jcs` */
  predicate LegacyProofGood(c: Suite, receipt: Fields, key: Bytes, signature: Bytes)
  {
    SignatureGood(c, key, Utf8(c.jcs(Obj(Without(receipt, "proof")))), signature)
  }

  /** `_verify_hashdata_proof`: works on the receipt itself, where the SDK goes through its canonical text. */
  predicate HashDataProofGood(c: Suite, receipt: Fields, proof: Fields, key: Bytes, signature: Bytes)
  {
    var document := Without(receipt, "proof");
    var configDigest, documentDigest :=
      c.sha256(Utf8(c.jcs(Obj(Without(proof, "proofValue"))))), c.sha256(Utf8(c.jcs(Obj(document))));
    && Get(proof, "proofPurpose") == Str("assertionMethod")
    && ("@context" in document ==> PyEq(Get(proof, "@context"), document["@context"]))
    && SignatureGood(c, key, configDigest + documentDigest, signature)
  }

  predicate ProofGood(c: Suite, receipt: Fields, claims: Claims)
  {
    match Get(receipt, "proof")
    case Obj(proof) =>
      var value, vm := GetOr(proof, "proofValue", Str("")), GetOr(proof, "verificationMethod", Str(""));
      && Get(proof, "type") == Str("DataIntegrityProof")
      && Get(proof, "cryptosuite") == Str("eddsa-jcs-2022")
      && value.Str? && StartsWith(value.s, "z") && c.b58decode(value.s[1..]).Some?
      && var signature := c.b58decode(value.s[1..]).value;
      && vm.Str? && BeforeHash(vm.s) == claims.issuer
      && if "proofPurpose" in proof
         then '#' in vm.s && HashDataProofGood(c, receipt, proof, claims.key, signature)
         else LegacyProofGood(c, receipt, claims.key, signature)
    case _ => false
  }

  /** The clock, from microseconds to whole seconds, has to be from a minute before `validFrom` to `validUntil`. */
  predicate InTime(claims: Claims, clock: int)
  {
    claims.validFrom - 60 <= clock / 1000000 <= claims.validUntil
  }

  /** `verify_delegation`: Refused stands for ValueError. */
  function Verify(c: Suite, receipt: Json, now: Option<int>, wall: int): Result<Delegation.Accepted, Failure>
  {
    if !receipt.Obj? then Err(Refused("receipt is not a JSON object"))
    else
      match ReadClaims(c, receipt.fields)
      case None => Err(Refused("structure"))
      case Some(claims) =>
        if claims.validFrom - 60 < MIN_TIME then Err(Crash("OverflowError"))
        else if !InTime(claims, if now.Some? then now.value else wall) then Err(Refused("not yet valid or expired"))
        else if !ProofGood(c, receipt.fields, claims) then Err(Refused("proof"))
        else Ok(Delegation.Accepted(claims, Get(receipt.fields, "id")))
  }

  // --- Agreement -----------------------------------------------------------------

  lemma SameKey(c: Suite, did: string)
    ensures match Delegation.IssuerKey(c, did)
            case Ok(key) => IssuerKey(c, did) == Some(key)
            case Err(_) => IssuerKey(c, did) == None
  {
  }

  lemma {:induction false} SameEntries(entries: seq<Json>)
    ensures EntriesValid(entries) <==> forall i :: 0 <= i < |entries| ==> Delegation.ScopeEntryValid(entries[i])
  {
    if entries != [] {
      var front, entry := entries[..|entries| - 1], entries[|entries| - 1];
      SameEntries(front);
      hide Delegation.ScopeEntryValid;
      assert Delegation.ScopeEntryValid(entry) <==> EntriesValid([entry]) by {
        SameEntry(entry);
      }
      LastEntry(front, entry);
      assert entries == front + [entry];
    }
  }

  lemma SameEntry(entry: Json)
    ensures EntriesValid([entry]) <==> Delegation.ScopeEntryValid(entry)
  {
    assert [entry][..0] == [] && EntriesValid([]);
  }

  lemma LastEntry(front: seq<Json>, entry: Json)
    ensures EntriesValid(front + [entry]) <==> EntriesValid(front) && EntriesValid([entry])
  {
    assert (front + [entry])[..|front|] == front;
    assert [entry][..0] == [] && EntriesValid([]);
  }

  lemma SameScope(scope: Json)
    ensures Delegation.ScopeValid(scope) <==> scope.Arr? && EntriesValid(scope.items)
  {
    if scope.Arr? {
      SameEntries(scope.items);
    }
    hide EntriesValid, Delegation.ScopeEntryValid;
  }

  lemma SameClaims(c: Suite, receipt: Fields)
    ensures match Delegation.ReadClaims(c, receipt)
            case Ok(claims) => ReadClaims(c, receipt) == Some(claims) && DecodeDid(c, claims.issuer) == Key(claims.key)
            case Err(_) => ReadClaims(c, receipt) == None
  {
    hide Delegation.ScopeValid, EntriesValid, StartsWith, DecodeDid, IssuerKey;
    var issuer, subject := Get(receipt, "issuer"), GetOr(receipt, "credentialSubject", Obj(map[]));
    if issuer.Str? {
      SameKey(c, issuer.s);
    }
    if subject.Obj? {
      SameScope(Get(subject.fields, "scope"));
    }
  }

  /** The SDK verifies the canonical text of the receipt, the standalone verifier the receipt. */
  lemma SameHashData(c: Suite, receipt: Fields, proof: Fields, issuer: string, key: Bytes, signature: Bytes)
    requires JcsParses(c) && DecodeDid(c, issuer) == Key(key)
    requires Get(receipt, "proof") == Obj(proof) && "proofPurpose" in proof
    requires Delegation.ReadSignature(c, Obj(proof)) == Ok(signature)
    requires var vm := GetOr(proof, "verificationMethod", Str("")); vm.Str? && BeforeHash(vm.s) == issuer
    ensures DataIntegrity.Verify(c, c.jcs(Obj(receipt)), issuer).Ok?
        <==> '#' in GetOr(proof, "verificationMethod", Str("")).s
             && HashDataProofGood(c, receipt, proof, key, signature)
  {
    assert c.loads(c.jcs(Obj(receipt))) == Some(Obj(receipt));
    hide DecodeDid, BeforeHash, StartsWith, PyEq, Utf8;
  }

  lemma SameProof(c: Suite, receipt: Fields, claims: Claims)
    requires JcsParses(c) && DecodeDid(c, claims.issuer) == Key(claims.key)
    ensures Delegation.CheckProof(c, receipt, claims) == None <==> ProofGood(c, receipt, claims)
  {
    hide DataIntegrity.Verify, HashDataProofGood, DecodeDid, BeforeHash, Utf8;
    var proof := Get(receipt, "proof");
    var signature := Delegation.ReadSignature(c, proof);
    if signature.Ok? && "proofPurpose" in proof.fields {
      var vm := GetOr(proof.fields, "verificationMethod", Str(""));
      if vm.Str? && BeforeHash(vm.s) == claims.issuer {
        SameHashData(c, receipt, proof.fields, claims.issuer, claims.key, signature.value);
      }
    }
  }

  /** The two verifiers accept the same receipts at every time, legacy and hashData, and report the same. */
  lemma SameVerdict(c: Suite, receipt: Json, now: Option<int>, wall: int)
    requires JcsParses(c)
    ensures var sdk, standalone := Delegation.VerifyDelegation(c, receipt, now, wall), Verify(c, receipt, now, wall);
            && (sdk.Ok? <==> standalone.Ok?)
            && (sdk.Ok? ==> sdk.value == standalone.value)
  {
    if receipt.Obj? {
      SameClaims(c, receipt.fields);
      var claims := Delegation.ReadClaims(c, receipt.fields);
      if claims.Ok? {
        SameProof(c, receipt.fields, claims.value);
      }
    }
    hide Delegation.ReadClaims, ReadClaims, Delegation.CheckProof, ProofGood, DecodeDid;
  }

  /** They differ in how they fail: here everything is the promised ValueError, except for a `validFrom`
      in the first minute of year 1, where neither keeps its promise. */
  lemma FailureExactly(c: Suite, receipt: Json, now: Option<int>, wall: int)
    ensures var r := Verify(c, receipt, now, wall);
            (r.Err? && r.error.Crash?)
            <==> receipt.Obj? && ReadClaims(c, receipt.fields).Some?
                 && ReadClaims(c, receipt.fields).value.validFrom < MIN_TIME + 60
  {
    hide ReadClaims, ProofGood, InTime;
  }

  /** A receipt for which neither verifier keeps its promise. */
  lemma BeginningOfTimeEscapes(c: Suite, key: Bytes, proof: Json, clock: int)
    requires Base58Decodes(c) && |key| == 32
    requires c.parseTime("0001-01-01T00:00:00Z") == Some(0) && c.parseTime("0001-01-01T00:01:00Z") == Some(60)
    ensures Verify(c, Obj(Delegation.Sample(c, key, "0001-01-01T00:00:00Z", "0001-01-01T00:01:00Z", proof)),
                   Some(clock), clock) == Err(Crash("OverflowError"))
  {
    var receipt := Delegation.Sample(c, key, "0001-01-01T00:00:00Z", "0001-01-01T00:01:00Z", proof);
    Delegation.SampleClaims(c, key, "0001-01-01T00:00:00Z", "0001-01-01T00:01:00Z", proof);
    SameClaims(c, receipt);
    hide Delegation.ReadClaims, ReadClaims, Delegation.Sample, ProofGood;
  }

  /** Where the SDK refuses with DelegationInvalid or fails with OverflowError, so does this verifier;
      what else escapes the SDK is an ordinary refusal here. */
  lemma EscapesAreRefusedHere(c: Suite, receipt: Fields, clock: int)
    requires JcsParses(c)
    ensures var sdk, standalone := Delegation.VerifyDelegation(c, Obj(receipt), Some(clock), clock),
                                   Verify(c, Obj(receipt), Some(clock), clock);
            sdk.Err? ==>
              standalone.Err? && (standalone.error.Crash? <==> sdk.error == Crash("OverflowError"))
  {
    SameVerdict(c, Obj(receipt), Some(clock), clock);
    SameClaims(c, receipt);
    hide Delegation.ReadClaims, ReadClaims, ProofGood, DecodeDid, DataIntegrity.Verify, BeforeHash,
      Delegation.ReadSignature;
    ClaimsNeverOverflow(c, receipt);
  }

  lemma ClaimsNeverOverflow(c: Suite, receipt: Fields)
    ensures Delegation.ReadClaims(c, receipt) != Err(Crash("OverflowError"))
  {
    hide Delegation.HeadersValid, Delegation.ReadSubject, DecodeDid, Delegation.ParseTime;
    assert "ValueError" != "OverflowError" by {
      assert |"ValueError"| != |"OverflowError"|;
    }
  }
}
