/** The `eddsa-jcs-2022` construction. Models data_integrity.py: `proof_configuration`, `hash_data`,
    `sign_eddsa_jcs_2022` and `verify_eddsa_jcs_2022`. */
module DataIntegrity {
  import opened PyText
  import opened PyJson
  import opened Encoding
  import opened Primitives

  const PROOF_TYPE := "DataIntegrityProof"
  const CRYPTOSUITE := "eddsa-jcs-2022"
  const DEFAULT_PROOF_PURPOSE := "assertionMethod"

  type Fields = map<string, Json>

  /** `proof_configuration` */
  function ProofConfiguration(proof: Fields): Fields
  {
    Without(proof, "proofValue")
  }

  function CanonicalBytes(c: Suite, fields: Fields): Bytes
  {
    Utf8(c.jcs(Obj(fields)))
  }

  /** `hash_data` */
  function HashData(c: Suite, config: Fields, document: Fields): Bytes
  {
    c.sha256(CanonicalBytes(c, config)) + c.sha256(CanonicalBytes(c, document))
  }

  /** What the secured document says about its proof, once the structural checks have passed. */
  datatype Proof = Proof(fields: Fields, signer: string, signature: Bytes)

  /** The checks on a proof object shared by the verifiers: type, suite, verification method, proof value.
      `checkPurpose` and `expected` are the two that not all of them make. */
  function ReadProof(c: Suite, secured: Fields, checkPurpose: bool, expected: Option<string>): Result<Proof, Failure>
  {
    var p := Get(secured, "proof");
    if !p.Obj? then Err(Refused("proof is missing"))
    else if Get(p.fields, "type") != Str(PROOF_TYPE) then Err(Refused("proof.type"))
    else if Get(p.fields, "cryptosuite") != Str(CRYPTOSUITE) then Err(Refused("proof.cryptosuite"))
    else if checkPurpose && Get(p.fields, "proofPurpose") != Str(DEFAULT_PROOF_PURPOSE)
    then Err(Refused("proof.proofPurpose"))
    else
      var vm := Get(p.fields, "verificationMethod");
      if !vm.Str? || '#' !in vm.s then Err(Refused("proof.verificationMethod"))
      else if expected.Some? && BeforeHash(vm.s) != expected.value then Err(Refused("signer does not match"))
      else
        var pv := Get(p.fields, "proofValue");
        if !pv.Str? || !StartsWith(pv.s, "z") then Err(Refused("proof.proofValue"))
        else
          match c.b58decode(pv.s[1..])
          case None => Err(Refused("proofValue is not base58"))
          case Some(signature) => Ok(Proof(p.fields, BeforeHash(vm.s), signature))
  }

  datatype Verified = Verified(document: Fields, signer: string)

  /** `verify_eddsa_jcs_2022` */
  function Verify(c: Suite, text: string, expected: string): Result<Verified, Failure>
  {
    if !DecodeDid(c, expected).Key? then Err(Refused("expected signer DID"))
    else if text == "" then Err(Refused("empty"))
    else
      match c.loads(text)
      case None => Err(Refused("not JSON"))
      case Some(secured) =>
        if !secured.Obj? then Err(Refused("not an object"))
        else
          match ReadProof(c, secured.fields, true, Some(expected))
          case Err(e) => Err(e)
          case Ok(proof) =>
            var document := Without(secured.fields, "proof");
            if "@context" in document && !PyEq(Get(proof.fields, "@context"), document["@context"])
            then Err(Refused("@context"))
            else
              match CheckSignature(c, IfKey(DecodeDid(c, expected)),
                                   HashData(c, ProofConfiguration(proof.fields), document), proof.signature)
              case Good => Ok(Verified(document, expected))
              case Bad => Err(Refused("signature"))
              case Malformed => Err(Refused("malformed signature"))
  }

  // --- Signing -----------------------------------------------------------------

  function VerificationMethod(c: Suite, seed: Bytes): string
  {
    var did := PublicKeyToDid(c, c.publicKey(seed));
    did + "#" + did[|"did:key:"|..]
  }

  /** The proof options before the signature is added. */
  function ProofOptions(c: Suite, document: Fields, seed: Bytes, purpose: string, created: Option<string>): Fields
  {
    var options := map["type" := Str(PROOF_TYPE), "cryptosuite" := Str(CRYPTOSUITE),
                       "verificationMethod" := Str(VerificationMethod(c, seed)), "proofPurpose" := Str(purpose)];
    var dated := if created.Some? then options["created" := Str(created.value)] else options;
    if "@context" in document then dated["@context" := document["@context"]] else dated
  }

  function Secured(c: Suite, document: Fields, seed: Bytes, purpose: string, created: Option<string>): Json
  {
    var options := ProofOptions(c, document, seed, purpose, created);
    var signature := c.sign(seed, HashData(c, ProofConfiguration(options), document));
    Obj(document["proof" := Obj(options["proofValue" := Str("z" + c.b58encode(signature))])])
  }

  /** `sign_eddsa_jcs_2022`: the proof options are filled in place. */
  method Sign(c: Suite, document: Fields, seed: Bytes, purpose: string, created: Option<string>)
    returns (r: Result<string, Failure>)
    ensures r.Ok? <==> "proof" !in document && |seed| == 32
    ensures r.Ok? ==> r.value == c.jcs(Secured(c, document, seed, purpose, created))
    ensures r.Err? ==> r.error.Refused?
  {
    if "proof" in document {
      return Err(Refused("unsecured_document must not include 'proof'"));
    }
    if |seed| != 32 {
      return Err(Refused("signing_seed must be 32 bytes"));
    }
    var did := PublicKeyToDid(c, c.publicKey(seed));
    var proofOptions: Fields := map["type" := Str(PROOF_TYPE), "cryptosuite" := Str(CRYPTOSUITE),
                                    "verificationMethod" := Str(did + "#" + did[|"did:key:"|..]),
                                    "proofPurpose" := Str(purpose)];
    if created.Some? {
      proofOptions := proofOptions["created" := Str(created.value)];
    }
    if "@context" in document {
      proofOptions := proofOptions["@context" := document["@context"]];
    }
    assert proofOptions == ProofOptions(c, document, seed, purpose, created);
    var proofConfig := ProofConfiguration(proofOptions);
    var signature := c.sign(seed, HashData(c, proofConfig, document));
    proofOptions := proofOptions["proofValue" := Str("z" + c.b58encode(signature))];
    return Ok(c.jcs(Obj(document["proof" := Obj(proofOptions)])));
  }

  /** The secured document is the document with a proof, and these are all the proof's fields: its verification
      method is the signer's DID with its own key part as the fragment, `created` is there when it is given, the
      context when the document has one, and the value is the signature of the two digests. */
  lemma SecuredExactly(c: Suite, document: Fields, seed: Bytes, purpose: string, created: Option<string>)
    requires "proof" !in document
    ensures var secured := Secured(c, document, seed, purpose, created).fields;
            && secured.Keys == document.Keys + {"proof"} && secured["proof"].Obj?
            && (forall key :: key in document ==> secured[key] == document[key])
            && var proof := secured["proof"].fields;
               var key := "z" + c.b58encode([0xED, 0x01] + c.publicKey(seed));
            && proof.Keys == {"type", "cryptosuite", "verificationMethod", "proofPurpose", "proofValue"}
                             + (if created.Some? then {"created"} else {})
                             + (if "@context" in document then {"@context"} else {})
            && proof["type"] == Str("DataIntegrityProof") && proof["cryptosuite"] == Str("eddsa-jcs-2022")
            && proof["verificationMethod"] == Str("did:key:" + key + "#" + key)
            && proof["proofPurpose"] == Str(purpose)
            && (created.Some? ==> proof["created"] == Str(created.value))
            && ("@context" in document ==> proof["@context"] == document["@context"])
            && proof["proofValue"] == Str("z" + c.b58encode(c.sign(seed, TwoDigests(c, proof, document))))
  {
    MethodText(c, seed);
    OptionsExactly(c, document, seed, purpose, created);
    hide ProofOptions, VerificationMethod, PublicKeyToDid, Utf8;
    var options := ProofOptions(c, document, seed, purpose, created);
    var secured := Secured(c, document, seed, purpose, created).fields;
    var proof := secured["proof"].fields;
    assert ProofConfiguration(options) == options == proof - {"proofValue"} && document - {"proof"} == document;
  }

  lemma MethodText(c: Suite, seed: Bytes)
    ensures var key := "z" + c.b58encode([0xED, 0x01] + c.publicKey(seed));
            VerificationMethod(c, seed) == "did:key:" + key + "#" + key
  {
    var did, key := PublicKeyToDid(c, c.publicKey(seed)), "z" + c.b58encode([0xED, 0x01] + c.publicKey(seed));
    assert did == "did:key:" + key;
    assert did[|"did:key:"|..] == key;
  }

  lemma OptionsExactly(c: Suite, document: Fields, seed: Bytes, purpose: string, created: Option<string>)
    ensures var options := ProofOptions(c, document, seed, purpose, created);
            && options.Keys == {"type", "cryptosuite", "verificationMethod", "proofPurpose"}
                               + (if created.Some? then {"created"} else {})
                               + (if "@context" in document then {"@context"} else {})
            && options["type"] == Str("DataIntegrityProof") && options["cryptosuite"] == Str("eddsa-jcs-2022")
            && options["verificationMethod"] == Str(VerificationMethod(c, seed))
            && options["proofPurpose"] == Str(purpose)
            && (created.Some? ==> options["created"] == Str(created.value))
            && ("@context" in document ==> options["@context"] == document["@context"])
            && ProofConfiguration(options) == options
  {
    hide VerificationMethod;
  }

  lemma SignerOf(c: Suite, seed: Bytes)
    requires '#' !in PublicKeyToDid(c, c.publicKey(seed))
    ensures '#' in VerificationMethod(c, seed)
    ensures BeforeHash(VerificationMethod(c, seed)) == PublicKeyToDid(c, c.publicKey(seed))
  {
    var did := PublicKeyToDid(c, c.publicKey(seed));
    BeforeHashOf(did, did[|"did:key:"|..]);
    assert VerificationMethod(c, seed)[|did|] == '#';
  }

  /** What is signed verifies against the signer's own DID and gives the document back, exactly when
      it was signed for the default purpose. */
  lemma SignThenVerify(c: Suite, document: Fields, seed: Bytes, purpose: string, created: Option<string>)
    requires JcsParses(c) && Base58Decodes(c) && SignaturesVerify(c)
    requires "proof" !in document && |seed| == 32
    ensures var did := PublicKeyToDid(c, c.publicKey(seed));
            var r := Verify(c, c.jcs(Secured(c, document, seed, purpose, created)), did);
            if purpose == DEFAULT_PROOF_PURPOSE then r == Ok(Verified(document, did)) else r.Err?
  {
    var secured := Secured(c, document, seed, purpose, created);
    var text := c.jcs(secured);
    assert c.loads(text) == Some(secured);
    SecuredChecks(c, document, seed, purpose, created);
  }

  lemma SecuredChecks(c: Suite, document: Fields, seed: Bytes, purpose: string, created: Option<string>)
    requires Base58Decodes(c) && SignaturesVerify(c)
    requires "proof" !in document && |seed| == 32
    ensures var did := PublicKeyToDid(c, c.publicKey(seed));
            var secured := Secured(c, document, seed, purpose, created);
            var message := HashData(c, ProofOptions(c, document, seed, purpose, created), document);
            var proof := ReadProof(c, secured.fields, true, Some(did));
            && DecodeDid(c, did) == Key(c.publicKey(seed))
            && Without(secured.fields, "proof") == document
            && (purpose == DEFAULT_PROOF_PURPOSE <==> proof.Ok?)
            && (proof.Ok? ==>
                  && ProofConfiguration(proof.value.fields) == ProofOptions(c, document, seed, purpose, created)
                  && ("@context" in document ==> Get(proof.value.fields, "@context") == document["@context"])
                  && CheckSignature(c, c.publicKey(seed), message, proof.value.signature) == Good)
  {
    hide DecodeDid, VerificationMethod, PublicKeyToDid, ProofOptions, HashData, ReadProof, StartsWith;
    assert |c.sign(seed, [])| == 64;
    DidOfKey(c, c.publicKey(seed));
    SignerOf(c, seed);
    OptionsExactly(c, document, seed, purpose, created);
    var options := ProofOptions(c, document, seed, purpose, created);
    var signature := c.sign(seed, HashData(c, options, document));
    var value := "z" + c.b58encode(signature);
    var full := options["proofValue" := Str(value)];
    var secured := Secured(c, document, seed, purpose, created).fields;
    assert secured == document["proof" := Obj(full)];
    assert ProofConfiguration(full) == options;
    assert Without(secured, "proof") == document;
    OptionsRead(c, secured, full, VerificationMethod(c, seed), purpose, PublicKeyToDid(c, c.publicKey(seed)), signature);
    hide Secured, Without;
  }

  lemma OptionsRead(c: Suite, secured: Fields, proof: Fields, vm: string, purpose: string, did: string, signature: Bytes)
    requires Base58Decodes(c) && Get(secured, "proof") == Obj(proof)
    requires Get(proof, "type") == Str(PROOF_TYPE) && Get(proof, "cryptosuite") == Str(CRYPTOSUITE)
    requires Get(proof, "verificationMethod") == Str(vm) && '#' in vm && BeforeHash(vm) == did
    requires Get(proof, "proofPurpose") == Str(purpose)
    requires Get(proof, "proofValue") == Str("z" + c.b58encode(signature))
    ensures var r := ReadProof(c, secured, true, Some(did));
            if purpose == DEFAULT_PROOF_PURPOSE then r == Ok(Proof(proof, did, signature)) else r.Err?
  {
    hide BeforeHash;
    var value := "z" + c.b58encode(signature);
    assert value[1..] == c.b58encode(signature) && StartsWith(value, "z");
  }

  // --- What a signature binds -----------------------------------------------------

  /** The two accepted texts, as JSON. */
  function Parsed(c: Suite, text: string): Fields
  {
    match c.loads(text)
    case Some(Obj(fields)) => fields
    case _ => map[]
  }

  function ProofOf(c: Suite, text: string): Fields
  {
    match Get(Parsed(c, text), "proof")
    case Obj(fields) => fields
    case _ => map[]
  }

  /** The message a hashData signature over this text covers. */
  function SignedMessage(c: Suite, text: string): Bytes
  {
    HashData(c, ProofConfiguration(ProofOf(c, text)), Without(Parsed(c, text), "proof"))
  }

  function SignatureOf(c: Suite, text: string): Bytes
  {
    match Get(ProofOf(c, text), "proofValue")
    case Str(s) => (if s != "" && c.b58decode(s[1..]).Some? then c.b58decode(s[1..]).value else [])
    case _ => []
  }

  /** The proof is one of this suite, names this signer and carries this signature. */
  predicate ProofNames(c: Suite, proof: Fields, signer: string, signature: Bytes)
  {
    var vm, value := Get(proof, "verificationMethod"), Get(proof, "proofValue");
    && Get(proof, "type") == Str("DataIntegrityProof") && Get(proof, "cryptosuite") == Str("eddsa-jcs-2022")
    && vm.Str? && '#' in vm.s && BeforeHash(vm.s) == signer
    && value.Str? && StartsWith(value.s, "z") && c.b58decode(value.s[1..]) == Some(signature)
  }

  lemma ReadProofExactly(c: Suite, secured: Fields, checkPurpose: bool, expected: Option<string>, proof: Proof)
    ensures ReadProof(c, secured, checkPurpose, expected) == Ok(proof)
        <==> && Get(secured, "proof") == Obj(proof.fields)
             && ProofNames(c, proof.fields, proof.signer, proof.signature)
             && (checkPurpose ==> Get(proof.fields, "proofPurpose") == Str("assertionMethod"))
             && (expected.Some? ==> proof.signer == expected.value)
  {
    hide BeforeHash;
  }

  /** A JSON object with a proof object. */
  predicate IsSecured(c: Suite, text: string)
  {
    match c.loads(text)
    case Some(Obj(fields)) => text != "" && Get(fields, "proof").Obj?
    case _ => false
  }

  /** What a hashData signature covers: the digest of the canonical proof without its value, then the digest of the
      canonical document without its proof. */
  function TwoDigests(c: Suite, proof: Fields, secured: Fields): Bytes
  {
    c.sha256(Utf8(c.jcs(Obj(proof - {"proofValue"})))) + c.sha256(Utf8(c.jcs(Obj(secured - {"proof"}))))
  }

  /** A text verifies for a DID exactly when it is a secured document whose proof names that DID, has the default
      purpose and the document's context, and carries a 64-byte signature of the two digests. */
  lemma VerifyExactly(c: Suite, text: string, did: string)
    ensures var proof, secured := ProofOf(c, text), Parsed(c, text);
            Verify(c, text, did).Ok?
            <==> && DecodeDid(c, did).Key? && IsSecured(c, text)
                 && ProofNames(c, proof, did, SignatureOf(c, text))
                 && Get(proof, "proofPurpose") == Str("assertionMethod")
                 && ("@context" in secured ==> PyEq(Get(proof, "@context"), secured["@context"]))
                 && |SignatureOf(c, text)| == 64
                 && c.verifies(IfKey(DecodeDid(c, did)), TwoDigests(c, proof, secured), SignatureOf(c, text))
  {
    hide DecodeDid, PyEq, BeforeHash;
    assert SignedMessage(c, text) == TwoDigests(c, ProofOf(c, text), Parsed(c, text));
    hide HashData, TwoDigests, SignedMessage;
    if IsSecured(c, text) {
      ReadProofExactly(c, Parsed(c, text), true, Some(did), Proof(ProofOf(c, text), did, SignatureOf(c, text)));
      var proof := ReadProof(c, Parsed(c, text), true, Some(did));
      if proof.Ok? {
        ReadProofExactly(c, Parsed(c, text), true, Some(did), proof.value);
      }
      hide ReadProof;
    }
  }

  lemma VerifiedFacts(c: Suite, text: string, did: string)
    requires Verify(c, text, did).Ok?
    ensures DecodeDid(c, did).Key?
    ensures c.verifies(DecodeDid(c, did).key, SignedMessage(c, text), SignatureOf(c, text))
    ensures Verify(c, text, did).value == Verified(Without(Parsed(c, text), "proof"), did)
    ensures Get(ProofOf(c, text), "verificationMethod").Str?
    ensures BeforeHash(Get(ProofOf(c, text), "verificationMethod").s) == did
  {
  }

  /** Two secured documents accepted from one signer with one proof value are the same document with
      the same proof: otherwise the signature covers two messages, or one of the two pairs of
      canonical texts is a SHA-256 collision. */
  lemma SignatureBindsDocument(c: Suite, did: string, t1: string, t2: string)
    requires JcsParses(c) && DigestsAre32Bytes(c)
    requires Verify(c, t1, did).Ok? && Verify(c, t2, did).Ok?
    requires Get(ProofOf(c, t1), "proofValue") == Get(ProofOf(c, t2), "proofValue")
    ensures var config1, config2 := ProofConfiguration(ProofOf(c, t1)), ProofConfiguration(ProofOf(c, t2));
            var doc1, doc2 := Verify(c, t1, did).value.document, Verify(c, t2, did).value.document;
            || (config1 == config2 && doc1 == doc2)
            || SignatureClash(c, DecodeDid(c, did).key, SignatureOf(c, t1), SignedMessage(c, t1), SignedMessage(c, t2))
            || ShaCollision(c, CanonicalBytes(c, config1), CanonicalBytes(c, config2))
            || ShaCollision(c, CanonicalBytes(c, doc1), CanonicalBytes(c, doc2))
  {
    VerifiedFacts(c, t1, did);
    VerifiedFacts(c, t2, did);
    if SignedMessage(c, t1) == SignedMessage(c, t2) {
      HashDataTells(c, ProofConfiguration(ProofOf(c, t1)), Without(Parsed(c, t1), "proof"),
                    ProofConfiguration(ProofOf(c, t2)), Without(Parsed(c, t2), "proof"));
    }
  }

  lemma HashDataTells(c: Suite, config1: Fields, doc1: Fields, config2: Fields, doc2: Fields)
    requires JcsParses(c) && DigestsAre32Bytes(c)
    requires HashData(c, config1, doc1) == HashData(c, config2, doc2)
    ensures || (config1 == config2 && doc1 == doc2)
            || ShaCollision(c, CanonicalBytes(c, config1), CanonicalBytes(c, config2))
            || ShaCollision(c, CanonicalBytes(c, doc1), CanonicalBytes(c, doc2))
  {
    var h1, h2 := HashData(c, config1, doc1), HashData(c, config2, doc2);
    assert h1[..32] == c.sha256(CanonicalBytes(c, config1)) && h1[32..] == c.sha256(CanonicalBytes(c, doc1));
    assert h2[..32] == c.sha256(CanonicalBytes(c, config2)) && h2[32..] == c.sha256(CanonicalBytes(c, doc2));
    if CanonicalBytes(c, config1) == CanonicalBytes(c, config2) && CanonicalBytes(c, doc1) == CanonicalBytes(c, doc2) {
      CanonicalTells(c, config1, config2);
      CanonicalTells(c, doc1, doc2);
    }
  }

  lemma CanonicalTells(c: Suite, a: Fields, b: Fields)
    requires JcsParses(c) && CanonicalBytes(c, a) == CanonicalBytes(c, b)
    ensures a == b
  {
    Utf8Injective(c.jcs(Obj(a)), c.jcs(Obj(b)));
    JcsTells(c, Obj(a), Obj(b));
  }
}
