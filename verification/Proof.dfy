/** Proof packets: receipts signed by a backend, and how they are tied together. Models proof.py. */
module Proof {
  import opened PyText
  import opened PyJson
  import opened Encoding
  import opened Primitives
  import DataIntegrity

  type Fields = map<string, Json>

  /** What both receipt verifiers return. */
  datatype Receipt = Receipt(body: Fields, signer: string, digest: string)

  // --- One receipt -----------------------------------------------------------------

  /** `verify_signed_jcs`. A signature that is not 64 bytes long is not caught. */
  function VerifySignedJcs(c: Suite, receipt: Json, expected: Option<string>): Result<Receipt, Failure>
  {
    if !receipt.Str? || receipt.s == "" then Err(Refused("receipt_jcs must be a non-empty string"))
    else
      match c.loads(receipt.s)
      case None => Err(Refused("not JSON"))
      case Some(parsed) =>
        if !parsed.Obj? then Err(Refused("not an object"))
        else
          match DataIntegrity.ReadProof(c, parsed.fields, false, expected)
          case Err(e) => Err(e)
          case Ok(proof) =>
            var key := DecodeDid(c, proof.signer);
            var body := Without(parsed.fields, "proof");
            if !key.Key? then Err(Refused("signer DID"))
            else
              match CheckSignature(c, key.key, DataIntegrity.CanonicalBytes(c, body), proof.signature)
              case Good => Ok(Receipt(body, proof.signer, TextDigest(c, receipt.s)))
              case Bad => Err(Refused("receipt signature verification failed"))
              case Malformed => Err(Crash("ValueError"))
  }

  predicate Schema3(schema: Json)
  {
    schema == Str("decision_receipt/3") || schema == Str("execution_receipt/3")
    || schema == Str("human_approval_receipt/3")
  }

  /** What looking `schema_version` up in a frozenset does before any check has been made. */
  datatype Peek = DataIntegrityPath | LegacyPath | Unhashable

  function PeekSchema(c: Suite, receipt: Json): Peek
  {
    if !receipt.Str? then LegacyPath
    else
      match c.loads(receipt.s)
      case Some(Obj(fields)) =>
        var schema := Get(fields, "schema_version");
        if schema.Arr? || schema.Obj? then Unhashable
        else if Schema3(schema) then DataIntegrityPath
        else LegacyPath
      case _ => LegacyPath
  }

  /** The DID before the `#` of the proof's verification method. */
  function NamedSigner(c: Suite, text: string): string
  {
    match Get(DataIntegrity.ProofOf(c, text), "verificationMethod")
    case Str(vm) => BeforeHash(vm)
    case _ => ""
  }

  /** What `_verify_backend_receipt` decides, with no reference to an order of the trusted DIDs. */
  function BackendReceipt(c: Suite, receipt: Json, trusted: set<string>): Result<Receipt, Failure>
  {
    match PeekSchema(c, receipt)
    case Unhashable => Err(Crash("TypeError"))
    case LegacyPath =>
      (match VerifySignedJcs(c, receipt, None)
       case Err(e) => Err(e)
       case Ok(r) => if r.signer in trusted then Ok(r) else Err(Refused("signer is not trusted")))
    case DataIntegrityPath =>
      var signer := NamedSigner(c, receipt.s);
      var verified := DataIntegrity.Verify(c, receipt.s, signer);
      if signer in trusted && verified.Ok?
      then Ok(Receipt(verified.value.document, signer, TextDigest(c, receipt.s)))
      else Err(Refused("signature verification failed"))
  }

  /** `_verify_backend_receipt`: tries the trusted DIDs in whatever order the set yields them. */
  method VerifyBackendReceipt(c: Suite, receipt: Json, trusted: set<string>) returns (r: Result<Receipt, Failure>)
    ensures r.Ok? <==> BackendReceipt(c, receipt, trusted).Ok?
    ensures r.Ok? ==> r == BackendReceipt(c, receipt, trusted)
    ensures r.Err? ==> (r.error.Crash? <==> BackendReceipt(c, receipt, trusted).error.Crash?)
  {
    hide DataIntegrity.Verify, VerifySignedJcs;
    var peek := PeekSchema(c, receipt);
    if peek.Unhashable? {
      return Err(Crash("TypeError"));
    }
    if peek.LegacyPath? {
      r := VerifySignedJcs(c, receipt, None);
      if r.Ok? && r.value.signer !in trusted {
        r := Err(Refused("signer is not trusted"));
      }
      return;
    }
    if trusted == {} {
      return Err(Refused("trusted signer DID(s) are required"));
    }
    var lastError := Refused("");
    var rest := trusted;
    while rest != {}
      invariant rest <= trusted
      invariant forall did :: did in trusted && did !in rest ==> DataIntegrity.Verify(c, receipt.s, did).Err?
      decreases |rest|
    {
      var did :| did in rest;
      rest := rest - {did};
      var verified := DataIntegrity.Verify(c, receipt.s, did);
      if verified.Ok? {
        AcceptedSignerIsNamed(c, receipt.s, did);
        return Ok(Receipt(verified.value.document, verified.value.signer, TextDigest(c, receipt.s)));
      }
      lastError := verified.error;
    }
    return Err(Refused("signature verification failed"));
  }

  lemma AcceptedSignerIsNamed(c: Suite, text: string, did: string)
    requires DataIntegrity.Verify(c, text, did).Ok?
    ensures did == NamedSigner(c, text)
    ensures DataIntegrity.Verify(c, text, did).value.signer == did
  {
    DataIntegrity.VerifiedFacts(c, text, did);
  }

  // --- What acceptance of a receipt means ---------------------------------------------

  function TextOf(receipt: Json): string
  {
    match receipt
    case Str(s) => s
    case _ => ""
  }

  /** What a receipt says, whichever way it is verified. */
  function BodyOf(c: Suite, receipt: Json): Fields
  {
    Without(DataIntegrity.Parsed(c, TextOf(receipt)), "proof")
  }

  /** The message its signature has to cover: the schema it claims decides. */
  function MessageOf(c: Suite, receipt: Json): Bytes
  {
    if PeekSchema(c, receipt).DataIntegrityPath? then DataIntegrity.SignedMessage(c, TextOf(receipt))
    else DataIntegrity.CanonicalBytes(c, BodyOf(c, receipt))
  }

  ghost predicate SignedByTrusted(c: Suite, receipt: Json, trusted: set<string>)
  {
    var signer := NamedSigner(c, TextOf(receipt));
    && signer in trusted && DecodeDid(c, signer).Key?
    && c.verifies(DecodeDid(c, signer).key, MessageOf(c, receipt), DataIntegrity.SignatureOf(c, TextOf(receipt)))
  }

  lemma LegacyFacts(c: Suite, receipt: Json, expected: Option<string>)
    requires VerifySignedJcs(c, receipt, expected).Ok?
    ensures receipt.Str?
    ensures var r := VerifySignedJcs(c, receipt, expected).value;
            && r == Receipt(BodyOf(c, receipt), NamedSigner(c, TextOf(receipt)), TextDigest(c, TextOf(receipt)))
            && DecodeDid(c, r.signer).Key?
            && c.verifies(DecodeDid(c, r.signer).key, DataIntegrity.CanonicalBytes(c, BodyOf(c, receipt)),
                          DataIntegrity.SignatureOf(c, TextOf(receipt)))
  {
    hide DecodeDid, DataIntegrity.CanonicalBytes, TextDigest, BeforeHash;
  }

  /** A legacy receipt verifies exactly when it is a secured document whose proof names an Ed25519 DID and carries a
      64-byte signature of the canonical body. */
  lemma SignedJcsExactly(c: Suite, receipt: Json)
    ensures var text := TextOf(receipt);
            VerifySignedJcs(c, receipt, None).Ok?
            <==> && receipt.Str? && DataIntegrity.IsSecured(c, text)
                 && DataIntegrity.ProofNames(c, DataIntegrity.ProofOf(c, text), NamedSigner(c, text),
                                             DataIntegrity.SignatureOf(c, text))
                 && DecodeDid(c, NamedSigner(c, text)).Key? && |DataIntegrity.SignatureOf(c, text)| == 64
                 && c.verifies(IfKey(DecodeDid(c, NamedSigner(c, text))),
                               Utf8(c.jcs(Obj(DataIntegrity.Parsed(c, text) - {"proof"}))),
                               DataIntegrity.SignatureOf(c, text))
  {
    hide DecodeDid, TextDigest, BeforeHash, Utf8;
    var text := TextOf(receipt);
    if receipt.Str? && DataIntegrity.IsSecured(c, text) {
      var secured := DataIntegrity.Parsed(c, text);
      DataIntegrity.ReadProofExactly(c, secured, false, None, DataIntegrity.Proof(DataIntegrity.ProofOf(c, text),
                                     NamedSigner(c, text), DataIntegrity.SignatureOf(c, text)));
      var proof := DataIntegrity.ReadProof(c, secured, false, None);
      if proof.Ok? {
        DataIntegrity.ReadProofExactly(c, secured, false, None, proof.value);
      }
      hide DataIntegrity.ReadProof;
    }
  }

  /** A secured document whose proof names an Ed25519 DID and carries that DID's 64-byte signature: under one of the
      three /3 schemas, with the default purpose and the document's context, of the two digests, and under any other
      schema that can be looked up, of the canonical body. */
  predicate Genuine(c: Suite, receipt: Json)
  {
    var text := TextOf(receipt);
    var secured, proof := DataIntegrity.Parsed(c, text), DataIntegrity.ProofOf(c, text);
    var schema, signer, signature :=
      Get(secured, "schema_version"), NamedSigner(c, text), DataIntegrity.SignatureOf(c, text);
    && receipt.Str? && DataIntegrity.IsSecured(c, text) && !schema.Arr? && !schema.Obj?
    && DataIntegrity.ProofNames(c, proof, signer, signature) && DecodeDid(c, signer).Key? && |signature| == 64
    && if schema in [Str("decision_receipt/3"), Str("execution_receipt/3"), Str("human_approval_receipt/3")]
       then && Get(proof, "proofPurpose") == Str("assertionMethod")
            && ("@context" in secured ==> PyEq(Get(proof, "@context"), secured["@context"]))
            && c.verifies(DecodeDid(c, signer).key, DataIntegrity.TwoDigests(c, proof, secured), signature)
       else c.verifies(DecodeDid(c, signer).key, Utf8(c.jcs(Obj(secured - {"proof"}))), signature)
  }

  /** A receipt is accepted exactly when it is genuine and its signer trusted. */
  lemma BackendExactly(c: Suite, receipt: Json, trusted: set<string>)
    ensures BackendReceipt(c, receipt, trusted).Ok? <==> Genuine(c, receipt) && NamedSigner(c, TextOf(receipt)) in trusted
  {
    hide DataIntegrity.Verify, VerifySignedJcs, DataIntegrity.TwoDigests, DataIntegrity.ProofNames, TextDigest, DecodeDid,
      PyEq, Utf8;
    SignedJcsExactly(c, receipt);
    DataIntegrity.VerifyExactly(c, TextOf(receipt), NamedSigner(c, TextOf(receipt)));
    if VerifySignedJcs(c, receipt, None).Ok? {
      LegacyFacts(c, receipt, None);
    }
    hide NamedSigner;
  }

  /** An accepted receipt is signed by a trusted DID, over the message its own schema calls for. */
  lemma BackendFacts(c: Suite, receipt: Json, trusted: set<string>)
    requires BackendReceipt(c, receipt, trusted).Ok?
    ensures receipt.Str? && SignedByTrusted(c, receipt, trusted)
    ensures BackendReceipt(c, receipt, trusted).value
         == Receipt(BodyOf(c, receipt), NamedSigner(c, TextOf(receipt)), TextDigest(c, TextOf(receipt)))
  {
    hide DataIntegrity.Verify, VerifySignedJcs, TextDigest, DecodeDid;
    if PeekSchema(c, receipt).LegacyPath? {
      LegacyFacts(c, receipt, None);
    } else {
      DataIntegrity.VerifiedFacts(c, receipt.s, NamedSigner(c, receipt.s));
    }
  }

  /** A document, who secures it, and when. */
  datatype Signing = Signing(document: Fields, seed: Bytes, created: Option<string>)

  function SignerDid(c: Suite, s: Signing): string
  {
    PublicKeyToDid(c, c.publicKey(s.seed))
  }

  function SecuredText(c: Suite, s: Signing): string
  {
    c.jcs(DataIntegrity.Secured(c, s.document, s.seed, DataIntegrity.DEFAULT_PROOF_PURPOSE, s.created))
  }

  /** What a secured document is accepted as. */
  function SecuredReceipt(c: Suite, s: Signing): Receipt
  {
    Receipt(s.document, SignerDid(c, s), TextDigest(c, SecuredText(c, s)))
  }

  predicate Signable(s: Signing)
  {
    "proof" !in s.document && |s.seed| == 32 && Schema3(Get(s.document, "schema_version"))
  }

  lemma SecuredPeek(c: Suite, s: Signing)
    requires JcsParses(c) && Signable(s)
    ensures PeekSchema(c, Str(SecuredText(c, s))).DataIntegrityPath?
  {
    hide DataIntegrity.ProofOptions, DataIntegrity.HashData, DataIntegrity.ProofConfiguration;
    var secured := DataIntegrity.Secured(c, s.document, s.seed, DataIntegrity.DEFAULT_PROOF_PURPOSE, s.created);
    assert c.loads(c.jcs(secured)) == Some(secured);
    assert Get(secured.fields, "schema_version") == Get(s.document, "schema_version");
  }

  /** What a trusted signer secures under a /3 schema is accepted as a receipt, with its body. */
  lemma SignedReceiptAccepted(c: Suite, s: Signing, trusted: set<string>)
    requires JcsParses(c) && Base58Decodes(c) && SignaturesVerify(c) && Signable(s)
    requires SignerDid(c, s) in trusted
    ensures BackendReceipt(c, Str(SecuredText(c, s)), trusted) == Ok(SecuredReceipt(c, s))
  {
    SecuredPeek(c, s);
    hide DataIntegrity.Verify, DataIntegrity.Secured, PublicKeyToDid, TextDigest, NamedSigner, PeekSchema, JcsParses,
      Base58Decodes, SignaturesVerify;
    DataIntegrity.SignThenVerify(c, s.document, s.seed, DataIntegrity.DEFAULT_PROOF_PURPOSE, s.created);
    AcceptedSignerIsNamed(c, SecuredText(c, s), SignerDid(c, s));
  }

  /** Routing: a text signed for the other construction than the one its schema claims is rejected, unless
      one signature covers both messages or the two messages are the same bytes. */
  lemma OtherRouteRejected(c: Suite, receipt: Json, did: string, trusted: set<string>)
    requires receipt.Str?
    requires if PeekSchema(c, receipt).DataIntegrityPath?
             then VerifySignedJcs(c, receipt, Some(did)).Ok?
             else DataIntegrity.Verify(c, receipt.s, did).Ok?
    ensures var raw, hashed := DataIntegrity.CanonicalBytes(c, BodyOf(c, receipt)),
                               DataIntegrity.SignedMessage(c, receipt.s);
            || BackendReceipt(c, receipt, trusted).Err?
            || raw == hashed
            || (DecodeDid(c, did).Key?
                && SignatureClash(c, DecodeDid(c, did).key, DataIntegrity.SignatureOf(c, receipt.s), raw, hashed))
  {
    hide DataIntegrity.SignedMessage, DataIntegrity.CanonicalBytes, DataIntegrity.SignatureOf;
    hide DataIntegrity.Verify, DecodeDid, BackendReceipt, TextDigest;
    if BackendReceipt(c, receipt, trusted).Ok? {
      BackendFacts(c, receipt, trusted);
      if PeekSchema(c, receipt).DataIntegrityPath? {
        LegacyFacts(c, receipt, Some(did));
        ExpectedIsNamed(c, receipt, did);
      } else {
        hide VerifySignedJcs;
        DataIntegrity.VerifiedFacts(c, receipt.s, did);
        AcceptedSignerIsNamed(c, receipt.s, did);
      }
    }
  }

  lemma ExpectedIsNamed(c: Suite, receipt: Json, did: string)
    requires VerifySignedJcs(c, receipt, Some(did)).Ok?
    ensures VerifySignedJcs(c, receipt, Some(did)).value.signer == did
  {
    hide DecodeDid, DataIntegrity.CanonicalBytes, TextDigest, BeforeHash;
  }

  /** The source says that peeking at the schema never raises; it does exactly when the text is an object
      whose `schema_version` is a list or an object. */
  lemma PeekRaisesExactly(c: Suite, receipt: Json, trusted: set<string>)
    ensures BackendReceipt(c, receipt, trusted) == Err(Crash("TypeError"))
        <==> receipt.Str?
             && (match c.loads(receipt.s)
                 case Some(Obj(fields)) => Get(fields, "schema_version").Arr? || Get(fields, "schema_version").Obj?
                 case _ => false)
  {
    hide DataIntegrity.Verify;
    SignedJcsFailures(c, receipt, None);
    hide VerifySignedJcs;
    assert "ValueError" != "TypeError" by {
      assert |"ValueError"| != |"TypeError"|;
    }
  }

  lemma SignedJcsFailures(c: Suite, receipt: Json, expected: Option<string>)
    ensures VerifySignedJcs(c, receipt, expected).Err? ==>
              var e := VerifySignedJcs(c, receipt, expected).error;
              e.Refused? || e == Crash("ValueError")
  {
    ReadProofRefuses(c, DataIntegrity.Parsed(c, TextOf(receipt)), expected);
    hide DecodeDid, DataIntegrity.CanonicalBytes, TextDigest, DataIntegrity.ReadProof, CheckSignature;
  }

  lemma ReadProofRefuses(c: Suite, secured: Fields, expected: Option<string>)
    ensures var r := DataIntegrity.ReadProof(c, secured, false, expected); r.Err? ==> r.error.Refused?
  {
    hide BeforeHash, StartsWith;
  }

  lemma ListSchemaRaises(c: Suite, trusted: set<string>)
    requires JcsParses(c)
    ensures var text := c.jcs(Obj(map["schema_version" := Arr([])]));
            BackendReceipt(c, Str(text), trusted) == Err(Crash("TypeError"))
  {
    var fields: Fields := map["schema_version" := Arr([])];
    assert c.loads(c.jcs(Obj(fields))) == Some(Obj(fields));
  }
}
