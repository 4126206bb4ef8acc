/** The libraries the receipt code builds on, as functions the model takes as given, and the few
    facts about them that some results need. */
module Primitives {
  import opened PyText
  import opened PyJson
  import opened Encoding

  /** `json.loads` (None for JSONDecodeError), `jcs.canonicalize` as text, SHA-256, base58, Ed25519 with 32-byte
      seeds, and `strptime`/`strftime` for the one time format in use, in seconds. */
  datatype Suite = Suite(
    loads: string -> Option<Json>,
    jcs: Json -> string,
    sha256: Bytes -> Bytes,
    b58decode: string -> Option<Bytes>,
    b58encode: Bytes -> string,
    publicKey: Bytes -> Bytes,
    sign: (Bytes, Bytes) -> Bytes,
    verifies: (Bytes, Bytes, Bytes) -> bool,
    parseTime: string -> Option<int>,
    formatTime: int -> string)

  /** `datetime.min` and `datetime.max`, in whole seconds since year 1. */
  const MIN_TIME := 0
  const MAX_TIME := 315537897599

  /** A refusal in the terms the function documents, or an exception of another class escaping it. */
  datatype Failure = Refused(reason: string) | Crash(exception: string)

  ghost predicate JcsParses(c: Suite)
  {
    c.loads("") == None && forall j :: c.loads(c.jcs(j)) == Some(j)
  }

  ghost predicate DigestsAre32Bytes(c: Suite)
  {
    forall m :: |c.sha256(m)| == 32
  }

  ghost predicate Base58Decodes(c: Suite)
  {
    forall b :: c.b58decode(c.b58encode(b)) == Some(b) && '#' !in c.b58encode(b)
  }

  ghost predicate SignaturesVerify(c: Suite)
  {
    forall seed, m :: |seed| == 32 ==>
      |c.publicKey(seed)| == 32 && |c.sign(seed, m)| == 64 && c.verifies(c.publicKey(seed), m, c.sign(seed, m))
  }

  /** The first second whose year `strftime` writes with four digits on every platform. */
  const YEAR_1000 := 31525372800

  /** The days before a year in the proleptic Gregorian calendar. */
  function DaysBefore(year: int): int
  {
    var past := year - 1;
    past * 365 + past / 4 - past / 100 + past / 400
  }

  /** The bounds are those of the calendar: from year 1 to year 9999, and the beginning of year 1000. */
  lemma CalendarBounds()
    ensures MIN_TIME == DaysBefore(1) * 86400 && MAX_TIME == DaysBefore(10000) * 86400 - 1
    ensures YEAR_1000 == DaysBefore(1000) * 86400
  {
  }

  /** `strptime` reads what `strftime` has written. */
  predicate Readable(c: Suite, t: int)
  {
    c.parseTime(c.formatTime(t)).Some?
  }

  /** What is read back is what was written, and from year 1000 on it is read back. */
  ghost predicate TimesParse(c: Suite)
  {
    && (forall t :: MIN_TIME <= t <= MAX_TIME && Readable(c, t) ==> c.parseTime(c.formatTime(t)) == Some(t))
    && (forall t :: YEAR_1000 <= t <= MAX_TIME ==> Readable(c, t))
    && (forall s :: c.parseTime(s).Some? ==> MIN_TIME <= c.parseTime(s).value <= MAX_TIME)
  }

  /** Two different messages with one SHA-256 digest. */
  predicate ShaCollision(c: Suite, m1: Bytes, m2: Bytes)
  {
    m1 != m2 && c.sha256(m1) == c.sha256(m2)
  }

  /** One signature that verifies for two different messages under one key. */
  predicate SignatureClash(c: Suite, key: Bytes, signature: Bytes, m1: Bytes, m2: Bytes)
  {
    m1 != m2 && c.verifies(key, m1, signature) && c.verifies(key, m2, signature)
  }

  /** `hashlib.sha256(text.encode()).hexdigest()` */
  function TextDigest(c: Suite, text: string): string
  {
    Hex(c.sha256(Utf8(text)))
  }

  /** Equal digests mean equal texts, unless the two texts are themselves a collision. */
  lemma DigestsTell(c: Suite, t1: string, t2: string)
    requires TextDigest(c, t1) == TextDigest(c, t2)
    ensures t1 == t2 || ShaCollision(c, Utf8(t1), Utf8(t2))
  {
    HexInjective(c.sha256(Utf8(t1)), c.sha256(Utf8(t2)));
    if Utf8(t1) == Utf8(t2) {
      Utf8Injective(t1, t2);
    }
  }

  lemma JcsTells(c: Suite, a: Json, b: Json)
    requires JcsParses(c) && c.jcs(a) == c.jcs(b)
    ensures a == b
  {
    assert c.loads(c.jcs(a)) == Some(a);
  }

  // --- did:key -----------------------------------------------------------------

  const DID_PREFIX := "did:key:z"

  /** `_public_key_to_did` */
  function PublicKeyToDid(c: Suite, key: Bytes): string
  {
    DID_PREFIX + c.b58encode([0xED, 0x01] + key)
  }

  datatype DidKey = Key(key: Bytes) | NotDidKey | NotBase58 | NotEd25519

  /** What every `_did_to_public_key` finds; they differ in what they raise. */
  function DecodeDid(c: Suite, did: string): DidKey
  {
    if !StartsWith(did, DID_PREFIX) then NotDidKey
    else
      match c.b58decode(did[|DID_PREFIX|..])
      case None => NotBase58
      case Some(d) =>
        if |d| != 34 || d[0] != 0xED || d[1] != 0x01 then NotEd25519 else Key(d[2..])
  }

  lemma DidOfKey(c: Suite, key: Bytes)
    requires Base58Decodes(c) && |key| == 32
    ensures DecodeDid(c, PublicKeyToDid(c, key)) == Key(key)
    ensures '#' !in PublicKeyToDid(c, key)
  {
    var d: Bytes := [0xED, 0x01] + key;
    var did := PublicKeyToDid(c, key);
    assert did[..|DID_PREFIX|] == DID_PREFIX && did[|DID_PREFIX|..] == c.b58encode(d);
    assert d[2..] == key;
  }

  /** A DID decodes to a key exactly when it is `did:key:z` and the base58 of ED 01 and the key's 32 bytes. */
  lemma DecodeDidExactly(c: Suite, did: string, key: Bytes)
    ensures DecodeDid(c, did) == Key(key)
        <==> && |did| >= 9 && did[..9] == "did:key:z" && |key| == 32
             && c.b58decode(did[9..]) == Some([0xED, 0x01] + key)
  {
    assert |DID_PREFIX| == 9;
    if StartsWith(did, DID_PREFIX) && c.b58decode(did[9..]).Some? {
      var d := c.b58decode(did[9..]).value;
      if |d| == 34 && d[0] == 0xED && d[1] == 0x01 {
        assert d == [0xED, 0x01] + d[2..];
      }
      if d == [0xED, 0x01] + key {
        assert d[2..] == key;
      }
    }
  }

  /** `s.split("#", 1)[0]` */
  function BeforeHash(s: string): (head: string)
    ensures '#' !in head
    ensures '#' !in s ==> head == s
    ensures '#' in s ==> |head| < |s| && s[..|head|] == head && s[|head|] == '#'
  {
    if s == "" || s[0] == '#' then "" else [s[0]] + BeforeHash(s[1..])
  }

  lemma {:induction false} BeforeHashOf(head: string, tail: string)
    requires '#' !in head
    ensures BeforeHash(head + "#" + tail) == head
  {
    var s := head + "#" + tail;
    if head == "" {
      assert s[0] == '#';
    } else {
      assert s[0] == head[0] && s[1..] == head[1..] + "#" + tail;
      BeforeHashOf(head[1..], tail);
    }
  }

  datatype SignatureCheck = Good | Bad | Malformed

  /** `VerifyKey(key).verify(message, signature)`: BadSignatureError is Bad, a signature that is not 64 bytes
      long raises ValueError. */
  function CheckSignature(c: Suite, key: Bytes, message: Bytes, signature: Bytes): SignatureCheck
  {
    if |signature| != 64 then Malformed
    else if c.verifies(key, message, signature) then Good
    else Bad
  }

  function IfKey(d: DidKey): Bytes
  {
    if d.Key? then d.key else []
  }
}
