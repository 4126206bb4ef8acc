/** The audit hash chain and its standalone verifier. Models examples/proof_pack/verify_chain.py. */
module AuditChain {
  import opened PyText
  import opened PyJson
  import opened Encoding
  import opened Primitives
  import opened Sorting

  /** An audit entry with its fields in place and of their types. */
  datatype Entry = Entry(sequence: int, previous: Option<string>, eventType: string, agentDid: string,
                         payload: Json, createdAt: string, entryHash: string)

  /** SHA-256 and `json.dumps(..., sort_keys=True, separators=(",", ":"))`. */
  datatype Hashing = Hashing(suite: Suite, dumps: Json -> string)

  /** `_normalize_ts` */
  function NormalizeTs(ts: string): string
  {
    if EndsWith(ts, "Z") then ts[..|ts| - 1] + "+00:00" else ts
  }

  /** Two timestamps are hashed alike exactly when they are the same or the two spellings of UTC. */
  lemma NormalizeTsExactly(a: string, b: string)
    ensures NormalizeTs(a) == NormalizeTs(b)
        <==> || a == b
             || (EndsWith(a, "Z") && b == a[..|a| - 1] + "+00:00")
             || (EndsWith(b, "Z") && a == b[..|b| - 1] + "+00:00")
  {
    var x, y := NormalizeTs(a), NormalizeTs(b);
    if EndsWith(a, "Z") {
      assert x[..|x| - 6] == a[..|a| - 1] && a == a[..|a| - 1] + "Z";
      OffsetIsNoZ(a[..|a| - 1]);
    }
    if EndsWith(b, "Z") {
      assert y[..|y| - 6] == b[..|b| - 1] && b == b[..|b| - 1] + "Z";
      OffsetIsNoZ(b[..|b| - 1]);
    }
  }

  lemma OffsetIsNoZ(text: string)
    ensures !EndsWith(text + "+00:00", "Z")
  {
    var s := text + "+00:00";
    assert s[|s| - 1] == '0' && s[|s| - 1..][0] == '0';
  }

  function Message(h: Hashing, e: Entry): string
  {
    (match e.previous case None => "" case Some(hash) => hash)
    + e.eventType + e.agentDid + (if Truthy(e.payload) then h.dumps(e.payload) else "") + NormalizeTs(e.createdAt)
  }

  /** `recompute_hash` */
  function RecomputeHash(h: Hashing, e: Entry): string
  {
    TextDigest(h.suite, Message(h, e))
  }

  datatype Problem = ChainBreak(sequence: int) | HashMismatch(sequence: int)

  datatype Report = Report(valid: bool, checked: nat, first: int, last: int, lastHash: string, errors: seq<Problem>)

  const EMPTY_REPORT := Report(true, 0, 0, 0, "", [])

  predicate BySequence(a: Entry, b: Entry)
  {
    a.sequence <= b.sequence
  }

  /** What position `i` of the sorted entries has to point at. */
  function ExpectedPrevious(sorted: seq<Entry>, i: nat): Option<string>
    requires i < |sorted|
  {
    if i > 0 then Some(sorted[i - 1].entryHash) else None
  }

  function ProblemsAt(h: Hashing, sorted: seq<Entry>, checkLinkage: bool, i: nat): seq<Problem>
    requires i < |sorted|
  {
    var e := sorted[i];
    (if checkLinkage && e.previous != ExpectedPrevious(sorted, i) then [ChainBreak(e.sequence)] else [])
    + (if RecomputeHash(h, e) != e.entryHash then [HashMismatch(e.sequence)] else [])
  }

  function Problems(h: Hashing, sorted: seq<Entry>, checkLinkage: bool, n: nat): seq<Problem>
    requires n <= |sorted|
  {
    if n == 0 then [] else Problems(h, sorted, checkLinkage, n - 1) + ProblemsAt(h, sorted, checkLinkage, n - 1)
  }

  function ReportOn(h: Hashing, entries: seq<Entry>, checkLinkage: bool): Report
  {
    var sorted := Sort(BySequence, entries);
    if sorted == [] then EMPTY_REPORT
    else
      var errors := Problems(h, sorted, checkLinkage, |sorted|);
      Report(errors == [], |sorted|, sorted[0].sequence, sorted[|sorted| - 1].sequence,
             sorted[|sorted| - 1].entryHash, errors)
  }

  /** `verify_chain` */
  method VerifyChain(h: Hashing, entries: seq<Entry>, checkLinkage: bool) returns (report: Report)
    ensures report == ReportOn(h, entries, checkLinkage)
    ensures report.valid <==> if checkLinkage then ChainValid(h, Sort(BySequence, entries)) else AllHashesMatch(h, entries)
  {
    ValidExactly(h, entries, checkLinkage);
    SameSize(entries);
    hide RecomputeHash, Sort, ChainValid, AllHashesMatch, Problems;
    if entries == [] {
      return EMPTY_REPORT;
    }
    var sorted := Sort(BySequence, entries);
    var errors: seq<Problem> := [];
    NoneYet(h, sorted, checkLinkage);
    var i := 0;
    while i < |sorted|
      invariant i <= |sorted| && errors == Problems(h, sorted, checkLinkage, i)
    {
      var entry := sorted[i];
      var found: seq<Problem> := [];
      if checkLinkage {
        var expected := if i > 0 then Some(sorted[i - 1].entryHash) else None;
        if entry.previous != expected {
          found := found + [ChainBreak(entry.sequence)];
        }
      }
      var recomputed := RecomputeHash(h, entry);
      if recomputed != entry.entryHash {
        found := found + [HashMismatch(entry.sequence)];
      }
      assert found == ProblemsAt(h, sorted, checkLinkage, i);
      errors := errors + found;
      NextProblems(h, sorted, checkLinkage, i);
      i := i + 1;
    }
    var n := |sorted|;
    return Report(errors == [], n, sorted[0].sequence, sorted[n - 1].sequence, sorted[n - 1].entryHash, errors);
  }

  lemma SameSize(entries: seq<Entry>)
    ensures |Sort(BySequence, entries)| == |entries|
  {
    SequenceOrder();
    SortSorts(BySequence, entries);
  }

  lemma NoneYet(h: Hashing, sorted: seq<Entry>, checkLinkage: bool)
    ensures Problems(h, sorted, checkLinkage, 0) == []
  {
  }

  lemma NextProblems(h: Hashing, sorted: seq<Entry>, checkLinkage: bool, i: nat)
    requires i < |sorted|
    ensures Problems(h, sorted, checkLinkage, i + 1)
         == Problems(h, sorted, checkLinkage, i) + ProblemsAt(h, sorted, checkLinkage, i)
  {
  }

  // --- What a valid report means ---------------------------------------------------------

  predicate AllHashesMatch(h: Hashing, entries: seq<Entry>)
  {
    forall i :: 0 <= i < |entries| ==> RecomputeHash(h, entries[i]) == entries[i].entryHash
  }

  predicate AllLinked(sorted: seq<Entry>)
  {
    forall i :: 0 <= i < |sorted| ==> sorted[i].previous == ExpectedPrevious(sorted, i)
  }

  /** A full chain, in order of its sequence numbers. */
  predicate ChainValid(h: Hashing, sorted: seq<Entry>)
  {
    AllHashesMatch(h, sorted) && AllLinked(sorted)
  }

  lemma SequenceOrder()
    ensures TotalPreorder(BySequence)
  {
  }

  predicate InOrder(h: Hashing, sorted: seq<Entry>, checkLinkage: bool, i: nat)
    requires i < |sorted|
  {
    && RecomputeHash(h, sorted[i]) == sorted[i].entryHash
    && (checkLinkage ==> sorted[i].previous == ExpectedPrevious(sorted, i))
  }

  lemma NoProblemExactly(h: Hashing, sorted: seq<Entry>, checkLinkage: bool, i: nat)
    requires i < |sorted|
    ensures ProblemsAt(h, sorted, checkLinkage, i) == [] <==> InOrder(h, sorted, checkLinkage, i)
  {
    hide RecomputeHash;
  }

  predicate AllInOrder(h: Hashing, sorted: seq<Entry>, checkLinkage: bool, n: nat)
    requires n <= |sorted|
  {
    forall i :: 0 <= i < n ==> InOrder(h, sorted, checkLinkage, i)
  }

  lemma OneMoreInOrder(h: Hashing, sorted: seq<Entry>, checkLinkage: bool, n: nat)
    requires n < |sorted|
    ensures AllInOrder(h, sorted, checkLinkage, n + 1)
        <==> AllInOrder(h, sorted, checkLinkage, n) && InOrder(h, sorted, checkLinkage, n)
  {
    hide InOrder;
  }

  lemma {:induction false} NoProblemsExactly(h: Hashing, sorted: seq<Entry>, checkLinkage: bool, n: nat)
    requires n <= |sorted|
    ensures Problems(h, sorted, checkLinkage, n) == [] <==> AllInOrder(h, sorted, checkLinkage, n)
  {
    hide *;
    if n == 0 {
      NoneYet(h, sorted, checkLinkage);
      NoneInOrder(h, sorted, checkLinkage);
    } else {
      NoProblemsExactly(h, sorted, checkLinkage, n - 1);
      NextProblems(h, sorted, checkLinkage, n - 1);
      NoProblemExactly(h, sorted, checkLinkage, n - 1);
      OneMoreInOrder(h, sorted, checkLinkage, n - 1);
    }
  }

  lemma NoneInOrder(h: Hashing, sorted: seq<Entry>, checkLinkage: bool)
    ensures AllInOrder(h, sorted, checkLinkage, 0)
  {
  }

  lemma AllInOrderIs(h: Hashing, sorted: seq<Entry>, checkLinkage: bool)
    ensures AllInOrder(h, sorted, checkLinkage, |sorted|)
        <==> AllHashesMatch(h, sorted) && (checkLinkage ==> AllLinked(sorted))
  {
    hide RecomputeHash, ExpectedPrevious;
    if AllInOrder(h, sorted, checkLinkage, |sorted|) {
      forall i | 0 <= i < |sorted|
        ensures RecomputeHash(h, sorted[i]) == sorted[i].entryHash
        ensures checkLinkage ==> sorted[i].previous == ExpectedPrevious(sorted, i)
      {
        assert InOrder(h, sorted, checkLinkage, i);
      }
    }
  }

  lemma SameElements(h: Hashing, xs: seq<Entry>, ys: seq<Entry>)
    requires forall x :: x in ys ==> x in xs
    requires AllHashesMatch(h, xs)
    ensures AllHashesMatch(h, ys)
  {
    hide RecomputeHash;
    forall i | 0 <= i < |ys| ensures RecomputeHash(h, ys[i]) == ys[i].entryHash {
      assert ys[i] in xs;
    }
  }

  /** A report is valid exactly when all hashes match and, for a full chain, the sorted entries are linked. */
  lemma ValidExactly(h: Hashing, entries: seq<Entry>, checkLinkage: bool)
    ensures ReportOn(h, entries, checkLinkage).valid
        <==> if checkLinkage then ChainValid(h, Sort(BySequence, entries)) else AllHashesMatch(h, entries)
  {
    var sorted := Sort(BySequence, entries);
    SameSize(entries);
    NoProblemsExactly(h, sorted, checkLinkage, |sorted|);
    NoneInOrder(h, sorted, checkLinkage);
    AllInOrderIs(h, sorted, checkLinkage);
    SortedHashesMatch(h, entries);
    hide RecomputeHash, Sort, Problems, AllInOrder, AllHashesMatch, AllLinked;
  }

  lemma SortedHashesMatch(h: Hashing, entries: seq<Entry>)
    ensures AllHashesMatch(h, Sort(BySequence, entries)) <==> AllHashesMatch(h, entries)
  {
    var sorted := Sort(BySequence, entries);
    SequenceOrder();
    SortSorts(BySequence, entries);
    hide RecomputeHash, Sort, AllHashesMatch, SortedBy;
    assert forall x :: x in sorted <==> x in multiset(sorted);
    assert forall x :: x in entries <==> x in multiset(entries);
    if AllHashesMatch(h, entries) {
      SameElements(h, entries, sorted);
    }
    if AllHashesMatch(h, sorted) {
      SameElements(h, sorted, entries);
    }
  }

  /** Without linkage a report is about each entry for itself: any selection of a valid list is valid. */
  lemma SubsetSafe(h: Hashing, entries: seq<Entry>, selection: seq<Entry>)
    requires ReportOn(h, entries, false).valid && forall e :: e in selection ==> e in entries
    ensures ReportOn(h, selection, false).valid
  {
    ValidExactly(h, entries, false);
    ValidExactly(h, selection, false);
    SameElements(h, entries, selection);
  }

  // --- The hash formula, field by field ----------------------------------------------------

  function Concat(texts: seq<string>): string
  {
    if texts == [] then "" else texts[0] + Concat(texts[1..])
  }

  function PreviousText(previous: Option<string>): string
  {
    if previous.Some? then previous.value else ""
  }

  function PayloadText(h: Hashing, payload: Json): string
  {
    if payload in [Null, Bool(false), Num(0), Str(""), Arr([]), Obj(map[])] then "" else h.dumps(payload)
  }

  function TimeText(ts: string): string
  {
    if ts != "" && ts[|ts| - 1] == 'Z' then ts[..|ts| - 1] + "+00:00" else ts
  }

  /** What the documented formula hashes, in its order. */
  function HashedTexts(h: Hashing, e: Entry): seq<string>
  {
    [PreviousText(e.previous), e.eventType, e.agentDid, PayloadText(h, e.payload), TimeText(e.createdAt)]
  }

  function HashedBytes(h: Hashing, e: Entry): Bytes
  {
    Utf8(Concat(HashedTexts(h, e)))
  }

  /** The entry carries the digest that the formula gives. */
  predicate Hashed(h: Hashing, e: Entry)
  {
    e.entryHash == Hex(h.suite.sha256(HashedBytes(h, e)))
  }

  lemma ConcatFive(a: string, b: string, c: string, d: string, e: string)
    ensures Concat([a, b, c, d, e]) == a + b + c + d + e
  {
    assert [e][1..] == [] && Concat([e]) == e;
    assert [d, e][1..] == [e] && Concat([d, e]) == d + e;
    assert [c, d, e][1..] == [d, e] && Concat([c, d, e]) == c + (d + e);
    assert [b, c, d, e][1..] == [c, d, e] && Concat([b, c, d, e]) == b + (c + (d + e));
    assert [a, b, c, d, e][1..] == [b, c, d, e];
    assert a + (b + (c + (d + e))) == a + b + c + d + e;
  }

  lemma MessageIs(h: Hashing, e: Entry)
    ensures Message(h, e) == Concat(HashedTexts(h, e))
  {
    var ts := e.createdAt;
    assert EndsWith(ts, "Z") <==> ts != "" && ts[|ts| - 1] == 'Z' by {
      assert ts != "" ==> ts[|ts| - 1..] == [ts[|ts| - 1]];
    }
    assert PayloadText(h, e.payload) == if Truthy(e.payload) then h.dumps(e.payload) else "";
    hide Truthy, PayloadText, EndsWith;
    ConcatFive(PreviousText(e.previous), e.eventType, e.agentDid, PayloadText(h, e.payload), TimeText(ts));
  }

  lemma HashedIs(h: Hashing, e: Entry)
    ensures Hashed(h, e) <==> RecomputeHash(h, e) == e.entryHash
  {
    MessageIs(h, e);
    hide Message, HashedTexts;
  }

  /** Each entry, in sequence order, names the hash of the one before it, and the first one none. */
  predicate LinkedUp(sorted: seq<Entry>)
  {
    && (sorted != [] ==> sorted[0].previous == None)
    && forall i :: 1 <= i < |sorted| ==> sorted[i].previous == Some(sorted[i - 1].entryHash)
  }

  /** What is reported: validity, exactly when every entry carries its digest and, for a full chain, the entries in
      sequence order are linked up; how many entries there are; and the first, the last and the last hash in that
      order. */
  lemma ReportExactly(h: Hashing, entries: seq<Entry>, checkLinkage: bool)
    ensures var r, sorted := ReportOn(h, entries, checkLinkage), Sort(BySequence, entries);
            && multiset(sorted) == multiset(entries) && |sorted| == |entries|
            && (forall i, j :: 0 <= i < j < |sorted| ==> sorted[i].sequence <= sorted[j].sequence)
            && (r.valid <==> (forall e :: e in entries ==> Hashed(h, e)) && (checkLinkage ==> LinkedUp(sorted)))
            && r.checked == |entries| && (r.valid <==> r.errors == [])
            && (entries != [] ==>
                  && r.first == sorted[0].sequence && r.last == sorted[|sorted| - 1].sequence
                  && r.lastHash == sorted[|sorted| - 1].entryHash)
  {
    hide Sort, Hashed, AllHashesMatch, RecomputeHash, LinkedUp, AllLinked, Problems, SortedBy, TotalPreorder;
    var sorted := Sort(BySequence, entries);
    SequenceOrder();
    SortSorts(BySequence, entries);
    InSequence(sorted);
    ValidExactly(h, entries, checkLinkage);
    SortedHashesMatch(h, entries);
    HashesMatchExactly(h, entries);
    LinkedUpIs(sorted);
  }

  lemma InSequence(sorted: seq<Entry>)
    requires SortedBy(BySequence, sorted)
    ensures forall i, j :: 0 <= i < j < |sorted| ==> sorted[i].sequence <= sorted[j].sequence
  {
    forall i, j | 0 <= i < j < |sorted| ensures sorted[i].sequence <= sorted[j].sequence {
      assert BySequence(sorted[i], sorted[j]);
    }
  }

  lemma LinkedUpIs(sorted: seq<Entry>)
    ensures AllLinked(sorted) <==> LinkedUp(sorted)
  {
    if AllLinked(sorted) && sorted != [] {
      assert sorted[0].previous == ExpectedPrevious(sorted, 0);
    }
  }

  lemma HashesMatchExactly(h: Hashing, entries: seq<Entry>)
    ensures AllHashesMatch(h, entries) <==> forall e :: e in entries ==> Hashed(h, e)
  {
    forall i | 0 <= i < |entries|
      ensures Hashed(h, entries[i]) <==> RecomputeHash(h, entries[i]) == entries[i].entryHash
    {
      HashedIs(h, entries[i]);
    }
    hide Hashed, RecomputeHash;
    if forall e :: e in entries ==> Hashed(h, e) {
      forall i | 0 <= i < |entries| ensures Hashed(h, entries[i]) {
        assert entries[i] in entries;
      }
    }
  }

  // --- Order and prefixes -----------------------------------------------------------------

  predicate DistinctSequences(entries: seq<Entry>)
  {
    forall i, j :: 0 <= i < j < |entries| ==> entries[i].sequence != entries[j].sequence
  }

  /** The order of the input does not matter when the sequence numbers are distinct. */
  lemma OrderDoesNotMatter(h: Hashing, entries: seq<Entry>, shuffled: seq<Entry>, checkLinkage: bool)
    requires DistinctSequences(entries) && multiset(entries) == multiset(shuffled)
    ensures ReportOn(h, entries, checkLinkage) == ReportOn(h, shuffled, checkLinkage)
  {
    SequenceOrder();
    assert Antisymmetric(BySequence, entries);
    SortForgetsOrder(BySequence, entries, shuffled);
  }

  /** With a repeated sequence number it does: the two entries of a valid chain, given one number and
      swapped, are no chain. */
  lemma OrderMattersOtherwise(h: Hashing, a: Entry, b: Entry)
    requires a.sequence == b.sequence && ChainValid(h, [a, b])
    ensures ReportOn(h, [a, b], true).valid && !ReportOn(h, [b, a], true).valid
  {
    ValidExactly(h, [a, b], true);
    ValidExactly(h, [b, a], true);
    hide RecomputeHash;
    SortOfSorted(BySequence, [a, b]);
    SortOfSorted(BySequence, [b, a]);
    assert [a, b][1].previous == ExpectedPrevious([a, b], 1);
    assert ExpectedPrevious([b, a], 0) == None;
  }

  /** Every prefix of a valid chain, in sequence order, is a valid chain. */
  lemma PrefixStaysValid(h: Hashing, entries: seq<Entry>, n: nat)
    requires ReportOn(h, entries, true).valid && n <= |entries|
    ensures n <= |Sort(BySequence, entries)|
    ensures ReportOn(h, Sort(BySequence, entries)[..n], true).valid
  {
    SequenceOrder();
    SortSorts(BySequence, entries);
    var sorted := Sort(BySequence, entries);
    var prefix := sorted[..n];
    ValidExactly(h, entries, true);
    ValidExactly(h, prefix, true);
    SortOfSorted(BySequence, prefix);
    hide RecomputeHash, Sort;
    PrefixValid(h, sorted, n);
  }

  lemma PrefixValid(h: Hashing, sorted: seq<Entry>, n: nat)
    requires n <= |sorted| && ChainValid(h, sorted)
    ensures ChainValid(h, sorted[..n])
  {
    hide RecomputeHash;
    forall i | 0 <= i < n ensures sorted[..n][i].previous == ExpectedPrevious(sorted[..n], i) {
      assert ExpectedPrevious(sorted[..n], i) == ExpectedPrevious(sorted, i);
    }
  }

  // --- Tamper evidence ----------------------------------------------------------------------

  ghost predicate CollisionAt(h: Hashing, a: seq<Entry>, b: seq<Entry>, i: nat)
    requires i < |a| && i < |b|
  {
    ShaCollision(h.suite, Utf8(Message(h, a[i])), Utf8(Message(h, b[i])))
  }

  predicate AgreeAt(h: Hashing, a: seq<Entry>, b: seq<Entry>, i: nat)
    requires i < |a| && i < |b|
  {
    a[i].entryHash == b[i].entryHash && Message(h, a[i]) == Message(h, b[i])
  }

  /** Do the two chains agree from position `i` on, or collide there? */
  ghost predicate AgreeFrom(h: Hashing, a: seq<Entry>, b: seq<Entry>, i: nat)
    requires |a| == |b|
  {
    || (forall j :: i <= j < |a| ==> AgreeAt(h, a, b, j))
    || (exists j :: i <= j < |a| && CollisionAt(h, a, b, j))
  }

  lemma HashLength(h: Hashing, e: Entry)
    requires DigestsAre32Bytes(h.suite) && RecomputeHash(h, e) == e.entryHash
    ensures |e.entryHash| == 64
  {
    assert |h.suite.sha256(Utf8(Message(h, e)))| == 32;
  }

  lemma PreviousLeads(h: Hashing, e: Entry)
    requires e.previous.Some?
    ensures |e.previous.value| <= |Message(h, e)| && Message(h, e)[..|e.previous.value|] == e.previous.value
  {
  }

  /** One step back: equal messages name the same preceding hash. */
  lemma SamePrevious(h: Hashing, a: seq<Entry>, b: seq<Entry>, i: nat)
    requires DigestsAre32Bytes(h.suite) && ChainValid(h, a) && ChainValid(h, b)
    requires 0 < i < |a| && i < |b| && Message(h, a[i]) == Message(h, b[i])
    ensures a[i - 1].entryHash == b[i - 1].entryHash
  {
    HashLength(h, a[i - 1]);
    HashLength(h, b[i - 1]);
    assert a[i].previous == ExpectedPrevious(a, i) && b[i].previous == ExpectedPrevious(b, i);
    hide RecomputeHash, ChainValid;
    PreviousLeads(h, a[i]);
    PreviousLeads(h, b[i]);
    hide Message;
  }

  lemma SameMessage(h: Hashing, a: seq<Entry>, b: seq<Entry>, i: nat)
    requires ChainValid(h, a) && ChainValid(h, b)
    requires i < |a| && i < |b| && a[i].entryHash == b[i].entryHash
    ensures Message(h, a[i]) == Message(h, b[i]) || CollisionAt(h, a, b, i)
  {
    assert RecomputeHash(h, a[i]) == a[i].entryHash && RecomputeHash(h, b[i]) == b[i].entryHash;
    DigestsTell(h.suite, Message(h, a[i]), Message(h, b[i]));
    hide Message, TextDigest;
  }

  /** Backwards from the last hash: as long as nothing collides, the two chains agree. */
  lemma {:induction false} AgreeBackwards(h: Hashing, a: seq<Entry>, b: seq<Entry>, i: nat)
    requires DigestsAre32Bytes(h.suite) && ChainValid(h, a) && ChainValid(h, b)
    requires |a| == |b| > 0 && a[|a| - 1].entryHash == b[|b| - 1].entryHash && i <= |a|
    ensures AgreeFrom(h, a, b, i)
    decreases |a| - i
  {
    if i < |a| {
      AgreeBackwards(h, a, b, i + 1);
      hide Message, ChainValid, CollisionAt, AgreeAt;
      if forall j :: i + 1 <= j < |a| ==> AgreeAt(h, a, b, j) {
        AgreeOneBack(h, a, b, i);
      }
    }
  }

  lemma AgreeOneBack(h: Hashing, a: seq<Entry>, b: seq<Entry>, i: nat)
    requires DigestsAre32Bytes(h.suite) && ChainValid(h, a) && ChainValid(h, b)
    requires |a| == |b| > 0 && a[|a| - 1].entryHash == b[|b| - 1].entryHash && i < |a|
    requires i + 1 < |a| ==> AgreeAt(h, a, b, i + 1)
    ensures AgreeAt(h, a, b, i) || CollisionAt(h, a, b, i)
  {
    hide Message, ChainValid, CollisionAt, DigestsAre32Bytes;
    if i + 1 < |a| {
      SamePrevious(h, a, b, i + 1);
    }
    SameMessage(h, a, b, i);
  }

  /** Two full chains of one length that report one last hash have the same hash and the same hashed message at
      every position, unless the messages at some position collide. */
  lemma LastHashPinsChain(h: Hashing, entries1: seq<Entry>, entries2: seq<Entry>)
    requires DigestsAre32Bytes(h.suite)
    requires var r1, r2 := ReportOn(h, entries1, true), ReportOn(h, entries2, true);
             r1.valid && r2.valid && r1.checked == r2.checked && r1.lastHash == r2.lastHash
    ensures var a, b := Sort(BySequence, entries1), Sort(BySequence, entries2);
            |a| == |b| && AgreeFrom(h, a, b, 0)
  {
    ValidExactly(h, entries1, true);
    ValidExactly(h, entries2, true);
    var a, b := Sort(BySequence, entries1), Sort(BySequence, entries2);
    hide Sort, ChainValid, Message, AgreeFrom, Problems;
    assert |a| == |b|;
    if a != [] {
      AgreeBackwards(h, a, b, 0);
    } else {
      AgreeAtEnd(h, a, b);
    }
  }

  lemma AgreeAtEnd(h: Hashing, a: seq<Entry>, b: seq<Entry>)
    requires |a| == |b|
    ensures AgreeFrom(h, a, b, |a|)
  {
  }

  /** The length has to be compared too: the fields are hashed without separators, so a chain and a single
      entry can report the same last hash. */
  lemma LastHashAloneDoesNot(h: Hashing, sorted: seq<Entry>)
    requires |sorted| >= 2 && ChainValid(h, sorted)
    ensures var last := sorted[|sorted| - 1];
            var single := last.(previous := None, eventType := sorted[|sorted| - 2].entryHash + last.eventType);
            && ReportOn(h, [single], true).valid
            && ReportOn(h, [single], true).lastHash == last.entryHash
  {
    var last := sorted[|sorted| - 1];
    var single := last.(previous := None, eventType := sorted[|sorted| - 2].entryHash + last.eventType);
    assert last.previous == ExpectedPrevious(sorted, |sorted| - 1);
    SameConcatenation(h, last, single);
    ValidExactly(h, [single], true);
    SortOfSorted(BySequence, [single]);
    hide Message, TextDigest;
  }

  lemma SameConcatenation(h: Hashing, e: Entry, single: Entry)
    requires e.previous.Some? && single == e.(previous := None, eventType := e.previous.value + e.eventType)
    ensures Message(h, single) == Message(h, e)
  {
    assert "" + (e.previous.value + e.eventType) == e.previous.value + e.eventType;
  }

  /** A change of the entry shows in the report exactly when it changes the text, unless the two texts collide. */
  ghost predicate Shows(h: Hashing, e: Entry, changed: Entry, textChanges: bool)
  {
    !ReportOn(h, [changed], false).valid
    <==> textChanges && !ShaCollision(h.suite, HashedBytes(h, changed), HashedBytes(h, e))
  }

  lemma OneReportExactly(h: Hashing, e: Entry)
    ensures ReportOn(h, [e], false).valid <==> Hashed(h, e)
  {
    ValidExactly(h, [e], false);
    HashesMatchExactly(h, [e]);
    hide ReportOn, Hashed, AllHashesMatch;
    assert e in [e];
  }

  lemma DigestTells(h: Hashing, e: Entry, changed: Entry)
    requires Hashed(h, e) && changed.entryHash == e.entryHash
    ensures !Hashed(h, changed)
       <==> && Concat(HashedTexts(h, changed)) != Concat(HashedTexts(h, e))
            && !ShaCollision(h.suite, HashedBytes(h, changed), HashedBytes(h, e))
  {
    hide HashedTexts, Concat;
    if Hashed(h, changed) {
      DigestsTell(h.suite, Concat(HashedTexts(h, changed)), Concat(HashedTexts(h, e)));
    }
  }

  /** The source says that tampering with any field breaks the recomputation. It does exactly when the
      concatenation of the hashed texts changes, unless the old and the new one collide. */
  lemma TamperingShowsExactly(h: Hashing, e: Entry, changed: Entry)
    requires Hashed(h, e) && changed.entryHash == e.entryHash
    ensures Shows(h, e, changed, Concat(HashedTexts(h, changed)) != Concat(HashedTexts(h, e)))
  {
    DigestTells(h, e, changed);
    OneReportExactly(h, changed);
    hide ReportOn, Hashed, HashedTexts;
  }

  lemma Surrounded(before: string, x: string, y: string, after: string)
    ensures before + x + after == before + y + after <==> x == y
  {
    var s, t := before + x + after, before + y + after;
    if s == t {
      assert |x| == |y|;
      assert s[|before|..|before| + |x|] == x && t[|before|..|before| + |y|] == y;
    }
  }

  /** Of five texts with one changed, the concatenation changes exactly when that text does. */
  lemma OneTextChanged(texts: seq<string>, k: nat, x: string)
    requires |texts| == 5 && k < 5
    ensures Concat(texts[k := x]) != Concat(texts) <==> x != texts[k]
  {
    ConcatAround(texts, k);
    ConcatAround(texts[k := x], k);
    assert texts[k := x][..k] == texts[..k] && texts[k := x][k + 1..] == texts[k + 1..];
    Surrounded(Concat(texts[..k]), x, texts[k], Concat(texts[k + 1..]));
  }

  lemma {:induction false} ConcatAround(texts: seq<string>, k: nat)
    requires k < |texts|
    ensures Concat(texts) == Concat(texts[..k]) + texts[k] + Concat(texts[k + 1..])
  {
    if k > 0 {
      ConcatAround(texts[1..], k - 1);
      assert texts[1..][..k - 1] == texts[..k][1..] && texts[1..][k..] == texts[k + 1..];
    }
  }

  /** One spelling of UTC and the other. */
  predicate SpelledOtherwise(a: string, b: string)
  {
    a != "" && a[|a| - 1] == 'Z' && b == a[..|a| - 1] + "+00:00"
  }

  lemma TimeTextExactly(a: string, b: string)
    ensures TimeText(a) == TimeText(b) <==> a == b || SpelledOtherwise(a, b) || SpelledOtherwise(b, a)
  {
    assert EndsWith(a, "Z") <==> a != "" && a[|a| - 1] == 'Z' by {
      assert a != "" ==> a[|a| - 1..] == [a[|a| - 1]];
    }
    assert EndsWith(b, "Z") <==> b != "" && b[|b| - 1] == 'Z' by {
      assert b != "" ==> b[|b| - 1..] == [b[|b| - 1]];
    }
    assert NormalizeTs(a) == TimeText(a) && NormalizeTs(b) == TimeText(b);
    NormalizeTsExactly(a, b);
    hide NormalizeTs, TimeText, EndsWith;
  }

  /** Field by field: a new previous hash shows exactly when it is another text, a missing one being empty, a new event
      type or agent always, a new payload exactly when its dump is another, a falsy one being empty, and a new timestamp
      unless it is the other spelling of UTC; each unless the two texts collide. */
  lemma FieldTamperingExactly(h: Hashing, e: Entry, previous: Option<string>, eventType: string, agentDid: string,
                              payload: Json, createdAt: string)
    requires Hashed(h, e)
    ensures Shows(h, e, e.(previous := previous), PreviousText(previous) != PreviousText(e.previous))
    ensures Shows(h, e, e.(eventType := eventType), eventType != e.eventType)
    ensures Shows(h, e, e.(agentDid := agentDid), agentDid != e.agentDid)
    ensures Shows(h, e, e.(payload := payload), PayloadText(h, payload) != PayloadText(h, e.payload))
    ensures Shows(h, e, e.(createdAt := createdAt),
                  createdAt != e.createdAt && !SpelledOtherwise(createdAt, e.createdAt)
                  && !SpelledOtherwise(e.createdAt, createdAt))
  {
    hide Shows, Hashed, Concat, PayloadText, TimeText, PreviousText, SpelledOtherwise;
    OneFieldChanged(h, e, e.(previous := previous), 0, PreviousText(previous));
    OneFieldChanged(h, e, e.(eventType := eventType), 1, eventType);
    OneFieldChanged(h, e, e.(agentDid := agentDid), 2, agentDid);
    OneFieldChanged(h, e, e.(payload := payload), 3, PayloadText(h, payload));
    TimeTextExactly(createdAt, e.createdAt);
    OneFieldChanged(h, e, e.(createdAt := createdAt), 4, TimeText(createdAt));
  }

  lemma OneFieldChanged(h: Hashing, e: Entry, changed: Entry, k: nat, x: string)
    requires Hashed(h, e) && changed.entryHash == e.entryHash
    requires k < 5 && HashedTexts(h, changed) == HashedTexts(h, e)[k := x]
    ensures Shows(h, e, changed, x != HashedTexts(h, e)[k])
  {
    TamperingShowsExactly(h, e, changed);
    OneTextChanged(HashedTexts(h, e), k, x);
    hide Hashed, Concat;
  }

  /** A change that does not show: a character moved from one field to the next. */
  lemma MovedCharacterDoesNotShow(h: Hashing, e: Entry, ch: char)
    requires RecomputeHash(h, e.(eventType := e.eventType + [ch])) == e.entryHash
    ensures RecomputeHash(h, e.(agentDid := [ch] + e.agentDid)) == e.entryHash
  {
    assert (e.eventType + [ch]) + e.agentDid == e.eventType + ([ch] + e.agentDid);
    var previous := match e.previous case None => "" case Some(hash) => hash;
    assert previous + (e.eventType + [ch]) + e.agentDid == previous + e.eventType + ([ch] + e.agentDid);
  }
}
