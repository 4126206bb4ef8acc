/** Signed requests: the canonical query and the signed message. Models auth.py. */
module Auth {
  import opened PyText
  import opened Encoding
  import opened Sorting
  import opened Primitives

  type Pair = (string, string)

  /** A value in a parameter dictionary after `str`: a list or tuple, or anything else. */
  datatype Value = One(text: string) | Many(texts: seq<string>)

  /** The forms `params` comes in; a dictionary is its items in their order. */
  datatype Params = Absent | Dict(items: seq<(string, Value)>) | Pairs(pairs: seq<Pair>)

  // --- Percent-encoding (RFC 3986 sections 2.1 and 2.3) ---------------------------------

  const UPPER_HEX := "0123456789ABCDEF"

  predicate Unreserved(b: Byte)
  {
    0x41 <= b <= 0x5A || 0x61 <= b <= 0x7A || 0x30 <= b <= 0x39 || b == 0x2D || b == 0x2E || b == 0x5F || b == 0x7E
  }

  function QuoteByte(b: Byte): string
  {
    if Unreserved(b) then [b as char] else ['%', UPPER_HEX[b / 16], UPPER_HEX[b % 16]]
  }

  function QuoteBytes(bytes: Bytes): string
  {
    if bytes == [] then "" else QuoteByte(bytes[0]) + QuoteBytes(bytes[1..])
  }

  /** `urllib.parse.quote(text, safe="")` */
  function Quote(text: string): string
  {
    QuoteBytes(Utf8(text))
  }

  /** Letters, digits, `-._~` and `%`. */
  predicate QuotedChar(ch: char)
  {
    ch == '%' || ((ch as int) < 256 && Unreserved(ch as int))
  }

  predicate QuotedText(s: string)
  {
    forall i :: 0 <= i < |s| ==> QuotedChar(s[i])
  }

  /** The number that an upper-case hexadecimal digit stands for. */
  function UpperHexValue(digit: char): int
  {
    if '0' <= digit <= '9' then digit as int - '0' as int
    else if 'A' <= digit <= 'F' then digit as int - 'A' as int + 10
    else -1
  }

  lemma UpperHexIs(i: nat)
    requires i < 16
    ensures UpperHexValue(UPPER_HEX[i]) == i && QuotedChar(UPPER_HEX[i])
  {
  }

  /** Letters, digits and four marks stand for themselves, every other byte for `%` and its two upper-case digits. */
  lemma QuoteByteExactly(b: Byte)
    ensures var ch, q := b as char, QuoteByte(b);
            if 'A' <= ch <= 'Z' || 'a' <= ch <= 'z' || '0' <= ch <= '9' || ch in "-._~" then q == [ch]
            else |q| == 3 && q[0] == '%' && 16 * UpperHexValue(q[1]) + UpperHexValue(q[2]) == b
                 && 0 <= UpperHexValue(q[1]) < 16 && 0 <= UpperHexValue(q[2]) < 16
    ensures QuotedText(QuoteByte(b)) && QuoteByte(b) != "" && (QuoteByte(b)[0] == '%' <==> |QuoteByte(b)| == 3)
  {
    UpperHexIs(b / 16);
    UpperHexIs(b % 16);
    hide UpperHexValue, UPPER_HEX;
  }

  /** Percent-decoding. */
  function PercentDecode(s: string): seq<int>
    decreases |s|
  {
    if s == "" then []
    else if s[0] == '%' && |s| >= 3
    then [16 * UpperHexValue(s[1]) + UpperHexValue(s[2])] + PercentDecode(s[3..])
    else [s[0] as int] + PercentDecode(s[1..])
  }

  lemma DecodeFirst(b: Byte, rest: string)
    ensures PercentDecode(QuoteByte(b) + rest) == [b as int] + PercentDecode(rest)
  {
    QuoteByteExactly(b);
    var q := QuoteByte(b);
    hide QuoteByte, UpperHexValue, QuotedText;
    assert (q + rest)[|q|..] == rest;
  }

  /** What is quoted decodes to the bytes it came from. */
  lemma {:induction false} PercentDecodes(bytes: Bytes)
    ensures PercentDecode(QuoteBytes(bytes)) == bytes
  {
    if bytes != [] {
      DecodeFirst(bytes[0], QuoteBytes(bytes[1..]));
      PercentDecodes(bytes[1..]);
      hide QuoteByte, PercentDecode;
      assert bytes == [bytes[0]] + bytes[1..];
    }
  }

  lemma {:induction false} QuotedChars(bytes: Bytes)
    ensures QuotedText(QuoteBytes(bytes))
  {
    if bytes != [] {
      QuoteByteExactly(bytes[0]);
      QuotedChars(bytes[1..]);
      hide QuoteByte, QuotedChar, UpperHexValue;
    }
  }

  lemma NoSeparators(text: string)
    requires QuotedText(text)
    ensures '&' !in text && '=' !in text && ':' !in text
  {
    forall i | 0 <= i < |text| ensures text[i] != '&' && text[i] != '=' && text[i] != ':' {
      assert QuotedChar(text[i]);
    }
  }

  lemma QuoteReads(text: string)
    ensures PercentDecode(Quote(text)) == Utf8(text)
    ensures '&' !in Quote(text) && '=' !in Quote(text) && ':' !in Quote(text)
  {
    hide QuoteBytes, PercentDecode, QuotedText;
    PercentDecodes(Utf8(text));
    QuotedChars(Utf8(text));
    NoSeparators(Quote(text));
  }

  // --- The order of the pairs ---------------------------------------------------------

  /** Strings compare by code points. */
  predicate TextLeq(a: string, b: string)
  {
    a == "" || (b != "" && (a[0] < b[0] || (a[0] == b[0] && TextLeq(a[1..], b[1..]))))
  }

  /** `a` is a prefix of `b`, or smaller at the first character where they differ. */
  predicate NotAfter(a: string, b: string)
  {
    a <= b || exists k :: 0 <= k < |a| && k < |b| && a[..k] == b[..k] && a[k] < b[k]
  }

  lemma {:induction false} TextLeqExactly(a: string, b: string)
    ensures TextLeq(a, b) <==> NotAfter(a, b)
  {
    if a != "" && b != "" && a[0] == b[0] {
      TextLeqExactly(a[1..], b[1..]);
      assert a == [a[0]] + a[1..] && b == [b[0]] + b[1..];
      if k :| 0 <= k < |a[1..]| && k < |b[1..]| && a[1..][..k] == b[1..][..k] && a[1..][k] < b[1..][k] {
        assert a[..k + 1] == [a[0]] + a[1..][..k] && b[..k + 1] == [b[0]] + b[1..][..k];
        assert a[k + 1] < b[k + 1];
      }
      if k :| 0 <= k < |a| && k < |b| && a[..k] == b[..k] && a[k] < b[k] {
        assert k > 0 && a[1..][..k - 1] == a[..k][1..] && b[1..][..k - 1] == b[..k][1..];
        assert a[1..][k - 1] < b[1..][k - 1];
      }
    } else if a != "" && b != "" {
      assert a[..0] == b[..0];
      if k :| 0 <= k < |a| && k < |b| && a[..k] == b[..k] && a[k] < b[k] {
        assert k > 0 ==> a[..k][0] == b[..k][0];
      }
    }
  }

  predicate PairLeq(a: Pair, b: Pair)
  {
    if a.0 == b.0 then TextLeq(a.1, b.1) else TextLeq(a.0, b.0)
  }

  lemma {:induction false} TextOrder(a: string, b: string, c: string)
    ensures TextLeq(a, b) || TextLeq(b, a)
    ensures TextLeq(a, b) && TextLeq(b, a) ==> a == b
    ensures TextLeq(a, b) && TextLeq(b, c) ==> TextLeq(a, c)
  {
    if a != "" && b != "" {
      TextOrder(a[1..], b[1..], if c == "" then "" else c[1..]);
      assert a == [a[0]] + a[1..] && b == [b[0]] + b[1..];
    }
  }

  lemma PairOrder(xs: seq<Pair>)
    ensures TotalPreorder(PairLeq) && Antisymmetric(PairLeq, xs)
  {
    forall a: Pair, b: Pair ensures PairLeq(a, b) || PairLeq(b, a) {
      TextOrder(a.0, b.0, b.0);
      TextOrder(a.1, b.1, b.1);
    }
    forall a: Pair, b: Pair, c: Pair | PairLeq(a, b) && PairLeq(b, c) ensures PairLeq(a, c) {
      TextOrder(a.0, b.0, c.0);
      TextOrder(a.1, b.1, c.1);
    }
    forall a: Pair, b: Pair | PairLeq(a, b) && PairLeq(b, a) ensures a == b {
      TextOrder(a.0, b.0, b.0);
      TextOrder(a.1, b.1, b.1);
    }
  }

  // --- The canonical query --------------------------------------------------------------

  /** `urlencode(pairs, doseq=True, quote_via=quote, safe="")` */
  function UrlEncode(pairs: seq<Pair>): string
  {
    if pairs == [] then ""
    else if |pairs| == 1 then Quote(pairs[0].0) + "=" + Quote(pairs[0].1)
    else Quote(pairs[0].0) + "=" + Quote(pairs[0].1) + "&" + UrlEncode(pairs[1..])
  }

  function Canonical(pairs: seq<Pair>): string
  {
    UrlEncode(Sort(PairLeq, pairs))
  }

  function Expand(key: string, values: seq<string>): seq<Pair>
  {
    if values == [] then [] else Expand(key, values[..|values| - 1]) + [(key, values[|values| - 1])]
  }

  function ItemPairs(item: (string, Value)): seq<Pair>
  {
    match item.1
    case One(text) => [(item.0, text)]
    case Many(texts) => Expand(item.0, texts)
  }

  function DictPairs(items: seq<(string, Value)>): seq<Pair>
  {
    if items == [] then [] else DictPairs(items[..|items| - 1]) + ItemPairs(items[|items| - 1])
  }

  /** The key/value pairs that `params` stands for. */
  function PairsOf(params: Params): seq<Pair>
  {
    match params
    case Absent => []
    case Dict(items) => DictPairs(items)
    case Pairs(pairs) => pairs
  }

  /** `canonicalize_query_params` */
  method CanonicalizeQueryParams(params: Params) returns (query: string)
    ensures query == Canonical(PairsOf(params))
  {
    if params == Absent || params == Dict([]) || params == Pairs([]) {
      return "";
    }
    var pairs: seq<Pair> := [];
    if params.Dict? {
      var i := 0;
      while i < |params.items|
        invariant i <= |params.items| && pairs == DictPairs(params.items[..i])
      {
        var (key, value) := params.items[i];
        assert params.items[..i + 1][..i] == params.items[..i];
        if value.Many? {
          var j := 0;
          ghost var before := pairs;
          while j < |value.texts|
            invariant j <= |value.texts| && pairs == before + Expand(key, value.texts[..j])
          {
            assert value.texts[..j + 1][..j] == value.texts[..j];
            pairs := pairs + [(key, value.texts[j])];
            j := j + 1;
          }
          assert value.texts[..j] == value.texts;
        } else {
          pairs := pairs + [(key, value.text)];
        }
        i := i + 1;
      }
      assert params.items[..i] == params.items;
    } else {
      pairs := params.pairs;
    }
    return UrlEncode(Sort(PairLeq, pairs));
  }

  // --- Cutting a text at a character --------------------------------------------------------

  function Before(s: string, ch: char): (head: string)
    ensures |head| <= |s|
  {
    if s == "" || s[0] == ch then "" else [s[0]] + Before(s[1..], ch)
  }

  function After(s: string, ch: char): (tail: string)
    ensures |tail| <= |s| && (s != "" ==> |tail| < |s|)
  {
    if s == "" then "" else if s[0] == ch then s[1..] else After(s[1..], ch)
  }

  lemma {:induction false} CutFirst(a: string, x: string, ch: char)
    requires ch !in a
    ensures Before(a + [ch] + x, ch) == a && After(a + [ch] + x, ch) == x
    ensures Before(a, ch) == a && After(a, ch) == ""
  {
    var s := a + [ch] + x;
    if a == "" {
      assert s[0] == ch && s[1..] == x;
    } else {
      assert s[0] == a[0] && s[1..] == a[1..] + [ch] + x;
      CutFirst(a[1..], x, ch);
      assert a == [a[0]] + a[1..];
    }
  }

  function BeforeLast(s: string, ch: char): string
  {
    if s == "" then ""
    else if s[|s| - 1] == ch then s[..|s| - 1] else BeforeLast(s[..|s| - 1], ch)
  }

  function AfterLast(s: string, ch: char): string
  {
    if s == "" || s[|s| - 1] == ch then "" else AfterLast(s[..|s| - 1], ch) + [s[|s| - 1]]
  }

  lemma {:induction false} CutLast(a: string, x: string, ch: char)
    requires ch !in x
    ensures BeforeLast(a + [ch] + x, ch) == a && AfterLast(a + [ch] + x, ch) == x
    decreases |x|
  {
    var s := a + [ch] + x;
    if x == "" {
      assert s[|s| - 1] == ch && s[..|s| - 1] == a;
    } else {
      var n := |x| - 1;
      assert s[|s| - 1] == x[n] && s[..|s| - 1] == a + [ch] + x[..n];
      CutLast(a, x[..n], ch);
      assert x == x[..n] + [x[n]];
    }
  }

  // --- Reading a query ------------------------------------------------------------------------

  /** Key and value of each item, decoded. */
  function ReadQuery(s: string): seq<(seq<int>, seq<int>)>
    decreases |s|
  {
    if s == "" then []
    else
      var item := Before(s, '&');
      [(PercentDecode(Before(item, '=')), PercentDecode(After(item, '=')))] + ReadQuery(After(s, '&'))
  }

  function InBytes(pairs: seq<Pair>): seq<(seq<int>, seq<int>)>
  {
    if pairs == [] then [] else [(Utf8(pairs[0].0), Utf8(pairs[0].1))] + InBytes(pairs[1..])
  }

  /** Splitting an encoded query at its separators and decoding the parts gives the pairs back, in their order. */
  lemma {:induction false} QueryReads(pairs: seq<Pair>)
    ensures ReadQuery(UrlEncode(pairs)) == InBytes(pairs)
    ensures ':' !in UrlEncode(pairs)
  {
    if pairs != [] {
      hide Quote, PercentDecode, Before, After;
      var (key, value) := pairs[0];
      QuoteReads(key);
      QuoteReads(value);
      var item := Quote(key) + "=" + Quote(value);
      CutFirst(Quote(key), Quote(value), '=');
      QueryReads(pairs[1..]);
      CutFirst(item, UrlEncode(pairs[1..]), '&');
      if |pairs| == 1 {
        assert pairs[1..] == [];
      }
    }
  }

  lemma {:induction false} InBytesInjective(a: seq<Pair>, b: seq<Pair>)
    requires InBytes(a) == InBytes(b)
    ensures a == b
  {
    if a != [] && b != [] {
      assert InBytes(a)[1..] == InBytes(a[1..]) && InBytes(b)[1..] == InBytes(b[1..]);
      assert InBytes(a)[0] == InBytes(b)[0];
      Utf8Injective(a[0].0, b[0].0);
      Utf8Injective(a[0].1, b[0].1);
      InBytesInjective(a[1..], b[1..]);
      assert a == [a[0]] + a[1..] && b == [b[0]] + b[1..];
    }
  }

  lemma UrlEncodeInjective(a: seq<Pair>, b: seq<Pair>)
    requires UrlEncode(a) == UrlEncode(b)
    ensures a == b
  {
    QueryReads(a);
    QueryReads(b);
    InBytesInjective(a, b);
  }

  /** The pairs are in the order of their keys, and those of one key in the order of their values. */
  predicate InOrder(pairs: seq<Pair>)
  {
    forall i, j :: 0 <= i < j < |pairs| ==>
      NotAfter(pairs[i].0, pairs[j].0) && (pairs[i].0 == pairs[j].0 ==> NotAfter(pairs[i].1, pairs[j].1))
  }

  lemma NotAfterItself(text: string)
    ensures NotAfter(text, text)
  {
  }

  /** The canonical query reads back as the given pairs, each as often, in order. */
  lemma CanonicalReads(pairs: seq<Pair>)
    ensures var sorted := Sort(PairLeq, pairs);
            ReadQuery(Canonical(pairs)) == InBytes(sorted) && multiset(sorted) == multiset(pairs) && InOrder(sorted)
  {
    var sorted := Sort(PairLeq, pairs);
    QueryReads(sorted);
    PairOrder(pairs);
    SortSorts(PairLeq, pairs);
    hide TotalPreorder, Antisymmetric, ReadQuery, InBytes, UrlEncode, TextLeq, NotAfter;
    forall i, j | 0 <= i < j < |sorted|
      ensures NotAfter(sorted[i].0, sorted[j].0)
      ensures sorted[i].0 == sorted[j].0 ==> NotAfter(sorted[i].1, sorted[j].1)
    {
      assert PairLeq(sorted[i], sorted[j]);
      TextLeqExactly(sorted[i].0, sorted[j].0);
      TextLeqExactly(sorted[i].1, sorted[j].1);
      NotAfterItself(sorted[i].0);
    }
  }

  /** Two parameter lists have one canonical query exactly when they hold the same pairs, each as often. */
  lemma CanonicalExactly(a: seq<Pair>, b: seq<Pair>)
    ensures Canonical(a) == Canonical(b) <==> multiset(a) == multiset(b)
  {
    PairOrder(a);
    SortSorts(PairLeq, a);
    SortSorts(PairLeq, b);
    hide TotalPreorder, Antisymmetric, SortedBy, PairLeq;
    if Canonical(a) == Canonical(b) {
      UrlEncodeInjective(Sort(PairLeq, a), Sort(PairLeq, b));
    }
    if multiset(a) == multiset(b) {
      SortForgetsOrder(PairLeq, a, b);
    }
  }

  // --- The signed message ----------------------------------------------------------------

  /** What `build_auth_header` is given, with the timestamp and the random nonce it draws. */
  datatype Request = Request(verb: string, path: string, body: Bytes, params: Params, forceV2: bool,
                             timestamp: nat, nonce: Bytes)

  predicate Version2(r: Request)
  {
    Canonical(PairsOf(r.params)) != "" || r.forceV2
  }

  /** Timestamp, nonce and body hash, each after a colon. */
  function Tail(c: Suite, r: Request): string
  {
    ":" + Decimal(r.timestamp) + ":" + Hex(r.nonce) + ":" + Hex(c.sha256(r.body))
  }

  function Head(r: Request): string
  {
    if Version2(r) then "v2:" + r.verb + ":" + r.path + ":" + Canonical(PairsOf(r.params))
    else r.verb + ":" + r.path
  }

  function Message(c: Suite, r: Request): string
  {
    Head(r) + Tail(c, r)
  }

  /** What a signed text says. */
  datatype Reading = Reading(v2: bool, verb: string, path: string, query: string,
                             timestamp: string, nonce: string, bodyHash: string)

  /** Timestamp, nonce and body hash are the last three parts between colons. In front of them stand method and path,
      or `v2`, method, path and query. */
  function Read(text: string): Reading
  {
    var upToNonce := BeforeLast(text, ':');
    var upToTime := BeforeLast(upToNonce, ':');
    var front := BeforeLast(upToTime, ':');
    var v2 := Before(front, ':') == "v2";
    var request := if v2 then BeforeLast(After(front, ':'), ':') else front;
    Reading(v2, Before(request, ':'), After(request, ':'), if v2 then AfterLast(front, ':') else "",
            AfterLast(upToTime, ':'), AfterLast(upToNonce, ':'), AfterLast(text, ':'))
  }

  lemma NoColonInHex(bytes: Bytes)
    ensures ':' !in Hex(bytes)
  {
    forall i | 0 <= i < |Hex(bytes)| ensures Hex(bytes)[i] != ':' {
      HexChars(bytes, i);
    }
  }

  /** HTTP methods have no colon, and none is called `v2`. */
  predicate PlainMethod(r: Request)
  {
    ':' !in r.verb && r.verb != "v2"
  }

  lemma EndReads(front: string, timestamp: string, nonce: string, bodyHash: string)
    requires ':' !in timestamp && ':' !in nonce && ':' !in bodyHash
    ensures var text := front + ":" + timestamp + ":" + nonce + ":" + bodyHash;
            var upToNonce := BeforeLast(text, ':');
            var upToTime := BeforeLast(upToNonce, ':');
            && BeforeLast(upToTime, ':') == front && AfterLast(upToTime, ':') == timestamp
            && AfterLast(upToNonce, ':') == nonce && AfterLast(text, ':') == bodyHash
  {
    CutLast(front + ":" + timestamp + ":" + nonce, bodyHash, ':');
    CutLast(front + ":" + timestamp, nonce, ':');
    CutLast(front, timestamp, ':');
  }

  lemma Version2Reads(request: string, query: string)
    requires ':' !in query
    ensures var front := "v2:" + request + ":" + query;
            && Before(front, ':') == "v2" && BeforeLast(After(front, ':'), ':') == request
            && AfterLast(front, ':') == query
  {
    hide Before, After, BeforeLast, AfterLast;
    var front := "v2:" + request + ":" + query;
    assert front == "v2" + ":" + (request + ":" + query);
    CutFirst("v2", request + ":" + query, ':');
    CutLast(request, query, ':');
    CutLast("v2:" + request, query, ':');
  }

  lemma FrontReads(r: Request)
    requires PlainMethod(r)
    ensures var front, query := Head(r), Canonical(PairsOf(r.params));
            var v2 := Before(front, ':') == "v2";
            var request := if v2 then BeforeLast(After(front, ':'), ':') else front;
            && v2 == (query != "" || r.forceV2)
            && Before(request, ':') == r.verb && After(request, ':') == r.path
            && (if v2 then AfterLast(front, ':') == query else query == "")
  {
    var query, request := Canonical(PairsOf(r.params)), r.verb + ":" + r.path;
    QueryReads(Sort(PairLeq, PairsOf(r.params)));
    assert ':' !in query;
    hide Canonical, Before, After, BeforeLast, AfterLast, PairsOf;
    CutFirst(r.verb, r.path, ':');
    if Version2(r) {
      assert Head(r) == "v2:" + request + ":" + query;
      hide Head;
      Version2Reads(request, query);
    }
  }

  /** For a plain method the signed text says version 2 exactly when there is a query or it is forced, then method, path
      and canonical query, the timestamp in decimal, the nonce in hexadecimal and the body's digest. Paths may contain
      colons. */
  lemma MessageReads(c: Suite, r: Request)
    requires PlainMethod(r)
    ensures var query := Canonical(PairsOf(r.params));
            Read(Message(c, r)) == Reading(query != "" || r.forceV2, r.verb, r.path, query,
                                           Decimal(r.timestamp), Hex(r.nonce), Hex(c.sha256(r.body)))
  {
    var query, front := Canonical(PairsOf(r.params)), Head(r);
    DecimalReads(r.timestamp);
    NoColonInHex(r.nonce);
    NoColonInHex(c.sha256(r.body));
    hide Canonical, Hex, Decimal, Before, After, BeforeLast, AfterLast, PairsOf;
    var t, n, h := Decimal(r.timestamp), Hex(r.nonce), Hex(c.sha256(r.body));
    assert Message(c, r) == front + ":" + t + ":" + n + ":" + h;
    EndReads(front, t, n, h);
    hide Head, Message;
    FrontReads(r);
  }

  /** The signed message determines the request: version, method, path, the parameters up to their order, timestamp,
      nonce, and the body unless the two bodies collide. */
  lemma MessageDetermines(c: Suite, r1: Request, r2: Request)
    requires PlainMethod(r1) && PlainMethod(r2) && Message(c, r1) == Message(c, r2)
    ensures Version2(r1) == Version2(r2) && r1.verb == r2.verb && r1.path == r2.path
    ensures multiset(PairsOf(r1.params)) == multiset(PairsOf(r2.params))
    ensures r1.timestamp == r2.timestamp && r1.nonce == r2.nonce
    ensures r1.body == r2.body || ShaCollision(c, r1.body, r2.body)
  {
    MessageReads(c, r1);
    MessageReads(c, r2);
    hide Message, Read, Canonical;
    DecimalInjective(r1.timestamp, r2.timestamp);
    HexInjective(r1.nonce, r2.nonce);
    HexInjective(c.sha256(r1.body), c.sha256(r2.body));
    CanonicalExactly(PairsOf(r1.params), PairsOf(r2.params));
  }

  /** Both conditions on the method are needed: a method `v2` makes a version 1 message read as version 2,
      and a method with a colon can take its end from the path. */
  lemma MessageIsAmbiguousOtherwise(c: Suite, body: Bytes, timestamp: nat, nonce: Bytes)
    ensures Message(c, Request("v2", "GET:/x:", body, Absent, false, timestamp, nonce))
         == Message(c, Request("GET", "/x", body, Absent, true, timestamp, nonce))
    ensures Message(c, Request("A:B", "C", body, Absent, false, timestamp, nonce))
         == Message(c, Request("A", "B:C", body, Absent, false, timestamp, nonce))
  {
    assert Canonical([]) == "";
    assert "v2" + ":" + "GET:/x:" == "v2:" + "GET" + ":" + "/x" + ":" + "";
    assert "A:B" + ":" + "C" == "A" + ":" + "B:C";
  }

  /** One signature over two requests with plain methods: the same request, or a broken primitive. */
  lemma SignatureBindsRequest(c: Suite, key: Bytes, signature: Bytes, r1: Request, r2: Request)
    requires PlainMethod(r1) && PlainMethod(r2)
    requires c.verifies(key, Utf8(Message(c, r1)), signature) && c.verifies(key, Utf8(Message(c, r2)), signature)
    ensures || SignatureClash(c, key, signature, Utf8(Message(c, r1)), Utf8(Message(c, r2)))
            || ShaCollision(c, r1.body, r2.body)
            || (r1.verb == r2.verb && r1.path == r2.path && r1.body == r2.body
                && multiset(PairsOf(r1.params)) == multiset(PairsOf(r2.params))
                && r1.timestamp == r2.timestamp && r1.nonce == r2.nonce)
  {
    hide Message, PlainMethod;
    if Utf8(Message(c, r1)) == Utf8(Message(c, r2)) {
      Utf8Injective(Message(c, r1), Message(c, r2));
      MessageDetermines(c, r1, r2);
    }
  }
}
