/** Proof of work: the bit test is a bound on the digest as a number. Models pow.py. */
module Pow {
  import opened Encoding
  import opened Powers

  type Octets = seq<bv8>

  /** SHA-256 of a text, as octets. */
  type Sha = string -> Octets

  ghost predicate Digests32(sha: Sha)
  {
    forall text :: |sha(text)| == 32
  }

  function Digit(octet: bv8): (d: nat)
    ensures d < 256
  {
    octet as int
  }

  /** The digest as a big-endian number. */
  function Value(digest: Octets): nat
  {
    if digest == [] then 0 else Digit(digest[0]) * Power256(|digest| - 1) + Value(digest[1..])
  }

  function DigestFor(sha: Sha, challenge: string, nonce: nat): Octets
  {
    sha(challenge + Decimal(nonce))
  }

  /** What makes a nonce a solution: the digest, as a 256-bit number, is below 2^(256 - difficulty). */
  predicate Solves(sha: Sha, challenge: string, difficulty: nat, nonce: nat)
    requires difficulty <= 256
  {
    Value(DigestFor(sha, challenge, nonce)) < PowerOf2(256 - difficulty)
  }

  // --- The mask test -----------------------------------------------------------------

  /** `(0xFF >> remaining_bits) ^ 0xFF if remaining_bits else 0` */
  function Mask(bits: nat): bv8
    requires bits < 8
  {
    if bits == 0 then 0 else (0xFF >> bits) ^ 0xFF
  }

  /** `byte & mask` is not zero. */
  predicate Hits(octet: bv8, mask: bv8)
  {
    octet & mask != 0
  }

  lemma SameOrder(a: bv8, b: bv8)
    ensures a < b <==> Digit(a) < Digit(b)
  {
  }

  lemma ZeroDigit(octet: bv8)
    ensures octet == 0 <==> Digit(octet) == 0
  {
  }

  lemma MaskedOut(b: bv8)
    ensures b & 0x80 == 0 <==> b < 0x80
    ensures b & 0xC0 == 0 <==> b < 0x40
    ensures b & 0xE0 == 0 <==> b < 0x20
    ensures b & 0xF0 == 0 <==> b < 0x10
    ensures b & 0xF8 == 0 <==> b < 0x08
    ensures b & 0xFC == 0 <==> b < 0x04
    ensures b & 0xFE == 0 <==> b < 0x02
  {
  }

  /** The bound on a digit that goes with the mask. */
  function Limit(bits: nat): bv8
    requires 0 < bits < 8
  {
    match bits
    case 1 => 0x80
    case 2 => 0x40
    case 3 => 0x20
    case 4 => 0x10
    case 5 => 0x08
    case 6 => 0x04
    case _ => 0x02
  }

  lemma MaskIs(b: bv8, bits: nat)
    requires 0 < bits < 8
    ensures b & Mask(bits) == 0 <==> b < Limit(bits)
  {
    MaskedOut(b);
    assert Mask(bits) == (match bits case 1 => 0x80 case 2 => 0xC0 case 3 => 0xE0 case 4 => 0xF0
                                     case 5 => 0xF8 case 6 => 0xFC case _ => 0xFE);
  }

  lemma LimitIs(bits: nat)
    requires 0 < bits < 8
    ensures Digit(Limit(bits)) == PowerOf2(8 - bits)
  {
    assert PowerOf2(1) == 2 && PowerOf2(2) == 4 && PowerOf2(3) == 8;
    assert PowerOf2(4) == 16 && PowerOf2(5) == 32;
    assert PowerOf2(6) == 64 && PowerOf2(7) == 128;
  }

  lemma MaskTest(octet: bv8, bits: nat)
    requires 0 < bits < 8
    ensures !Hits(octet, Mask(bits)) <==> Digit(octet) < PowerOf2(8 - bits)
    ensures PowerOf2(8 - bits) <= 128
  {
    MaskIs(octet, bits);
    LimitIs(bits);
    SameOrder(octet, Limit(bits));
    assert Digit(Limit(bits)) <= 128;
    hide Mask, Limit, Digit, PowerOf2;
  }

  // --- Numbers below a bound -----------------------------------------------------------

  lemma LeadingDigit(d: int, p: int, v: int, k: int)
    requires 0 <= v < p
    ensures d * p + v < k * p <==> d < k
  {
    if d < k {
      assert (d + 1) * p <= k * p;
    } else {
      assert k * p <= d * p;
    }
  }

  lemma {:induction false} ValueBounded(digest: Octets)
    ensures Value(digest) < Power256(|digest|)
  {
    if digest != [] {
      ValueBounded(digest[1..]);
      Power256Step(|digest| - 1);
      LeadingDigit(Digit(digest[0]), Power256(|digest| - 1), Value(digest[1..]), 256);
      hide Power256, Digit;
    }
  }

  predicate ZeroPrefix(digest: Octets, n: nat)
  {
    n <= |digest| && forall i :: 0 <= i < n ==> digest[i] == 0
  }

  lemma ZeroPrefixEnds(digest: Octets, n: nat)
    requires 1 <= n <= |digest|
    ensures ZeroPrefix(digest, n) <==> digest[0] == 0 && ZeroPrefix(digest[1..], n - 1)
    ensures ZeroPrefix(digest, n) <==> ZeroPrefix(digest, n - 1) && digest[n - 1] == 0
  {
    if digest[0] == 0 && ZeroPrefix(digest[1..], n - 1) {
      assert forall i :: 1 <= i < n ==> digest[i] == digest[1..][i - 1];
    }
  }

  lemma LeadingZero(d: nat, p: int, v: int, bound: int)
    requires 0 <= v < p && bound <= p
    ensures d * p + v < bound <==> d == 0 && v < bound
  {
    if d >= 1 {
      assert d * p >= p;
    }
  }

  lemma Scaled(k: int, q: int)
    requires k <= 256 && q >= 0
    ensures k * q <= 256 * q
  {
  }

  /** A number is below k * 256^m exactly when the digits above position m are zero and that digit is below k. */
  lemma {:induction false} BelowExactly(digest: Octets, n: nat, k: nat)
    requires n < |digest| && 1 <= k <= 256
    ensures Value(digest) < k * Power256(|digest| - 1 - n) <==> ZeroPrefix(digest, n) && Digit(digest[n]) < k
    decreases n
  {
    hide Power256, ZeroPrefix, Digit;
    var p, rest := Power256(|digest| - 1), digest[1..];
    assert Value(digest) == Digit(digest[0]) * p + Value(rest);
    hide Value;
    ValueBounded(rest);
    if n == 0 {
      LeadingDigit(Digit(digest[0]), p, Value(rest), k);
      NoPrefix(digest);
    } else {
      var q := Power256(|digest| - 1 - n);
      BelowExactly(rest, n - 1, k);
      PowersGrow(|digest| - n, |digest| - 1);
      Power256Step(|digest| - 1 - n);
      Scaled(k, q);
      LeadingZero(Digit(digest[0]), p, Value(rest), k * q);
      ZeroPrefixEnds(digest, n);
      ZeroDigit(digest[0]);
    }
  }

  lemma NoPrefix(digest: Octets)
    ensures ZeroPrefix(digest, 0)
  {
  }

  /** The byte test and the mask test of the solver. */
  predicate Passes(digest: Octets, difficulty: nat)
    requires |digest| == 32 && difficulty <= 256
  {
    var full, bits := difficulty / 8, difficulty % 8;
    ZeroPrefix(digest, full) && (bits > 0 ==> !Hits(digest[full], Mask(bits)))
  }

  /** Together they are the bound. */
  lemma TestIsBound(digest: Octets, difficulty: nat)
    requires |digest| == 32 && difficulty <= 256
    ensures Passes(digest, difficulty) <==> Value(digest) < PowerOf2(256 - difficulty)
  {
    hide Value, PowerOf2, Power256, ZeroPrefix, Hits, Mask, Limit, Digit;
    var full, bits := difficulty / 8, difficulty % 8;
    if bits > 0 {
      MaskTest(digest[full], bits);
      BelowExactly(digest, full, PowerOf2(8 - bits));
      PowersAgree(31 - full, 8 - bits);
      assert 256 - difficulty == 8 * (31 - full) + (8 - bits);
    } else {
      PowersAgree(32 - full, 0);
      PowerOfZero();
      assert 256 - difficulty == 8 * (32 - full) + 0;
      if full == 0 {
        ValueBounded(digest);
        NoPrefix(digest);
      } else {
        BelowExactly(digest, full - 1, 1);
        ZeroPrefixEnds(digest, full);
        ZeroDigit(digest[full - 1]);
      }
    }
  }

  /** `solve_pow`: returns the smallest solution if there is one; without one it would not return. */
  method SolvePow(sha: Sha, challenge: string, difficulty: nat, ghost solution: nat) returns (nonceText: string)
    requires Digests32(sha) && difficulty <= 256 && Solves(sha, challenge, difficulty, solution)
    ensures exists n: nat ::
              && nonceText == Decimal(n) && Solves(sha, challenge, difficulty, n)
              && forall m: nat :: m < n ==> !Solves(sha, challenge, difficulty, m)
  {
    hide PowerOf2, Value, Hits, Mask, Decimal;
    var fullBytes, remainingBits := difficulty / 8, difficulty % 8;
    var mask := Mask(remainingBits);
    var nonce := 0;
    while true
      invariant nonce <= solution
      invariant forall m: nat :: m < nonce ==> !Solves(sha, challenge, difficulty, m)
      decreases solution - nonce
    {
      nonceText := Decimal(nonce);
      var digest := sha(challenge + nonceText);
      var valid := true;
      var i := 0;
      while i < fullBytes
        invariant i <= fullBytes && valid && ZeroPrefix(digest, i)
      {
        if digest[i] != 0 {
          valid := false;
          break;
        }
        i := i + 1;
      }
      if valid && remainingBits > 0 && Hits(digest[fullBytes], mask) {
        valid := false;
      }
      assert valid <==> Passes(digest, difficulty);
      TestIsBound(digest, difficulty);
      assert digest == DigestFor(sha, challenge, nonce);
      if valid {
        return nonceText;
      }
      nonce := nonce + 1;
    }
  }
}
