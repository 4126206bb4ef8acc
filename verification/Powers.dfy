/** Powers of two and of 256. */
module Powers {

  function PowerOf2(n: nat): (p: nat)
    ensures p > 0
  {
    if n == 0 then 1 else 2 * PowerOf2(n - 1)
  }

  function Power256(n: nat): (p: nat)
    ensures p > 0
  {
    if n == 0 then 1 else 256 * Power256(n - 1)
  }

  lemma Power256Step(n: nat)
    ensures Power256(n + 1) == 256 * Power256(n) && Power256(0) == 1
  {
  }

  lemma PowerOfZero()
    ensures PowerOf2(0) == 1
  {
  }

  lemma {:induction false} PowersGrow(m: nat, n: nat)
    requires m <= n
    ensures Power256(m) <= Power256(n)
  {
    if m < n {
      PowersGrow(m, n - 1);
    }
  }

  lemma {:induction false} PowersAgree(n: nat, r: nat)
    ensures PowerOf2(8 * n + r) == PowerOf2(r) * Power256(n)
  {
    if n > 0 {
      PowersAgree(n - 1, r);
      var e := 8 * (n - 1) + r;
      assert PowerOf2(e + 2) == 4 * PowerOf2(e) && PowerOf2(e + 4) == 4 * PowerOf2(e + 2);
      assert PowerOf2(e + 6) == 4 * PowerOf2(e + 4) && PowerOf2(e + 8) == 4 * PowerOf2(e + 6);
    }
  }
}
