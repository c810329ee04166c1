/** Whole multiples of an amount: quantity times price, by repeated addition. */
module Multiples {

  function Times(k: nat, x: real): real { if k == 0 then 0.0 else Times(k - 1, x) + x }

  lemma {:induction false} TimesAdds(k: nat, m: nat, x: real)
    ensures Times(k + m, x) == Times(k, x) + Times(m, x)
  {
    if m > 0 { TimesAdds(k, m - 1, x); }
  }

  lemma {:induction false} TimesIs(k: nat, x: real)
    ensures Times(k, x) == x * k as real
  {
    if k > 0 {
      TimesIs(k - 1, x);
      assert x * k as real == x * (k - 1) as real + x;
    }
  }

  lemma {:induction false} TimesLess(k: nat, x: real, y: real)
    ensures Times(k, x - y) == Times(k, x) - Times(k, y)
  {
    if k > 0 { TimesLess(k - 1, x, y); }
  }

  lemma {:induction false} TimesPositive(k: nat, x: real)
    requires x > 0.0
    ensures Times(k, x) >= 0.0 && (k > 0 ==> Times(k, x) >= x)
  {
    if k > 0 { TimesPositive(k - 1, x); }
  }
}
