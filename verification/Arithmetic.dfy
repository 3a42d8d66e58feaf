module Arithmetic {

  ghost function Pow2(e: nat): (r: nat)
    ensures r > 0
  {
    if e == 0 then 1 else 2 * Pow2(e - 1)
  }

  lemma {:induction false} Pow2Sum(e: nat, f: nat)
    ensures Pow2(e + f) == Pow2(e) * Pow2(f)
  {
    if e > 0 {
      Pow2Sum(e - 1, f);
      Twice(Pow2(e - 1), Pow2(f));
    }
  }

  lemma Twice(a: int, b: int)
    ensures 2 * a * b == 2 * (a * b)
  {
  }

  lemma PowersOf8()
    ensures Pow2(8) == 0x100 && Pow2(16) == 0x1_0000 && Pow2(24) == 0x100_0000
  {
    Pow2Sum(8, 8);
    Pow2Sum(8, 16);
    assert Pow2(8) == 0x100;
  }

  lemma TimesAtLeast(k: int, n: nat)
    ensures k >= 1 ==> k * n >= n
  {
    if k >= 1 {
      assert k * n == (k - 1) * n + n;
    }
  }

  lemma ModUnique(x: nat, q: nat, b: nat, n: nat)
    requires n > 0 && x == q * n + b && b < n
    ensures x % n == b
  {
    var q', b' := x / n, x % n;
    assert x == q' * n + b';
    TimesAtLeast(q - q', n);
    TimesAtLeast(q' - q, n);
    assert (q - q') * n == q * n - q' * n && (q' - q) * n == q' * n - q * n;
  }

  lemma ModMultiple(r: nat, m: nat, n: nat)
    requires n > 0
    ensures (m * n + r) % n == r % n
  {
    var a, b := r / n, r % n;
    assert m * n + r == (m + a) * n + b;
    ModUnique(m * n + r, m + a, b, n);
  }

  lemma ModPlus(x: nat, d: nat, n: nat)
    requires n > 0
    ensures (x + d) % n == (x % n + d) % n
  {
    assert x + d == x / n * n + (x % n + d);
    ModMultiple(x % n + d, x / n, n);
  }

  ghost function Least(s: set<nat>): (r: nat)
    requires s != {}
    ensures r in s && forall x :: x in s ==> r <= x
  {
    LeastExists(s);
    var r :| r in s && forall x :: x in s ==> r <= x;
    r
  }

  lemma LeastExists(s: set<nat>)
    requires s != {}
    ensures exists r :: r in s && forall x :: x in s ==> r <= x
  {
    var r := HasLeast(s);
  }

  /** Every non-empty set of numbers has a least element. */
  lemma HasLeast(s: set<nat>) returns (r: nat)
    requires s != {}
    ensures r in s && forall x :: x in s ==> r <= x
  {
    r :| r in s;
    if s != {r} {
      var y := HasLeast(s - {r});
      forall x | x in s
        ensures (if r < y then r else y) <= x
      {
        assert x == r || x in s - {r};
      }
      r := if r < y then r else y;
    }
  }
}
