/**
 The ordering of combining marks: within each run of characters of non-zero combining
 class, characters are ordered by class and, within a class, by code.
 */
module CombiningMarks {

  type Unichar = x: nat | x < 0x1_0000

  /** The combining class of a character, from a table that is not part of this model. */
  type Classes = Unichar -> nat

  /** Whether two neighbours are exchanged; this never involves a character of class 0. */
  predicate OutOfOrder(cls: Classes, a: Unichar, b: Unichar) {
    cls(b) != 0 && (cls(a) > cls(b) || (cls(a) == cls(b) && a > b))
  }

  ghost predicate Ordered(cls: Classes, s: seq<Unichar>) {
    forall i :: 0 < i < |s| ==> !OutOfOrder(cls, s[i - 1], s[i])
  }

  /** A place before which a run can end: the end, or that of a character of class 0. */
  ghost predicate Boundary(cls: Classes, s: seq<Unichar>, i: nat) {
    i == |s| || (i < |s| && cls(s[i]) == 0)
  }

  /** The two differ only in the order of characters within runs of non-zero class. */
  ghost predicate SameRuns(cls: Classes, s: seq<Unichar>, t: seq<Unichar>) {
    && |s| == |t|
    && (forall i :: 0 <= i < |s| ==> (cls(s[i]) == 0 <==> cls(t[i]) == 0) && (cls(s[i]) == 0 ==> s[i] == t[i]))
    && (forall i: nat {:trigger Boundary(cls, s, i)} :: Boundary(cls, s, i) ==> multiset(s[..i]) == multiset(t[..i]))
  }

  lemma SameRunsSelf(cls: Classes, s: seq<Unichar>)
    ensures SameRuns(cls, s, s)
  {
  }

  lemma SameBoundary(cls: Classes, s: seq<Unichar>, t: seq<Unichar>, i: nat)
    requires SameRuns(cls, s, t)
    ensures Boundary(cls, s, i) <==> Boundary(cls, t, i)
  {
  }

  lemma SameRunsSymmetric(cls: Classes, s: seq<Unichar>, t: seq<Unichar>)
    requires SameRuns(cls, s, t)
    ensures SameRuns(cls, t, s)
  {
    forall i: nat | Boundary(cls, t, i)
      ensures multiset(t[..i]) == multiset(s[..i])
    {
      SameBoundary(cls, s, t, i);
    }
  }

  lemma SameRunsTransitive(cls: Classes, s: seq<Unichar>, t: seq<Unichar>, u: seq<Unichar>)
    requires SameRuns(cls, s, t) && SameRuns(cls, t, u)
    ensures SameRuns(cls, s, u)
  {
    forall i: nat | Boundary(cls, s, i)
      ensures multiset(s[..i]) == multiset(u[..i])
    {
      SameBoundary(cls, s, t, i);
    }
  }

  lemma SameRunsPermutes(cls: Classes, s: seq<Unichar>, t: seq<Unichar>)
    requires SameRuns(cls, s, t)
    ensures multiset(s) == multiset(t)
  {
    assert Boundary(cls, s, |s|);
    assert s[..|s|] == s && t[..|t|] == t;
  }

  ghost function Swapped(s: seq<Unichar>, i: nat): seq<Unichar>
    requires 0 < i < |s|
  {
    s[i - 1 := s[i]][i := s[i - 1]]
  }

  /** An exchange stays within a run. */
  lemma SwapKeepsRuns(cls: Classes, s: seq<Unichar>, i: nat)
    requires 0 < i < |s| && OutOfOrder(cls, s[i - 1], s[i])
    ensures SameRuns(cls, s, Swapped(s, i))
  {
    var t := Swapped(s, i);
    forall k: nat | Boundary(cls, s, k)
      ensures multiset(s[..k]) == multiset(t[..k])
    {
      if k < i {
        assert t[..k] == s[..k];
      } else if k > i {
        assert s[..k] == s[..i - 1] + [s[i - 1], s[i]] + s[i + 1..k];
        assert t[..k] == s[..i - 1] + [s[i], s[i - 1]] + s[i + 1..k];
      }
    }
  }

  // ----- termination -----

  /** Characters are exchanged so that those with the larger key come later. */
  function Key(cls: Classes, c: Unichar): nat {
    cls(c) * 0x1_0000 + c
  }

  ghost function KeySum(cls: Classes, s: seq<Unichar>): nat {
    if s == [] then 0 else KeySum(cls, s[..|s| - 1]) + Key(cls, s[|s| - 1])
  }

  /** Each key weighted with its place. */
  ghost function Weight(cls: Classes, s: seq<Unichar>): nat {
    if s == [] then 0 else Weight(cls, s[..|s| - 1]) + |s| * Key(cls, s[|s| - 1])
  }

  lemma {:induction false} WeightBounded(cls: Classes, s: seq<Unichar>, n: nat)
    requires |s| <= n
    ensures Weight(cls, s) <= n * KeySum(cls, s)
  {
    if s != [] {
      var k := Key(cls, s[|s| - 1]);
      WeightBounded(cls, s[..|s| - 1], n);
      assert |s| * k <= n * k by {
        assert (n - |s|) * k >= 0;
      }
      assert n * (KeySum(cls, s[..|s| - 1]) + k) == n * KeySum(cls, s[..|s| - 1]) + n * k;
    }
  }

  /** An exchange keeps the sum of the keys and makes the weight grow. */
  lemma {:induction false} SwapAddsWeight(cls: Classes, s: seq<Unichar>, i: nat)
    requires 0 < i < |s| && OutOfOrder(cls, s[i - 1], s[i])
    ensures KeySum(cls, Swapped(s, i)) == KeySum(cls, s) && Weight(cls, Swapped(s, i)) > Weight(cls, s)
    decreases |s|
  {
    hide Weight, KeySum;
    var t, n := Swapped(s, i), |s|;
    if i < n - 1 {
      LastOne(cls, s);
      LastOne(cls, t);
      assert t[..n - 1] == Swapped(s[..n - 1], i) && t[n - 1] == s[n - 1];
      SwapAddsWeight(cls, s[..n - 1], i);
    } else {
      var a, b := Key(cls, s[i - 1]), Key(cls, s[i]);
      var p := s[..n - 2];
      assert t[..n - 2] == p;
      LastTwo(cls, s);
      LastTwo(cls, t);
      ExchangeAdds(n, a, b);
    }
  }

  lemma LastOne(cls: Classes, s: seq<Unichar>)
    requires s != []
    ensures var n := |s|;
      && KeySum(cls, s) == KeySum(cls, s[..n - 1]) + Key(cls, s[n - 1])
      && Weight(cls, s) == Weight(cls, s[..n - 1]) + n * Key(cls, s[n - 1])
  {
  }

  lemma LastTwo(cls: Classes, s: seq<Unichar>)
    requires |s| >= 2
    ensures var n := |s|; var a, b := Key(cls, s[n - 2]), Key(cls, s[n - 1]);
      && KeySum(cls, s) == KeySum(cls, s[..n - 2]) + a + b
      && Weight(cls, s) == Weight(cls, s[..n - 2]) + (n - 1) * a + n * b
  {
    hide Key;
    var n := |s|;
    var q := s[..n - 1];
    assert q[..n - 2] == s[..n - 2] && q[n - 2] == s[n - 2] && |q| == n - 1;
    assert KeySum(cls, q) == KeySum(cls, s[..n - 2]) + Key(cls, s[n - 2]);
    assert Weight(cls, q) == Weight(cls, s[..n - 2]) + (n - 1) * Key(cls, s[n - 2]);
  }

  lemma ExchangeAdds(n: nat, a: nat, b: nat)
    requires a > b && n > 0
    ensures (n - 1) * b + n * a > (n - 1) * a + n * b
  {
    assert n * a == (n - 1) * a + a;
    assert n * b == (n - 1) * b + b;
  }

  // ----- the result is unique -----

  /** Where the run that `i` is in ends. */
  ghost function RunEnd(cls: Classes, s: seq<Unichar>, i: nat): (e: nat)
    requires i <= |s|
    ensures i <= e <= |s| && Boundary(cls, s, e) && forall k :: i <= k < e ==> cls(s[k]) != 0
    decreases |s| - i
  {
    if i == |s| || cls(s[i]) == 0 then i else RunEnd(cls, s, i + 1)
  }

  /** The first character of what is left of an ordered run has the least key. */
  lemma {:induction false} FirstIsLeast(cls: Classes, s: seq<Unichar>, i: nat, k: nat)
    requires Ordered(cls, s) && i <= k < |s| && forall j :: i <= j <= k ==> cls(s[j]) != 0
    ensures Key(cls, s[i]) <= Key(cls, s[k])
    decreases k
  {
    if i < k {
      FirstIsLeast(cls, s, i, k - 1);
      assert !OutOfOrder(cls, s[k - 1], s[k]);
    }
  }

  lemma KeyIsInjective(cls: Classes, a: Unichar, b: Unichar)
    requires Key(cls, a) == Key(cls, b)
    ensures a == b
  {
  }

  /** What is left of a run holds the same characters in both. */
  lemma SameRest(cls: Classes, s: seq<Unichar>, t: seq<Unichar>, i: nat, e: nat)
    requires SameRuns(cls, s, t) && i <= e <= |s| && Boundary(cls, s, e) && s[..i] == t[..i]
    ensures multiset(s[i..e]) == multiset(t[i..e])
  {
    assert s[..e] == s[..i] + s[i..e] && t[..e] == t[..i] + t[i..e];
    assert multiset(s[..i]) + multiset(s[i..e]) == multiset(t[..i]) + multiset(t[i..e]);
    forall x
      ensures multiset(s[i..e])[x] == multiset(t[i..e])[x]
    {
      assert (multiset(s[..i]) + multiset(s[i..e]))[x] == (multiset(t[..i]) + multiset(t[i..e]))[x];
    }
  }

  lemma NextIsSame(cls: Classes, s: seq<Unichar>, t: seq<Unichar>, i: nat)
    requires SameRuns(cls, s, t) && Ordered(cls, s) && Ordered(cls, t) && i < |s| && s[..i] == t[..i]
    ensures s[i] == t[i]
  {
    if cls(s[i]) != 0 {
      var e := RunEnd(cls, s, i);
      SameRest(cls, s, t, i, e);
      LeastOfRest(cls, s, t, i, e);
      LeastOfRest(cls, t, s, i, e);
      KeyIsInjective(cls, s[i], t[i]);
    }
  }

  lemma LeastOfRest(cls: Classes, s: seq<Unichar>, t: seq<Unichar>, i: nat, e: nat)
    requires Ordered(cls, s) && |s| == |t| && i < e <= |s| && multiset(s[i..e]) == multiset(t[i..e])
    requires forall k :: i <= k < e ==> cls(s[k]) != 0
    ensures Key(cls, s[i]) <= Key(cls, t[i])
  {
    assert t[i..e][0] == t[i] && t[i] in multiset(t[i..e]);
    assert t[i] in s[i..e];
    var k :| 0 <= k < |s[i..e]| && s[i..e][k] == t[i];
    FirstIsLeast(cls, s, i, i + k);
  }

  lemma {:induction false} OrderedIsUnique(cls: Classes, s: seq<Unichar>, t: seq<Unichar>, i: nat)
    requires SameRuns(cls, s, t) && Ordered(cls, s) && Ordered(cls, t) && i <= |s|
    ensures s[..i] == t[..i]
  {
    if i > 0 {
      OrderedIsUnique(cls, s, t, i - 1);
      NextIsSame(cls, s, t, i - 1);
      assert s[..i] == s[..i - 1] + [s[i - 1]] && t[..i] == t[..i - 1] + [t[i - 1]];
    }
  }

  /**
   The form is canonical: two sequences are brought into the same form just if they differ
   only in the order of characters within runs.
   */
  lemma UniqueForm(cls: Classes, s: seq<Unichar>, t: seq<Unichar>, s': seq<Unichar>, t': seq<Unichar>)
    requires SameRuns(cls, s, s') && Ordered(cls, s') && SameRuns(cls, t, t') && Ordered(cls, t')
    ensures s' == t' <==> SameRuns(cls, s, t)
  {
    if SameRuns(cls, s, t) {
      SameRunsSymmetric(cls, s, s');
      SameRunsTransitive(cls, s', s, t);
      SameRunsTransitive(cls, s', t, t');
      OrderedIsUnique(cls, s', t', |s'|);
      assert s'[..|s'|] == s' && t'[..|t'|] == t';
    }
    if s' == t' {
      SameRunsSymmetric(cls, t, t');
      SameRunsTransitive(cls, s, s', t);
    }
  }

  // ----- the loop -----

  ghost function Measure(cls: Classes, s: seq<Unichar>): int {
    |s| * KeySum(cls, s) - Weight(cls, s)
  }

  /** One pass over the characters; it tells whether it exchanged any. */
  method Pass(chars: array<Unichar>, count: nat, cls: Classes) returns (notdone: bool)
    requires 1 < count <= chars.Length
    modifies chars
    ensures SameRuns(cls, old(chars[..count]), chars[..count]) && chars[count..] == old(chars[count..])
    ensures if notdone then Measure(cls, chars[..count]) < Measure(cls, old(chars[..count]))
      else chars[..count] == old(chars[..count]) && Ordered(cls, chars[..count])
  {
    ghost var s := chars[..count];
    SameRunsSelf(cls, s);
    notdone := false;
    for i := 1 to count
      invariant SameRuns(cls, s, chars[..count]) && chars[count..] == old(chars[count..])
      invariant if notdone then Measure(cls, chars[..count]) < Measure(cls, s)
        else chars[..count] == s && forall k :: 0 < k < i ==> !OutOfOrder(cls, s[k - 1], s[k])
    {
      if OutOfOrder(cls, chars[i - 1], chars[i]) {
        ghost var t := chars[..count];
        SwapKeepsRuns(cls, t, i);
        SwapAddsWeight(cls, t, i);
        SameRunsTransitive(cls, s, t, Swapped(t, i));
        chars[i - 1], chars[i] := chars[i], chars[i - 1];
        assert chars[..count] == Swapped(t, i);
        notdone := true;
      }
    }
  }

  /** The loop of passes: it ends, and leaves the canonical form. */
  method Reorder(chars: array<Unichar>, count: nat, cls: Classes)
    requires count <= chars.Length
    modifies chars
    ensures SameRuns(cls, old(chars[..count]), chars[..count]) && Ordered(cls, chars[..count])
    ensures forall i :: 0 < i < count && cls(chars[i]) != 0 ==>
      cls(chars[i - 1]) < cls(chars[i]) || (cls(chars[i - 1]) == cls(chars[i]) && chars[i - 1] <= chars[i])
    ensures chars[count..] == old(chars[count..])
    ensures forall i :: 0 <= i < count && cls(old(chars[i])) == 0 ==> chars[i] == old(chars[i])
    ensures multiset(chars[..count]) == multiset(old(chars[..count]))
  {
    ghost var s := chars[..count];
    SameRunsSelf(cls, s);
    if count > 1 {
      var notdone := true;
      while notdone
        invariant SameRuns(cls, s, chars[..count]) && chars[count..] == old(chars[count..])
        invariant !notdone ==> Ordered(cls, chars[..count])
        decreases Measure(cls, chars[..count]), notdone
      {
        ghost var t := chars[..count];
        WeightBounded(cls, t, count);
        notdone := Pass(chars, count, cls);
        SameRunsTransitive(cls, s, t, chars[..count]);
      }
    }
    SameRunsPermutes(cls, s, chars[..count]);
    assert forall i :: 0 <= i < count ==> chars[..count][i] == chars[i] && s[i] == old(chars[i]);
    assert forall i :: 0 < i < count ==> !OutOfOrder(cls, chars[..count][i - 1], chars[..count][i]);
  }
}
