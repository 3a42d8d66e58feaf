/**
 When two type encodings of selectors are taken to be equal.
 */
module SelectorTypes {
  import opened Wrappers

  const NUL := 0 as char

  function At(s: string, i: nat): char {
    if i < |s| then s[i] else NUL
  }

  /** Type qualifiers and the digits of frame offsets do not matter. */
  predicate Irrelevant(c: char) {
    c in "rnNoORV!" || c in "0123456789"
  }

  /** `skip_irrelevant_type_info` */
  function Skip(s: string, i: nat): (r: nat)
    requires i <= |s|
    ensures i <= r <= |s| && (r < |s| ==> !Irrelevant(s[r]))
    decreases |s| - i
  {
    if i < |s| && Irrelevant(s[i]) then Skip(s, i + 1) else i
  }

  /** `selector_types_equal`, of two encodings; `*` is another way to write `^c` and `^C`. */
  method SelectorTypesEqual(t1: string, t2: string) returns (equal: bool)
    ensures equal == EqualFrom(t1, 0, t2, 0)
  {
    hide EqualFrom, Irrelevant, Skip;
    var i: nat, j: nat := 0, 0;
    // Both halves of the source's condition are about the first encoding.
    while At(t1, i) != NUL
      invariant i <= |t1| && j <= |t2| && EqualFrom(t1, 0, t2, 0) == EqualFrom(t1, i, t2, j)
      decreases |t1| - i
    {
      Unfolded(t1, i, t2, j);
      i, j := Skip(t1, i), Skip(t2, j);
      if At(t1, i) == '*' && At(t2, j) != '*' {
        if At(t2, j) == '^' && (At(t2, j + 1) == 'C' || At(t2, j + 2) == 'c') {
          j := j + 1;
        } else {
          return false;
        }
      } else if At(t2, j) == '*' && At(t1, i) != '*' {
        if At(t1, i) == '^' && (At(t1, i + 1) == 'C' || At(t1, i + 1) == 'c') {
          i := i + 1;
        } else {
          return false;
        }
      } else if At(t1, i) != At(t2, j) {
        return false;
      }
      if At(t1, i) == NUL {
        return true;
      }
      i := i + 1;
      if At(t2, j) != NUL {
        j := j + 1;
      }
    }
    AtEnd(t1, i, t2, j);
    return true;
  }

  lemma AtEnd(a: string, i: nat, b: string, j: nat)
    requires i <= |a| && j <= |b| && At(a, i) == NUL
    ensures EqualFrom(a, i, b, j)
  {
  }

  lemma Unfolded(a: string, i: nat, b: string, j: nat)
    requires i < |a| && j <= |b| && At(a, i) != NUL
    ensures var k, l := Skip(a, i), Skip(b, j); var c, d := At(a, k), At(b, l);
      EqualFrom(a, i, b, j) ==
        if c == '*' && d != '*' then
          d == '^' && (At(b, l + 1) == 'C' || At(b, l + 2) == 'c') && EqualFrom(a, k + 1, b, Next(b, l + 1))
        else if d == '*' && c != '*' then
          c == '^' && (At(a, k + 1) == 'C' || At(a, k + 1) == 'c') && EqualFrom(a, k + 2, b, l + 1)
        else c == d && (c == NUL || EqualFrom(a, k + 1, b, l + 1))
  {
  }

  function EqualFrom(a: string, i: nat, b: string, j: nat): bool
    requires i <= |a| && j <= |b|
    decreases |a| - i
  {
    if At(a, i) == NUL then true
    else
      var k, l := Skip(a, i), Skip(b, j);
      var c, d := At(a, k), At(b, l);
      if c == '*' && d != '*' then
        d == '^' && (At(b, l + 1) == 'C' || At(b, l + 2) == 'c') && EqualFrom(a, k + 1, b, Next(b, l + 1))
      else if d == '*' && c != '*' then
        c == '^' && (At(a, k + 1) == 'C' || At(a, k + 1) == 'c') && EqualFrom(a, k + 2, b, l + 1)
      else c == d && (c == NUL || EqualFrom(a, k + 1, b, l + 1))
  }

  function Next(s: string, i: nat): nat {
    if At(s, i) == NUL then i else i + 1
  }

  function TypesEqual(a: Option<string>, b: Option<string>): bool {
    if a.None? || b.None? then a == b else EqualFrom(a.value, 0, b.value, 0)
  }

  // ----- what it comes to -----

  /** What is left of an encoding without what does not matter. */
  function Relevant(s: string): string {
    if s == "" then "" else if Irrelevant(s[0]) then Relevant(s[1..]) else [s[0]] + Relevant(s[1..])
  }

  predicate Plain(s: string) {
    NUL !in s && '*' !in s
  }

  lemma {:induction false} SkipRelevant(s: string, i: nat)
    requires i <= |s|
    ensures var k := Skip(s, i);
      Relevant(s[i..]) == (if k == |s| then "" else [s[k]] + Relevant(s[k + 1..]))
    ensures i < |s| && Skip(s, i) == |s| ==> Irrelevant(s[|s| - 1])
    decreases |s| - i
  {
    if i < |s| {
      assert s[i..][0] == s[i] && s[i..][1..] == s[i + 1..];
      if Irrelevant(s[i]) {
        SkipRelevant(s, i + 1);
      }
    }
  }

  lemma EqualStep(a: string, i: nat, b: string, j: nat)
    requires i <= |a| && j <= |b| && Plain(a) && Plain(b)
    ensures var k, l := Skip(a, i), Skip(b, j);
      EqualFrom(a, i, b, j) <==>
        i == |a| || (if k == |a| then l == |b| else l < |b| && a[k] == b[l] && EqualFrom(a, k + 1, b, l + 1))
  {
  }

  lemma {:induction false} EqualFromIs(a: string, i: nat, b: string, j: nat)
    requires i <= |a| && j <= |b| && Plain(a) && Plain(b)
    ensures var r, q := Relevant(a[i..]), Relevant(b[j..]);
      EqualFrom(a, i, b, j) <==> r == q || (r <= q && (i < |a| ==> !Irrelevant(a[|a| - 1])))
    decreases |a| - i
  {
    hide EqualFrom, Irrelevant, Plain, Relevant;
    EqualStep(a, i, b, j);
    SkipRelevant(a, i);
    SkipRelevant(b, j);
    assert a[|a|..] == "" && Relevant("") == "" by { NothingLeft(); }
    var k, l := Skip(a, i), Skip(b, j);
    if i < |a| && k < |a| && l < |b| {
      EqualFromIs(a, k + 1, b, l + 1);
      Beginning(a[k], Relevant(a[k + 1..]), b[l], Relevant(b[l + 1..]));
    }
  }

  lemma NothingLeft()
    ensures Relevant("") == ""
  {
  }

  lemma Beginning(c: char, r: string, d: char, q: string)
    ensures [c] + r == [d] + q <==> c == d && r == q
    ensures [c] + r <= [d] + q <==> c == d && r <= q
  {
    assert ([c] + r)[0] == c && ([d] + q)[0] == d && ([c] + r)[1..] == r && ([d] + q)[1..] == q;
  }

  /**
   Two encodings without `*` are taken to be equal if and only if they are, apart from
   qualifiers and digits, or if the first one is only the beginning of the second and ends in
   something relevant.
   */
  lemma TypesEqualIs(a: string, b: string)
    requires Plain(a) && Plain(b)
    ensures TypesEqual(Some(a), Some(b)) <==>
      Relevant(a) == Relevant(b) || (Relevant(a) <= Relevant(b) && (a != "" ==> !Irrelevant(a[|a| - 1])))
  {
    EqualFromIs(a, 0, b, 0);
    assert a[0..] == a && b[0..] == b;
  }

  /** Every encoding is equal to itself. */
  lemma TypesEqualSelf(t: Option<string>)
    ensures TypesEqual(t, t)
  {
    if t.Some? {
      EqualFromSelf(t.value, 0);
    }
  }

  lemma {:induction false} EqualFromSelf(s: string, i: nat)
    requires i <= |s|
    ensures EqualFrom(s, i, s, i)
    decreases |s| - i
  {
    var k := Skip(s, i);
    if At(s, i) != NUL && k < |s| && s[k] != NUL {
      EqualFromSelf(s, k + 1);
    }
  }

  /** The cursor moves over qualifiers and digits only, and to the end of them. */
  lemma {:induction false} SkipIs(s: string, i: nat)
    requires i <= |s|
    ensures forall k :: i <= k < Skip(s, i) ==> s[k] in "rnNoORV!0123456789"
    ensures Skip(s, i) < |s| ==> s[Skip(s, i)] !in "rnNoORV!0123456789"
    decreases |s| - i
  {
    if i < |s| && Irrelevant(s[i]) {
      SkipIs(s, i + 1);
    }
  }

  /** An encoding as compilers emit it, and what it comes to. */
  lemma OffsetsDoNotMatter()
    ensures TypesEqual(Some("rv16@0:8"), Some("v@:")) && TypesEqual(Some("v@:"), Some("rv16@0:8"))
  {
    hide EqualFrom, Relevant, Irrelevant;
    var with, without := "rv16@0:8", "v@:";
    WithoutOffsets();
    SomeCharacters();
    NothingIrrelevant(without);
    TypesEqualIs(with, without);
    TypesEqualIs(without, with);
  }

  lemma WithoutOffsets()
    ensures Relevant("rv16@0:8") == "v@:"
  {
    hide Relevant, Irrelevant;
    SomeCharacters();
    WithoutOffset();
    Leaves("6@0:8", "@0:8", "@:");
    Leaves("16@0:8", "6@0:8", "@:");
    Leaves("v16@0:8", "16@0:8", "@:");
    Leaves("rv16@0:8", "v16@0:8", "v@:");
  }

  lemma WithoutOffset()
    ensures Relevant("@0:8") == "@:"
  {
    hide Relevant, Irrelevant;
    SomeCharacters();
    Leaves("8", "", "");
    Leaves(":8", "8", "");
    Leaves("0:8", ":8", ":");
    Leaves("@0:8", "0:8", ":");
  }

  lemma SomeCharacters()
    ensures Irrelevant('r') && Irrelevant('1') && Irrelevant('6') && Irrelevant('0') && Irrelevant('8')
    ensures !Irrelevant('v') && !Irrelevant('@') && !Irrelevant(':')
  {
  }

  lemma Leaves(s: string, rest: string, left: string)
    requires s != "" && s[1..] == rest && (rest == "" || Relevant(rest) == left)
    requires rest == "" ==> left == ""
    ensures Relevant(s) == if Irrelevant(s[0]) then left else [s[0]] + left
  {
  }

  /** It matters which of the two comes first: because of a common beginning, and for the short form of `^c`. */
  lemma OrderMatters()
    ensures TypesEqual(Some("v@:"), Some("v@:@")) && !TypesEqual(Some("v@:@"), Some("v@:"))
    ensures TypesEqual(Some("^c"), Some("*")) && !TypesEqual(Some("*"), Some("^c"))
    ensures TypesEqual(Some("^C"), Some("*")) && TypesEqual(Some("*"), Some("^C"))
  {
    hide EqualFrom, Relevant;
    Beginnings();
    ShortForms();
  }

  lemma Beginnings()
    ensures TypesEqual(Some("v@:"), Some("v@:@")) && !TypesEqual(Some("v@:@"), Some("v@:"))
  {
    hide EqualFrom, Relevant;
    var short, long := "v@:", "v@:@";
    TypesEqualIs(short, long);
    TypesEqualIs(long, short);
    NothingIrrelevant(short);
    NothingIrrelevant(long);
    assert |long| == 4 && |short| == 3;
  }

  lemma {:induction false} NothingIrrelevant(s: string)
    requires forall i :: 0 <= i < |s| ==> !Irrelevant(s[i])
    ensures Relevant(s) == s
  {
    if s != "" {
      NothingIrrelevant(s[1..]);
    }
  }

  lemma ShortForms()
    ensures EqualFrom("^c", 0, "*", 0) && !EqualFrom("*", 0, "^c", 0)
    ensures EqualFrom("^C", 0, "*", 0) && EqualFrom("*", 0, "^C", 0)
  {
    assert Skip("^c", 0) == 0 && Skip("*", 0) == 0 && Skip("^C", 0) == 0;
  }
}
