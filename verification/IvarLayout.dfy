/**
 The layout of instance variables when a class is loaded: the offsets that the compiler
 gives are relative to the class, and the runtime turns them into offsets from the start of
 the object, behind the variables of the superclasses.
 */
module IvarLayout {
  import opened Wrappers
  import opened Arithmetic

  /** `isBool` tells that the type encoding begins with `B`. */
  datatype Ivar = Ivar(isBool: bool, size: nat, offset: int, align: nat)

  const LONG_MIN := -0x8000_0000_0000_0000

  /** The word for the reference count that precedes every object. */
  const REFCOUNT := 8

  /** Some compilers give the size of a boolean as 0. */
  function RealSize(v: Ivar): nat {
    if v.size == 0 && v.isBool then 1 else v.size
  }

  function Padding(offset: int, align: nat): (p: int)
    requires align > 0
    ensures 0 <= p < align
  {
    if (offset + REFCOUNT) % align != 0 then align - (offset + REFCOUNT) % align else 0
  }

  /** The variables of the loop, and the instance variables that have been laid out. */
  datatype Progress = Progress(next: int, lastOffset: int, lastSize: int, lastComputed: int, size: int, done: seq<Ivar>)

  function Step(p: Progress, v: Ivar): Progress
    requires v.align > 0
  {
    var size := RealSize(v);
    if v.offset < p.lastOffset + p.lastSize then
      // A bit-field within the variable before it.
      p.(done := p.done + [v.(size := size, offset := p.lastComputed + (v.offset - p.lastOffset))])
    else
      var padding := Padding(p.next, v.align);
      Progress(p.next + size + padding, v.offset, size, p.next, p.size + size + padding,
               p.done + [v.(size := size, offset := p.next + padding)])
  }

  ghost predicate Aligned(vs: seq<Ivar>) {
    forall i :: 0 <= i < |vs| ==> vs[i].align > 0
  }

  function Layout(vs: seq<Ivar>, start: int): Progress
    requires Aligned(vs)
  {
    if vs == [] then Progress(start, LONG_MIN, 0, -1, start, [])
    else Step(Layout(vs[..|vs| - 1], start), vs[|vs| - 1])
  }

  /** The ranges that the compiler gave do not overlap and are in order: there are no shared bit-fields. */
  ghost predicate Declared(vs: seq<Ivar>) {
    && Aligned(vs)
    && (forall i :: 0 <= i < |vs| ==> vs[i].offset >= 0)
    && (forall i :: 0 < i < |vs| ==> vs[i - 1].offset + RealSize(vs[i - 1]) <= vs[i].offset)
  }

  /** Where the space before a variable ends. */
  ghost function Before(done: seq<Ivar>, start: int, i: nat): int
    requires i <= |done|
  {
    if i == 0 then start else done[i - 1].offset + done[i - 1].size
  }

  /** Each variable comes at the first aligned place behind the one before it. */
  ghost predicate WellLaid(vs: seq<Ivar>, start: int, done: seq<Ivar>) {
    && |done| == |vs|
    && forall i {:trigger PlacedRight(vs[i], Before(done, start, i), done[i])} :: 0 <= i < |vs| ==>
         PlacedRight(vs[i], Before(done, start, i), done[i])
  }

  ghost predicate PlacedRight(v: Ivar, before: int, done: Ivar) {
    && done.align == v.align > 0 && done.size == RealSize(v) && done.isBool == v.isBool
    && before <= done.offset < before + v.align && (done.offset + REFCOUNT) % v.align == 0
  }

  lemma PaddingAligns(offset: int, align: nat)
    requires align > 0 && offset >= 0
    ensures (offset + Padding(offset, align) + REFCOUNT) % align == 0
  {
    var x: nat, r: nat := offset + REFCOUNT, (offset + REFCOUNT) % align;
    assert x == x / align * align + r;
    if r != 0 {
      assert x + (align - r) == (x / align + 1) * align + 0;
      ModUnique(x + (align - r), x / align + 1, 0, align);
    }
  }

  /** The layout is right, and the instance size is where the last variable ends. */
  lemma {:induction false} LayoutIsRight(vs: seq<Ivar>, start: nat)
    requires Declared(vs)
    ensures var p := Layout(vs, start);
      && WellLaid(vs, start, p.done) && p.size == p.next == Before(p.done, start, |vs|) >= start
      && (if vs == [] then p.lastOffset == LONG_MIN && p.lastSize == 0
          else p.lastOffset == vs[|vs| - 1].offset && p.lastSize == RealSize(vs[|vs| - 1]))
  {
    if vs != [] {
      var front, v := vs[..|vs| - 1], vs[|vs| - 1];
      LayoutIsRight(front, start);
      var p, p' := Layout(front, start), Layout(vs, start);
      assert p' == Step(p, v);
      PaddingAligns(p.next, v.align);
      forall i | 0 <= i < |vs|
        ensures PlacedRight(vs[i], Before(p'.done, start, i), p'.done[i])
      {
        if i < |front| {
          assert PlacedRight(front[i], Before(p.done, start, i), p.done[i]);
          assert Before(p'.done, start, i) == Before(p.done, start, i);
        }
      }
    }
  }

  /** Variables that are laid out right do not overlap and lie between the start and the end. */
  lemma {:induction false} Disjoint(vs: seq<Ivar>, start: int, done: seq<Ivar>, i: nat, j: nat)
    requires WellLaid(vs, start, done) && i < j <= |vs|
    ensures start <= done[i].offset && done[i].offset + done[i].size <= Before(done, start, j)
    ensures j < |vs| ==> done[i].offset + done[i].size <= done[j].offset
    decreases j, i
  {
    assert PlacedRight(vs[i], Before(done, start, i), done[i]);
    if j < |vs| {
      assert PlacedRight(vs[j], Before(done, start, j), done[j]);
    }
    if i + 1 < j {
      Disjoint(vs, start, done, i, j - 1);
      assert PlacedRight(vs[j - 1], Before(done, start, j - 1), done[j - 1]);
    }
    if i > 0 {
      StartsBefore(vs, start, done, i);
    }
  }

  lemma {:induction false} StartsBefore(vs: seq<Ivar>, start: int, done: seq<Ivar>, i: nat)
    requires WellLaid(vs, start, done) && i <= |vs|
    ensures start <= Before(done, start, i)
  {
    if i > 0 {
      StartsBefore(vs, start, done, i - 1);
      assert PlacedRight(vs[i - 1], Before(done, start, i - 1), done[i - 1]);
    }
  }

  // ----- bit-fields within the variable before them -----

  /** The variable at `i` begins within the one that was laid out last. */
  ghost predicate Shares(vs: seq<Ivar>, start: int, i: nat)
    requires Aligned(vs) && i < |vs|
  {
    var p := Layout(vs[..i], start);
    vs[i].offset < p.lastOffset + p.lastSize
  }

  /** Of the first `n` variables, the last one that got a place of its own. */
  ghost function Holder(vs: seq<Ivar>, start: int, n: nat): Option<nat>
    requires Aligned(vs) && n <= |vs|
  {
    if n == 0 then None else if Shares(vs, start, n - 1) then Holder(vs, start, n - 1) else Some(n - 1)
  }

  lemma {:induction false} HolderFacts(vs: seq<Ivar>, start: int, n: nat)
    requires Aligned(vs) && n <= |vs|
    ensures var p := Layout(vs[..n], start); |p.done| == n
    ensures var p := Layout(vs[..n], start);
      match Holder(vs, start, n)
      case None => p.lastOffset == LONG_MIN && p.lastSize == 0
      case Some(k) =>
        && k < n && p.lastOffset == vs[k].offset && p.lastComputed == Layout(vs[..k], start).next
        && p.done[k].offset == p.lastComputed + Padding(p.lastComputed, vs[k].align)
  {
    if n > 0 {
      HolderFacts(vs, start, n - 1);
      assert vs[..n][..n - 1] == vs[..n - 1] && vs[..n][n - 1] == vs[n - 1];
    }
  }

  /**
   A bit-field that begins within another variable keeps its distance from the beginning of
   that variable if and only if that needed no padding.
   */
  lemma SharedPlace(vs: seq<Ivar>, start: nat, i: nat) returns (k: nat)
    requires Aligned(vs) && i < |vs| && Shares(vs, start, i) && vs[i].offset >= LONG_MIN
    ensures Holder(vs, start, i) == Some(k) && k < i
    ensures |Layout(vs[..i + 1], start).done| == i + 1
    ensures var done := Layout(vs[..i + 1], start).done;
      && (done[i].offset - done[k].offset == vs[i].offset - vs[k].offset <==>
            (Layout(vs[..k], start).next + 8) % vs[k].align == 0)
  {
    HolderFacts(vs, start, i);
    k := Holder(vs, start, i).value;
    assert vs[..i + 1][..i] == vs[..i] && vs[..i + 1][i] == vs[i];
  }

  /** A bit-field in a variable of eight bytes, behind a superclass of 12 bytes: it is placed before that variable. */
  lemma SharedMisplaced(word: Ivar, bits: Ivar)
    requires word == Ivar(false, 8, 0, 8) && bits == Ivar(false, 1, 0, 1)
    ensures Aligned([word, bits]) && var done := Layout([word, bits], 12).done;
      |done| == 2 && done[0].offset == 16 && done[1].offset == 12
  {
    assert [word, bits][..1] == [word] && [word][..0] == [];
    assert Layout([word], 12).done[0].offset == 16;
  }

  // ----- a chain of superclasses, the root first -----

  /** The instance size of the last class of a chain. */
  function ChainSize(chain: seq<seq<Ivar>>): int
    requires forall k :: 0 <= k < |chain| ==> Aligned(chain[k])
  {
    if chain == [] then 0 else Layout(chain[|chain| - 1], ChainSize(chain[..|chain| - 1])).size
  }

  /** The variables of the `k`-th class, laid out. */
  function Laid(chain: seq<seq<Ivar>>, k: nat): seq<Ivar>
    requires k < |chain| && forall m :: 0 <= m < |chain| ==> Aligned(chain[m])
  {
    Layout(chain[k], ChainSize(chain[..k])).done
  }

  ghost predicate ChainDeclared(chain: seq<seq<Ivar>>) {
    forall k :: 0 <= k < |chain| ==> Declared(chain[k])
  }

  lemma {:induction false} ChainGrows(chain: seq<seq<Ivar>>, k: nat)
    requires ChainDeclared(chain) && k <= |chain|
    ensures 0 <= ChainSize(chain[..k]) <= ChainSize(chain)
    decreases |chain|
  {
    if k == |chain| {
      assert chain[..k] == chain;
    }
    if chain != [] {
      var front := chain[..|chain| - 1];
      ChainGrows(front, if k < |chain| then k else |chain| - 1);
      LayoutIsRight(chain[|chain| - 1], ChainSize(front));
      if k < |chain| {
        assert front[..k] == chain[..k];
      }
    }
  }

  /**
   The variables of a class lie between the sizes of its superclass and of itself, are
   aligned in memory, and have the sizes declared, except that a boolean of size 0 has one byte.
   */
  lemma ClassRange(chain: seq<seq<Ivar>>, k: nat, i: nat)
    requires ChainDeclared(chain) && k < |chain| && i < |chain[k]|
    ensures |Laid(chain, k)| == |chain[k]|
    ensures var v := Laid(chain, k)[i];
      && ChainSize(chain[..k]) <= v.offset && v.offset + v.size <= ChainSize(chain[..k + 1])
      && v.align == chain[k][i].align > 0 && (v.offset + 8) % v.align == 0
      && v.size == (if chain[k][i].isBool && chain[k][i].size == 0 then 1 else chain[k][i].size)
  {
    ChainGrows(chain, k);
    var start := ChainSize(chain[..k]);
    LayoutIsRight(chain[k], start);
    assert chain[..k + 1][..k] == chain[..k];
    var done := Laid(chain, k);
    assert PlacedRight(chain[k][i], Before(done, start, i), done[i]);
    Disjoint(chain[k], start, done, i, |chain[k]|);
  }

  /** With the sizes declared, no two variables along the chain overlap, whether of the same class or not. */
  lemma ChainDisjoint(chain: seq<seq<Ivar>>, k: nat, i: nat, m: nat, j: nat)
    requires ChainDeclared(chain) && k < |chain| && i < |chain[k]| && m < |chain| && j < |chain[m]|
    requires k < m || (k == m && i < j)
    ensures |Laid(chain, k)| == |chain[k]| && |Laid(chain, m)| == |chain[m]|
    ensures var v := chain[k][i];
      Laid(chain, k)[i].offset + (if v.isBool && v.size == 0 then 1 else v.size) <= Laid(chain, m)[j].offset
  {
    ClassRange(chain, k, i);
    ClassRange(chain, m, j);
    if k == m {
      ChainGrows(chain, k);
      LayoutIsRight(chain[k], ChainSize(chain[..k]));
      Disjoint(chain[k], ChainSize(chain[..k]), Laid(chain, k), i, j);
    } else {
      assert chain[..m][..k + 1] == chain[..k + 1];
      ChainGrows(chain[..m], k + 1);
    }
  }

  // ----- the packing of the flags -----

  /** Above three other flags there are six bits for the exponent of the alignment. */
  function AlignBits(flags: nat): (e: nat)
    ensures e < 64
  {
    flags / 8 % 64
  }

  /** One shifted by the exponent in a signed 32-bit number, if that has a value. */
  ghost function GetAlign(flags: nat): Option<nat> {
    if AlignBits(flags) < 31 then Some(Pow2(AlignBits(flags))) else None
  }

  /** The position of the highest bit that is set. */
  function HighestBit(n: nat): (e: nat)
    requires n > 0
    ensures Pow2(e) <= n < 2 * Pow2(e)
  {
    if n == 1 then 0 else 1 + HighestBit(n / 2)
  }

  function SetAlign(flags: nat, align: nat): nat {
    flags / 512 * 512 + (if align == 0 then 0 else HighestBit(align)) * 8 + flags % 8
  }

  /**
   The alignment that is read back is the largest power of two that is not larger than the
   one set, or 1 for none, unless it needs more than 31 bits; the other flags stay.
   */
  lemma SetAlignGetAlign(flags: nat, align: nat)
    requires align < Pow2(64)
    ensures align == 0 ==> GetAlign(SetAlign(flags, align)) == Some(1)
    ensures 0 < align < Pow2(31) ==>
      exists e :: GetAlign(SetAlign(flags, align)) == Some(Pow2(e)) && Pow2(e) <= align < 2 * Pow2(e)
    ensures align >= Pow2(31) ==> GetAlign(SetAlign(flags, align)).None?
    ensures SetAlign(flags, align) % 8 == flags % 8 && SetAlign(flags, align) / 512 == flags / 512
  {
    hide Pow2, AlignBits, HighestBit;
    var e := if align == 0 then 0 else HighestBit(align);
    if e >= 64 {
      PowerGrows(64, e);
    }
    Packed(flags / 512, e, flags % 8);
    NoPower();
    if align > 0 && e >= 31 {
      PowerGrows(31, e);
    } else if align > 0 {
      PowerGrows(e + 1, 31);
      NextPower(e);
    }
  }

  lemma Packed(high: nat, e: nat, low: nat)
    requires e < 64 && low < 8
    ensures var flags := high * 512 + e * 8 + low; AlignBits(flags) == e && flags % 8 == low && flags / 512 == high
  {
    var upper := high * 64 + e;
    assert (upper * 8 + low) / 8 == upper && (upper * 8 + low) % 8 == low;
    assert upper % 64 == e && upper / 64 == high;
  }

  lemma NoPower()
    ensures Pow2(0) == 1
  {
  }

  lemma NextPower(e: nat)
    ensures Pow2(e + 1) == 2 * Pow2(e)
  {
  }

  lemma {:induction false} PowerGrows(d: nat, e: nat)
    requires d <= e
    ensures Pow2(d) <= Pow2(e)
    decreases e
  {
    if d < e {
      PowerGrows(d, e - 1);
    }
  }

  // ----- the loop over a class and its superclasses -----

  class IvarClass {
    const superClass: IvarClass?
    /** The list of instance variables, if the class has one. */
    const ivars: array?<Ivar>
    /** Zero or negative as long as the layout is late-bound and has not been computed. */
    var instanceSize: int
    ghost const depth: nat

    constructor (superClass: IvarClass?, ivars: array?<Ivar>, instanceSize: int)
      ensures this.superClass == superClass && this.ivars == ivars && this.instanceSize == instanceSize
      ensures depth == if superClass == null then 0 else superClass.depth + 1
    {
      this.superClass, this.ivars, this.instanceSize := superClass, ivars, instanceSize;
      depth := if superClass == null then 0 else superClass.depth + 1;
    }
  }

  /** Following the superclasses leads to a root class. */
  ghost predicate Rooted(c: IvarClass)
    decreases c.depth
  {
    c.superClass != null ==> c.superClass.depth < c.depth && Rooted(c.superClass)
  }

  /** A class and its superclasses. */
  ghost function Line(c: IvarClass): set<IvarClass>
    requires Rooted(c)
    decreases c.depth
  {
    if c.superClass == null then {c} else {c} + Line(c.superClass)
  }

  ghost function Lists(c: IvarClass): set<object>
    requires Rooted(c)
    decreases c.depth
  {
    (if c.ivars == null then {} else {c.ivars}) + if c.superClass == null then {} else Lists(c.superClass)
  }

  /** No two classes share a list. */
  ghost predicate Separate(c: IvarClass)
    requires Rooted(c)
    decreases c.depth
  {
    c.superClass != null ==> (c.ivars != null ==> c.ivars !in Lists(c.superClass)) && Separate(c.superClass)
  }

  lemma {:induction false} LineDepth(c: IvarClass)
    requires Rooted(c)
    ensures forall d :: d in Line(c) ==> d.depth <= c.depth
    decreases c.depth
  {
    if c.superClass != null {
      LineDepth(c.superClass);
    }
  }

  /** What the variables of a class need: positive alignments, here and in the superclasses. */
  ghost predicate AllAligned(c: IvarClass)
    requires Rooted(c)
    reads Lists(c)
    decreases c.depth
  {
    && (c.ivars != null ==> Aligned(c.ivars[..]))
    && (c.superClass != null ==> AllAligned(c.superClass))
  }

  /** The instance size that a class is to have. */
  ghost function FinalSize(c: IvarClass): int
    requires Rooted(c) && AllAligned(c)
    reads Line(c), Lists(c)
    decreases c.depth
  {
    if c.ivars == null then
      if c.superClass != null then (assert c.superClass in Line(c.superClass); c.superClass.instanceSize)
      else c.instanceSize
    else if c.instanceSize > 0 then c.instanceSize
    else Layout(c.ivars[..], StartOf(c)).size
  }

  /** Where the variables of a class start: at the size that the superclass is to have. */
  ghost function StartOf(c: IvarClass): int
    requires Rooted(c) && AllAligned(c)
    reads Line(c), Lists(c)
    decreases c.depth, 0
  {
    if c.superClass == null then 0
    else if (assert c.superClass in Line(c.superClass); c.superClass.instanceSize) <= 0 then FinalSize(c.superClass)
    else c.superClass.instanceSize
  }

  // ----- which layouts are right -----

  /** A class and its superclasses, the root first. */
  ghost function Ancestry(c: IvarClass): (s: seq<IvarClass>)
    requires Rooted(c)
    ensures |s| > 0 && s[|s| - 1] == c
    decreases c.depth
  {
    (if c.superClass == null then [] else Ancestry(c.superClass)) + [c]
  }

  /** The variables of `c` as they were declared; a class without a list has none. */
  ghost predicate DeclaredAs(c: IvarClass, vs: seq<Ivar>)
    reads c, c.ivars
  {
    if c.ivars == null then vs == [] && (c.superClass == null ==> c.instanceSize == 0)
    else c.ivars[..] == vs && c.instanceSize <= 0
  }

  ghost predicate LaidAs(c: IvarClass, d: seq<seq<Ivar>>)
    requires d != [] && ChainDeclared(d)
    reads c, c.ivars
  {
    && c.instanceSize == ChainSize(d)
    && if c.ivars == null then d[|d| - 1] == [] else c.ivars[..] == Laid(d, |d| - 1)
  }

  /** `c` and all its superclasses, whose declarations are `d`, have been laid out. */
  ghost predicate Computed(c: IvarClass, d: seq<seq<Ivar>>)
    requires Rooted(c) && ChainDeclared(d)
    reads Line(c), Lists(c)
    decreases c.depth
  {
    && d != [] && LaidAs(c, d)
    && if c.superClass == null then |d| == 1 else Computed(c.superClass, d[..|d| - 1])
  }

  /**
   `c` is as it was declared, and its superclasses have been laid out, or will be because
   `c` has a list and its superclass an instance size that is not positive.
   */
  ghost predicate Ready(c: IvarClass, d: seq<seq<Ivar>>)
    requires Rooted(c) && ChainDeclared(d)
    reads Line(c), Lists(c)
    decreases c.depth
  {
    && d != [] && DeclaredAs(c, d[|d| - 1])
    && if c.superClass == null then |d| == 1
       else
         || Computed(c.superClass, d[..|d| - 1])
         || (c.ivars != null && Ready(c.superClass, d[..|d| - 1])
             && (assert c.superClass in Line(c.superClass); c.superClass.instanceSize <= 0))
  }

  /** What a class that has been laid out tells about each of its superclasses. */
  lemma {:induction false} ComputedAt(c: IvarClass, d: seq<seq<Ivar>>, k: nat)
    requires Rooted(c) && ChainDeclared(d) && Computed(c, d) && k < |Ancestry(c)|
    ensures |Ancestry(c)| == |d| && LaidAs(Ancestry(c)[k], d[..k + 1])
    decreases c.depth
  {
    if c.superClass == null {
      assert d[..1] == d;
    } else {
      var front := d[..|d| - 1];
      ComputedAt(c.superClass, front, if k < |Ancestry(c.superClass)| then k else 0);
      if k < |front| {
        assert front[..k + 1] == d[..k + 1];
      } else {
        assert d[..k + 1] == d;
      }
    }
  }

  /**
   Once a class has been laid out, each variable of the class and its superclasses is, with
   the size declared, within the instance, aligned, and apart from all others.
   */
  lemma VariablesApart(c: IvarClass, d: seq<seq<Ivar>>, k: nat, i: nat, m: nat, j: nat)
    requires Rooted(c) && ChainDeclared(d) && Computed(c, d) && m < |Ancestry(c)| && k <= m && (k == m ==> i < j)
    requires Ancestry(c)[k].ivars != null && i < Ancestry(c)[k].ivars.Length
    requires Ancestry(c)[m].ivars != null && j < Ancestry(c)[m].ivars.Length
    ensures |Ancestry(c)| == |d| && i < |d[k]| && j < |d[m]|
    ensures var v, w := Ancestry(c)[k].ivars[i], Ancestry(c)[m].ivars[j]; var dv, dw := d[k][i], d[m][j];
      && v.size == (if dv.isBool && dv.size == 0 then 1 else dv.size)
      && w.size == (if dw.isBool && dw.size == 0 then 1 else dw.size)
      && 0 <= v.offset && v.offset + v.size <= w.offset && w.offset + w.size <= c.instanceSize
      && v.align > 0 && (v.offset + 8) % v.align == 0 && w.align > 0 && (w.offset + 8) % w.align == 0
  {
    hide Layout, Laid, ChainSize, Computed, LaidAs, ChainDeclared, Ancestry;
    VariableAt(c, d, k, i);
    VariableAt(c, d, m, j);
    ComputedSize(c, d);
    ClassRange(d, k, i);
    ClassRange(d, m, j);
    ChainDisjoint(d, k, i, m, j);
    ChainGrows(d, k);
    ChainGrows(d, m + 1);
  }

  lemma VariableAt(c: IvarClass, d: seq<seq<Ivar>>, k: nat, i: nat)
    requires Rooted(c) && ChainDeclared(d) && Computed(c, d) && k < |Ancestry(c)|
    requires Ancestry(c)[k].ivars != null && i < Ancestry(c)[k].ivars.Length
    ensures k < |d| && i < |d[k]| && |Laid(d, k)| == |d[k]| && Ancestry(c)[k].ivars[i] == Laid(d, k)[i]
    ensures |Ancestry(c)| == |d|
  {
    hide Layout, ChainSize, Computed;
    ComputedAt(c, d, k);
    LaidPrefix(d, k);
    ChainGrows(d, k);
    LayoutIsRight(d[k], ChainSize(d[..k]));
    assert Ancestry(c)[k].ivars[i] == Ancestry(c)[k].ivars[..][i];
  }

  lemma ComputedSize(c: IvarClass, d: seq<seq<Ivar>>)
    requires Rooted(c) && ChainDeclared(d) && Computed(c, d)
    ensures c.instanceSize == ChainSize(d) && d[..|d|] == d
  {
  }

  lemma LaidPrefix(d: seq<seq<Ivar>>, k: nat)
    requires ChainDeclared(d) && k < |d|
    ensures ChainDeclared(d[..k + 1]) && Laid(d[..k + 1], k) == Laid(d, k)
  {
    assert d[..k + 1][..k] == d[..k];
  }

  /**
   A class without a list takes over the instance size of its superclass as it is: that is
   right if and only if the superclass has been laid out before.  Callers keep to this:
   `objc_resolve_class` resolves the superclass, and so lays it out, before the class.
   */
  lemma NoListRight(c: IvarClass, d: seq<seq<Ivar>>)
    requires Rooted(c) && AllAligned(c) && ChainDeclared(d) && |d| > 1 && d[|d| - 1] == []
    requires c.ivars == null && c.superClass != null
    ensures FinalSize(c) == ChainSize(d) <==> c.superClass.instanceSize == ChainSize(d[..|d| - 1])
    ensures c.superClass.instanceSize < 0 ==> FinalSize(c) != ChainSize(d)
  {
    ChainGrows(d, 0);
  }

  /** Laying out once more what takes up no space changes nothing. */
  lemma {:induction false} LaidAgain(done: seq<Ivar>, k: nat)
    requires k <= |done|
    requires forall i :: 0 <= i < |done| ==>
      done[i].offset == 0 && done[i].size == 0 && !done[i].isBool && done[i].align > 0 && REFCOUNT % done[i].align == 0
    ensures Layout(done[..k], 0) ==
      Progress(0, if k == 0 then LONG_MIN else 0, 0, if k == 0 then -1 else 0, 0, done[..k])
  {
    hide Padding, Step;
    if k > 0 {
      LaidAgain(done, k - 1);
      assert done[..k][..k - 1] == done[..k - 1] && done[..k] == done[..k - 1] + [done[k - 1]];
      SameStep(Layout(done[..k - 1], 0), done[k - 1]);
    }
  }

  lemma SameStep(p: Progress, v: Ivar)
    requires p == Progress(0, p.lastOffset, 0, p.lastComputed, 0, p.done)
    requires v.offset == 0 && v.size == 0 && !v.isBool && v.align > 0 && REFCOUNT % v.align == 0
    requires if p.done == [] then p.lastOffset == LONG_MIN && p.lastComputed == -1
             else p.lastOffset == 0 && p.lastComputed == 0
    ensures Step(p, v) == Progress(0, 0, 0, 0, 0, p.done + [v])
  {
    hide Padding;
    NoPadding(v.align);
  }

  lemma NoPadding(align: nat)
    requires align > 0 && REFCOUNT % align == 0
    ensures Padding(0, align) == 0
  {
  }

  lemma EmptyChainAgain(d: seq<seq<Ivar>>)
    requires d != [] && ChainDeclared(d) && ChainSize(d) == 0
    ensures ChainSize(d[..|d| - 1]) == 0 && Aligned(Laid(d, |d| - 1))
    ensures Layout(Laid(d, |d| - 1), 0).done == Laid(d, |d| - 1) && Layout(Laid(d, |d| - 1), 0).size == 0
  {
    var n := |d| - 1;
    var vs, done := d[n], Laid(d, n);
    ChainGrows(d, n);
    ChainGrows(d[..n], 0);
    LayoutIsRight(vs, 0);
    forall i | 0 <= i < |done|
      ensures done[i].offset == 0 && done[i].size == 0 && !done[i].isBool && done[i].align > 0
      ensures REFCOUNT % done[i].align == 0
    {
      assert PlacedRight(vs[i], Before(done, 0, i), done[i]);
      Disjoint(vs, 0, done, i, |vs|);
    }
    LaidAgain(done, |done|);
    assert done[..|done|] == done;
  }

  /** The loop over the variables of one class. */
  method LayOut(ivars: array<Ivar>, start: int) returns (instanceSize: int)
    requires Aligned(ivars[..])
    modifies ivars
    ensures ivars[..] == Layout(old(ivars[..]), start).done && instanceSize == Layout(old(ivars[..]), start).size
  {
    hide Layout;
    ghost var vs := ivars[..];
    LayoutNone(vs, start);
    instanceSize := start;
    var next, lastOffset, lastSize, lastComputed := start, LONG_MIN, 0, -1;
    for i := 0 to ivars.Length
      invariant Layout(vs[..i], start) == Progress(next, lastOffset, lastSize, lastComputed, instanceSize, ivars[..i])
      invariant ivars[i..] == vs[i..]
    {
      LayoutMore(vs, start, i);
      assert vs[i] == vs[i..][0];
      var v := ivars[i];
      if v.size == 0 && v.isBool {
        v := v.(size := 1);
      }
      if v.offset < lastOffset + lastSize {
        v := v.(offset := lastComputed + (v.offset - lastOffset));
      } else {
        lastOffset := v.offset;
        lastComputed := next;
        lastSize := v.size;
        var padding := Padding(next, v.align);
        v := v.(offset := next + padding);
        instanceSize := instanceSize + v.size + padding;
        next := next + v.size + padding;
      }
      ivars[i] := v;
      assert ivars[..i + 1] == ivars[..i] + [v];
    }
  }

  lemma LayoutNone(vs: seq<Ivar>, start: int)
    ensures Layout(vs[..0], start) == Progress(start, LONG_MIN, 0, -1, start, []) && vs[..|vs|] == vs
  {
  }

  lemma LayoutMore(vs: seq<Ivar>, start: int, i: nat)
    requires Aligned(vs) && i < |vs|
    ensures Layout(vs[..i + 1], start) == Step(Layout(vs[..i], start), vs[i])
  {
    assert vs[..i + 1][..i] == vs[..i];
  }

  lemma {:induction false} AllThere(c: IvarClass)
    requires Rooted(c)
    ensures allocated(Line(c)) && allocated(Lists(c))
    decreases c.depth
  {
    if c.superClass != null {
      AllThere(c.superClass);
    }
  }

  lemma {:induction false} NotAList(c: IvarClass, e: IvarClass)
    requires Rooted(e)
    ensures c !in Lists(e)
    decreases e.depth
  {
    if e.ivars != null {
      NoArray(c, e.ivars);
    }
    if e.superClass != null {
      NotAList(c, e.superClass);
    }
  }

  lemma NoArray(c: IvarClass, a: array<Ivar>)
    ensures (c as object) != a
  {
  }

  /** A class and its list are not among those of its superclasses. */
  lemma Apart(c: IvarClass)
    requires Rooted(c) && Separate(c) && c.superClass != null
    ensures c !in Line(c.superClass) && c !in Lists(c.superClass)
    ensures c.ivars != null ==> c.ivars !in Lists(c.superClass)
    ensures c.ivars != null ==> forall e :: e in Line(c.superClass) ==> (e as object) != c.ivars
    ensures Line(c) == {c} + Line(c.superClass) && c.superClass in Line(c.superClass)
    ensures Lists(c) == (if c.ivars == null then {} else {c.ivars}) + Lists(c.superClass)
  {
    LineDepth(c.superClass);
    NotAList(c, c.superClass);
    if c.ivars != null {
      forall e | e in Line(c.superClass)
        ensures (e as object) != c.ivars
      {
        NoArray(e, c.ivars);
      }
    }
  }

  lemma FinishNoList(c: IvarClass, d: seq<seq<Ivar>>)
    requires Rooted(c) && ChainDeclared(d) && d != [] && d[|d| - 1] == [] && c.ivars == null
    requires if c.superClass == null then |d| == 1 && c.instanceSize == 0
      else Computed(c.superClass, d[..|d| - 1]) && c.instanceSize == c.superClass.instanceSize
    ensures Computed(c, d)
  {
  }

  lemma FinishList(c: IvarClass, d: seq<seq<Ivar>>, vs: seq<Ivar>, start: int)
    requires Rooted(c) && ChainDeclared(d) && d != [] && c.ivars != null && Aligned(vs)
    requires c.ivars[..] == Layout(vs, start).done && c.instanceSize == Layout(vs, start).size
    requires start == ChainSize(d[..|d| - 1]) && WasGiven(d, vs)
    requires if c.superClass == null then |d| == 1 else Computed(c.superClass, d[..|d| - 1])
    ensures Computed(c, d)
  {
    if vs != d[|d| - 1] {
      EmptyChainAgain(d);
    }
  }

  /** The variables are as they were declared, or have been laid out and take up no space. */
  ghost predicate WasGiven(d: seq<seq<Ivar>>, vs: seq<Ivar>)
    requires d != [] && ChainDeclared(d)
  {
    vs == d[|d| - 1] || (vs == Laid(d, |d| - 1) && ChainSize(d) == 0)
  }

  ghost predicate Right(c: IvarClass, d: seq<seq<Ivar>>)
    requires Rooted(c)
    reads Line(c), Lists(c)
  {
    ChainDeclared(d) && (Ready(c, d) || Computed(c, d))
  }

  ghost function Front(d: seq<seq<Ivar>>): seq<seq<Ivar>> {
    if d == [] then [] else d[..|d| - 1]
  }

  /** What can be relied on before the superclass is laid out. */
  lemma RightAbove(c: IvarClass, d: seq<seq<Ivar>>)
    requires Rooted(c) && Right(c, d)
    ensures d != [] && ChainDeclared(d) && ChainDeclared(Front(d))
    ensures c.superClass == null ==> |d| == 1
    ensures c.superClass != null ==> Right(c.superClass, Front(d))
    ensures c.superClass != null && (c.ivars == null || c.superClass.instanceSize > 0) ==>
      Computed(c.superClass, Front(d))
    ensures c.ivars == null ==> d[|d| - 1] == [] && (c.superClass == null ==> c.instanceSize == 0)
    ensures c.ivars != null && c.instanceSize <= 0 ==> WasGiven(d, c.ivars[..])
    ensures c.ivars != null && c.instanceSize > 0 ==> Computed(c, d)
  {
    hide Layout, Laid, ChainSize;
    ChainGrows(d, 0);
    NothingDeclared(d);
  }

  lemma NothingDeclared(d: seq<seq<Ivar>>)
    requires ChainDeclared(d)
    ensures |d| == 1 && d[0] == [] ==> ChainSize(d) == 0
  {
  }

  /**
   `objc_compute_ivar_offsets`.  A class that is ready, because classes are laid out when
   they are resolved and superclasses are resolved first, is laid out together with all its
   superclasses; one that has been laid out before stays as it is.
   */
  method ComputeIvarOffsets(c: IvarClass, ghost d: seq<seq<Ivar>>)
    requires Rooted(c) && Separate(c) && AllAligned(c)
    modifies Line(c), Lists(c)
    ensures c.instanceSize == old(FinalSize(c))
    ensures c.ivars != null ==>
      c.ivars[..] == if old(c.instanceSize) <= 0 then old(Layout(c.ivars[..], StartOf(c))).done else old(c.ivars[..])
    ensures old(Right(c, d)) ==> Computed(c, d)
    decreases c.depth
  {
    hide Layout, Computed, Ready, Right, WasGiven, ChainDeclared, Laid, ChainSize;
    ghost var right := Right(c, d);
    if right {
      RightAbove(c, d);
    }
    if c.superClass != null {
      Apart(c);
      AllThere(c.superClass);
    }
    if c.ivars == null {
      if c.superClass != null {
        c.instanceSize := c.superClass.instanceSize;
      }
      if right {
        FinishNoList(c, d);
      }
      return;
    }
    if c.instanceSize <= 0 {
      var start := 0;
      ghost var vs := c.ivars[..];
      if c.superClass != null {
        if c.superClass.instanceSize <= 0 {
          ComputeIvarOffsets(c.superClass, Front(d));
        }
        start := c.superClass.instanceSize;
      }
      StartRight(c, d, right, start);
      var size := LayOut(c.ivars, start);
      assert right && c.superClass != null ==> Computed(c.superClass, Front(d));
      c.instanceSize := size;
      assert right && c.superClass != null ==> Computed(c.superClass, Front(d));
      if right {
        FinishList(c, d, vs, start);
      }
    }
  }

  lemma StartRight(c: IvarClass, d: seq<seq<Ivar>>, right: bool, start: int)
    requires Rooted(c) && (right ==> d != [] && ChainDeclared(d) && ChainDeclared(Front(d)))
    requires c.superClass == null ==> start == 0 && (right ==> |d| == 1)
    requires c.superClass != null ==>
      start == c.superClass.instanceSize && (right ==> Computed(c.superClass, Front(d)))
    ensures right ==> start == ChainSize(Front(d))
  {
  }
}
