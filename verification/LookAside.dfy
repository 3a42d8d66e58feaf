/**
 The look-aside list of the tables of classes that are being initialized: a linked list
 of buffers, two for each class, that live on the stacks of the initializing threads.
 */
module LookAsideList {
  import opened InitializeProtocol

  class Buffer {
    const cls: Class
    /** Whether this is the buffer of the metaclass. */
    const meta: bool
    var next: Buffer?

    constructor (cls: Class, meta: bool, next: Buffer?)
      ensures this.cls == cls && this.meta == meta && this.next == next
    {
      this.cls, this.meta, this.next := cls, meta, next;
    }
  }

  ghost function At(s: seq<Buffer>, i: int): Buffer? {
    if 0 <= i < |s| then s[i] else null
  }

  /** The classes in the list, most recent first. */
  ghost function Classes(s: seq<Buffer>): seq<Class> {
    if |s| < 2 then [] else [s[0].cls] + Classes(s[2..])
  }

  ghost predicate PairAt(s: seq<Buffer>, i: nat) {
    i + 1 < |s| && i % 2 == 0 ==> s[i + 1].cls == s[i].cls
  }

  /** Each buffer of a metaclass is followed by that of its class, and no class is listed twice. */
  ghost predicate Paired(s: seq<Buffer>) {
    && |s| % 2 == 0
    && (forall i :: 0 <= i < |s| ==> s[i].meta == (i % 2 == 0))
    && (forall i: nat {:trigger PairAt(s, i)} :: PairAt(s, i))
    && (forall i, j :: 0 <= i < j < |s| ==> s[i].cls != s[j].cls || s[i].meta != s[j].meta)
  }

  ghost function Without(s: seq<Buffer>, k: nat): seq<Buffer>
    requires k + 1 < |s|
  {
    s[..k] + s[k + 2..]
  }

  /** Taking out the buffers of a class takes the class, and no other, out of the list. */
  lemma {:induction false} WithoutClasses(s: seq<Buffer>, k: nat)
    requires Paired(s) && k % 2 == 0 && k + 1 < |s|
    ensures Paired(Without(s, k))
    ensures Classes(Without(s, k)) == Unlinked(Classes(s), s[k].cls)
  {
    WithoutPaired(s, k);
    if k == 0 {
      assert Without(s, 0) == s[2..];
    } else {
      TailPaired(s);
      WithoutClasses(s[2..], k - 2);
      assert Without(s, k)[2..] == Without(s[2..], k - 2);
      assert s[2..][k - 2] == s[k];
      assert s[0].meta == s[k].meta && s[0].cls != s[k].cls;
      assert Without(s, k)[0] == s[0];
    }
  }

  lemma TailPaired(s: seq<Buffer>)
    requires Paired(s) && |s| >= 2
    ensures Paired(s[2..])
  {
    var t := s[2..];
    forall i: nat
      ensures PairAt(t, i)
    {
      assert PairAt(s, i + 2);
    }
  }

  lemma WithoutPaired(s: seq<Buffer>, k: nat)
    requires Paired(s) && k % 2 == 0 && k + 1 < |s|
    ensures Paired(Without(s, k))
  {
    var t := Without(s, k);
    forall i | 0 <= i < |t|
      ensures t[i].meta == (i % 2 == 0) && t[i] == s[if i < k then i else i + 2]
    {
    }
    forall i: nat
      ensures PairAt(t, i)
    {
      assert PairAt(s, if i < k then i else i + 2);
    }
  }

  class LookAside {
    /** `temporary_dtables` */
    var head: Buffer?
    ghost var nodes: seq<Buffer>

    ghost predicate Linked()
      reads this, nodes
    {
      && head == At(nodes, 0)
      && (forall i :: 0 <= i < |nodes| ==> nodes[i].next == At(nodes, i + 1))
      && (forall i, j :: 0 <= i < j < |nodes| ==> nodes[i] != nodes[j])
    }

    ghost predicate Valid()
      reads this, nodes
    {
      Linked() && Paired(nodes)
    }

    ghost function Contents(): seq<Class>
      reads this
    {
      Classes(nodes)
    }

    /** Puts the tables of a class and its metaclass aside. */
    method PutAside(c: Class) returns (metaBuffer: Buffer)
      requires Valid() && c !in Contents()
      modifies this
      ensures Valid() && fresh(metaBuffer) && metaBuffer in nodes && metaBuffer.meta && metaBuffer.cls == c
      ensures Contents() == [c] + old(Contents()) && nodes[2..] == old(nodes)
    {
      NotListed(nodes, c);
      var buffer := new Buffer(c, false, head);
      metaBuffer := new Buffer(c, true, buffer);
      head := metaBuffer;
      nodes := [metaBuffer, buffer] + nodes;
      assert nodes[2..] == old(nodes);
      PairedMore(old(nodes), metaBuffer, buffer);
    }

    /** The buffer before that of a metaclass, which is not the first one. */
    method Before(metaBuffer: Buffer, ghost k: nat) returns (prev: Buffer)
      requires Valid() && 0 < k < |nodes| && nodes[k] == metaBuffer
      ensures prev == nodes[k - 1]
    {
      prev := head;
      ghost var i := 0;
      while prev.next.cls != metaBuffer.cls || prev.next.meta != metaBuffer.meta
        invariant 0 <= i < k && prev == nodes[i]
        decreases k - i
      {
        prev := prev.next;
        i := i + 1;
      }
    }

    /** `remove_dtable`: takes out the buffer of a metaclass and the one after it. */
    method Remove(metaBuffer: Buffer)
      requires Valid() && metaBuffer in nodes && metaBuffer.meta
      modifies this, nodes
      ensures Valid() && Contents() == Unlinked(old(Contents()), metaBuffer.cls)
    {
      ghost var k: nat :| k < |nodes| && nodes[k] == metaBuffer;
      MetaPlace(nodes, k);
      WithoutClasses(nodes, k);
      var prev: Buffer? := null;
      if head != metaBuffer {
        FirstPlace(k);
        prev := Before(metaBuffer, k);
      }
      Unlink(metaBuffer, prev, k);
    }

    /** Changes the link that leads to the two buffers. */
    method Unlink(metaBuffer: Buffer, prev: Buffer?, ghost k: nat)
      requires Linked() && k + 1 < |nodes| && nodes[k] == metaBuffer && prev == At(nodes, k - 1)
      modifies this, nodes
      ensures Linked() && nodes == Without(old(nodes), k)
    {
      ghost var s := nodes;
      var buffer := metaBuffer.next;
      assert buffer == s[k + 1] && buffer.next == At(s, k + 2);
      if prev == null {
        head := buffer.next;
      } else {
        prev.next := buffer.next;
      }
      nodes := Without(nodes, k);
      forall i | 0 <= i < |nodes|
        ensures nodes[i].next == At(nodes, i + 1)
      {
        var m := if i < k then i else i + 2;
        assert nodes[i] == s[m];
      }
    }

    lemma FirstPlace(k: nat)
      requires Linked() && k < |nodes| && nodes[k] != head
      ensures k > 0
    {
    }

    /** Searches the list for the tables of a class or metaclass. */
    method Find(c: Class, meta: bool) returns (buffer: Buffer?)
      requires Valid()
      ensures buffer == null <==> c !in Contents()
      ensures buffer != null ==> buffer in nodes && buffer.cls == c && buffer.meta == meta
    {
      buffer := head;
      ghost var i := 0;
      while buffer != null
        invariant 0 <= i <= |nodes| && buffer == At(nodes, i)
        invariant forall j :: 0 <= j < i ==> nodes[j].cls != c || nodes[j].meta != meta
        decreases |nodes| - i
      {
        if buffer.cls == c && buffer.meta == meta {
          Listed(nodes, i);
          return;
        }
        buffer := buffer.next;
        i := i + 1;
      }
      if c in Contents() {
        ghost var j := FindPlace(nodes, c, meta);
      }
    }
  }

  lemma {:induction false} NotListed(s: seq<Buffer>, c: Class)
    requires Paired(s) && c !in Classes(s)
    ensures forall i :: 0 <= i < |s| ==> s[i].cls != c
  {
    forall i | 0 <= i < |s|
      ensures s[i].cls != c
    {
      Listed(s, i);
    }
  }

  lemma {:induction false} Listed(s: seq<Buffer>, i: nat)
    requires Paired(s) && i < |s|
    ensures s[i].cls in Classes(s)
  {
    TailPaired(s);
    if i >= 2 {
      Listed(s[2..], i - 2);
    } else {
      assert PairAt(s, 0);
    }
  }

  lemma FindPlace(s: seq<Buffer>, c: Class, meta: bool) returns (j: nat)
    requires Paired(s) && c in Classes(s)
    ensures j < |s| && s[j].cls == c && s[j].meta == meta
  {
    var m := Place(s, c);
    assert PairAt(s, m);
    j := if meta then m else m + 1;
  }

  lemma MetaPlace(s: seq<Buffer>, k: nat)
    requires Paired(s) && k < |s| && s[k].meta
    ensures k % 2 == 0 && k + 1 < |s|
  {
  }

  lemma PairedMore(s: seq<Buffer>, a: Buffer, b: Buffer)
    requires Paired(s) && a.meta && !b.meta && a.cls == b.cls && forall i :: 0 <= i < |s| ==> s[i].cls != a.cls
    ensures Paired([a, b] + s)
  {
    var t := [a, b] + s;
    forall i: nat
      ensures PairAt(t, i)
    {
      assert i >= 2 ==> PairAt(s, i - 2);
    }
  }

  lemma {:induction false} Place(s: seq<Buffer>, c: Class) returns (m: nat)
    requires Paired(s) && c in Classes(s)
    ensures m + 1 < |s| && m % 2 == 0 && s[m].cls == c
  {
    if s[0].cls == c {
      m := 0;
    } else {
      TailPaired(s);
      m := Place(s[2..], c);
      m := m + 2;
    }
  }
}
