/**
 The name server's table of services: an array of entries in order of their names, and
 the requests that change it.
 */
module NameServer {
  import opened Wrappers
  import opened NameMap

  class MapEnt {
    const name: Name
    var port: nat
    var net: bv8
    var svc: bv8

    constructor (name: Name, port: nat, kind: bv8)
      ensures this.name == name && this.port == port && net == kind & NET_MASK && svc == kind & SVC_MASK
    {
      this.name, this.port, net, svc := name, port, kind & NET_MASK, kind & SVC_MASK;
    }
  }

  class NameRegistry {
    var entries: array<MapEnt?>
    var used: nat
    ghost var recs: seq<Rec>
    ghost var ents: set<MapEnt>

    /** The entry at a place is the one that the record says. */
    ghost predicate EntryOk(i: nat)
      requires i < |recs| && i < entries.Length
      reads this, entries, ents
    {
      var e := entries[i];
      e != null && e in ents && e.name == recs[i].name && e.port == recs[i].port && e.net | e.svc == recs[i].kind
    }

    ghost predicate Valid()
      reads this, entries, ents
    {
      && used == |recs| <= entries.Length && Sorted(recs)
      && forall i :: 0 <= i < used ==> EntryOk(i)
    }

    ghost function Contents(): map<Name, Service>
      reads this
    {
      ToMap(recs)
    }

    constructor ()
      ensures Valid() && Contents() == map[] && fresh(entries)
    {
      entries := new MapEnt?[0];
      used, recs, ents := 0, [], {};
    }

    /** Makes room for one more entry. */
    method Reserve()
      requires Valid()
      modifies this`entries
      ensures Valid() && used < entries.Length && (entries == old(entries) || fresh(entries))
    {
      if used == entries.Length {
        var larger := new MapEnt?[entries.Length + 16];
        forall i | 0 <= i < used {
          larger[i] := entries[i];
        }
        ghost var former := entries;
        entries := larger;
        forall i | 0 <= i < used
          ensures EntryOk(i)
        {
          assert old(EntryOk(i)) && entries[i] == former[i];
        }
      }
    }

    /** Moves the entries from `i` on up by one place. */
    method ShiftUp(i: nat)
      requires i <= used < entries.Length
      modifies entries
      ensures forall k :: 0 <= k < i ==> entries[k] == old(entries[k])
      ensures forall k :: i < k <= used ==> entries[k] == old(entries[k - 1])
    {
      var j := used;
      while j > i
        invariant i <= j <= used
        invariant forall k :: 0 <= k <= j ==> entries[k] == old(entries[k])
        invariant forall k :: j < k <= used ==> entries[k] == old(entries[k - 1])
      {
        entries[j] := entries[j - 1];
        j := j - 1;
      }
    }

    /** Moves the entries behind `i` down by one place. */
    method ShiftDown(i: nat)
      requires i < used <= entries.Length
      modifies entries
      ensures forall k :: 0 <= k < i ==> entries[k] == old(entries[k])
      ensures forall k :: i <= k < used - 1 ==> entries[k] == old(entries[k + 1])
    {
      for j := i + 1 to used
        invariant forall k :: 0 <= k < i || j <= k < used ==> entries[k] == old(entries[k])
        invariant forall k :: i <= k < j - 1 ==> entries[k] == old(entries[k + 1])
      {
        entries[j - 1] := entries[j];
      }
    }

    /** `map_add`: the new entry goes before the first larger one. */
    method MapAdd(name: Name, port: nat, kind: bv8) returns (m: MapEnt)
      requires Valid() && LegalKind(kind) && |name| <= NAME_MAX && name !in Contents()
      modifies this, entries
      ensures Valid() && Contents() == old(Contents())[name := Service(port, kind)] && m.port == port
      ensures fresh(m) && ents == old(ents) + {m} && (entries == old(entries) || fresh(entries))
    {
      KindJoins(kind);
      m := new MapEnt(name, port, kind);
      Reserve();
      ghost var r := Rec(name, port, kind);
      var i := 0;
      while i < used
        invariant 0 <= i <= used && forall k :: 0 <= k < i ==> Compare(recs[k].name, name) <= 0
      {
        assert EntryOk(i);
        if Compare(entries[i].name, m.name) > 0 {
          break;
        }
        i := i + 1;
      }
      assert BelongsAt(recs, i, r);
      InsertedSorted(recs, i, r);
      InsertedMap(recs, i, r);
      InsertEntry(i, m, r);
    }

    /** Puts an entry where it belongs. */
    method InsertEntry(i: nat, m: MapEnt, ghost r: Rec)
      requires Valid() && i <= used < entries.Length && Sorted(Inserted(recs, i, r)) && m !in ents
      requires m.name == r.name && m.port == r.port && m.net | m.svc == r.kind
      modifies this`used, this`recs, this`ents, entries
      ensures Valid() && recs == Inserted(old(recs), i, r) && ents == old(ents) + {m}
    {
      ghost var former := recs;
      ShiftUp(i);
      entries[i] := m;
      used := used + 1;
      recs, ents := Inserted(recs, i, r), ents + {m};
      InsertedAt(former, i, r);
      forall k | 0 <= k < used
        ensures EntryOk(k)
      {
        if k < i {
          assert old(EntryOk(k));
        } else if k > i {
          assert old(EntryOk(k - 1));
        }
      }
    }

    /** `map_by_name`: binary search. */
    method MapByName(name: Name) returns (m: MapEnt?, ghost at: nat)
      requires Valid()
      ensures m == null <==> name !in Contents()
      ensures m != null ==> at < used && entries[at] == m && m in ents && m.name == name
      ensures m != null ==> recs[at].name == name && Contents()[name] == Service(m.port, m.net | m.svc)
    {
      var lower, upper := 0, used;
      var index := upper / 2;
      while upper != lower
        invariant 0 <= lower <= upper <= used && index == lower + (upper - lower) / 2
        invariant forall k :: 0 <= k < lower ==> Compare(recs[k].name, name) < 0
        invariant forall k :: upper <= k < used ==> Compare(recs[k].name, name) > 0
        decreases upper - lower
      {
        assert EntryOk(index);
        var i := Compare(entries[index].name, name);
        if i < 0 {
          HalvesBelow(index, name);
          lower := index + 1;
        } else if i > 0 {
          HalvesAbove(index, name);
          upper := index;
        } else {
          break;
        }
        index := lower + (upper - lower) / 2;
      }
      at := index;
      if index < used {
        assert EntryOk(index);
        if Compare(entries[index].name, name) == 0 {
          CompareEqual(entries[index].name, name);
          ToMapHolds(recs, index);
          return entries[index], index;
        }
      }
      m := null;
      if name in Contents() {
        ghost var k := ToMapOnly(recs, name);
        CompareEqual(recs[k].name, name);
      }
    }

    lemma HalvesBelow(index: nat, name: Name)
      requires Sorted(recs) && index < |recs| && Compare(recs[index].name, name) < 0
      ensures forall k :: 0 <= k <= index ==> Compare(recs[k].name, name) < 0
    {
      forall k | 0 <= k <= index
        ensures Compare(recs[k].name, name) < 0
      {
        SearchBounds(recs, index, k, name);
      }
    }

    lemma HalvesAbove(index: nat, name: Name)
      requires Sorted(recs) && index < |recs| && Compare(recs[index].name, name) > 0
      ensures forall k :: index <= k < |recs| ==> Compare(recs[k].name, name) > 0
    {
      forall k | index <= k < |recs|
        ensures Compare(recs[k].name, name) > 0
      {
        SearchBounds(recs, index, k, name);
      }
    }

    /** `map_by_port`: the first entry with the port and type. */
    method MapByPort(port: nat, kind: bv8) returns (m: MapEnt?, ghost at: nat)
      requires Valid()
      ensures m == null <==> forall n :: n in Contents() ==> Contents()[n] != Service(port, kind)
      ensures m != null ==> at < used && entries[at] == m && m in ents && m.name == recs[at].name && m.port == port
      ensures m != null ==> m.name in Contents() && Contents()[m.name] == Service(port, kind)
    {
      at := 0;
      for index := 0 to used
        invariant forall k :: 0 <= k < index ==> Service(recs[k].port, recs[k].kind) != Service(port, kind)
      {
        var e := entries[index];
        assert EntryOk(index);
        if e.port == port && e.net | e.svc == kind {
          ToMapHolds(recs, index);
          m, at := e, index;
          assert Contents()[m.name] == Service(port, kind);
          return;
        }
      }
      m := null;
      forall n | n in Contents()
        ensures Contents()[n] != Service(port, kind)
      {
        var k := ToMapOnly(recs, n);
        ToMapHolds(recs, k);
      }
    }

    /** `map_del` */
    method MapDel(m: MapEnt, ghost at: nat)
      requires Valid() && at < used && entries[at] == m
      modifies this`used, this`recs, entries
      ensures Valid() && Contents() == old(Contents()) - {m.name} && used == old(used) - 1
    {
      for i := 0 to used
        invariant i <= at && Valid() && used == old(used) && recs == old(recs) && entries[at] == m
      {
        assert EntryOk(i) && EntryOk(at);
        if entries[i] == m {
          SortedDistinct(recs, i, at);
          RemoveEntry(i);
          return;
        }
      }
    }

    /** Takes the entry at a place out. */
    method RemoveEntry(i: nat)
      requires Valid() && i < used
      modifies this`used, this`recs, entries
      ensures Valid() && recs == Deleted(old(recs), i) && used == old(used) - 1
      ensures Contents() == old(Contents()) - {old(recs)[i].name}
    {
      ghost var former := recs;
      ShiftDown(i);
      used := used - 1;
      recs := Deleted(recs, i);
      DeletedSorted(former, i);
      DeletedMap(former, i);
      DeletedAt(former, i);
      forall k | 0 <= k < used
        ensures EntryOk(k)
      {
        assert old(EntryOk(if k < i then k else k + 1));
      }
    }

    /** An entry takes another port and type. */
    method Reassign(m: MapEnt, ghost at: nat, port: nat, kind: bv8)
      requires Valid() && at < used && entries[at] == m && LegalKind(kind) && m in ents
      modifies m, this`recs
      ensures Valid() && Contents() == old(Contents())[m.name := Service(port, kind)] && m.port == port
    {
      KindJoins(kind);
      assert EntryOk(at);
      ghost var former := recs;
      ghost var r := Rec(m.name, port, kind);
      m.port := port;
      m.net := kind & NET_MASK;
      m.svc := kind & SVC_MASK;
      recs := recs[at := r];
      UpdatedSorted(former, at, r);
      forall k | 0 <= k < used
        ensures EntryOk(k)
      {
        assert old(EntryOk(k));
        if k != at && entries[k] == m {
          SortedDistinct(former, k, at);
        }
      }
    }

    /** A request to register from a process on this host. */
    method HandleRegister(name: Name, port: nat, kind: bv8, canBind: bool) returns (reply: nat)
      requires Valid() && LegalKind(kind) && |name| <= 255
      modifies this, entries, ents
      ensures Valid() && Answer(Contents(), reply) == Apply(old(Contents()), Register(name, port, kind), canBind)
      ensures (entries == old(entries) || fresh(entries)) && forall e :: e in ents ==> e in old(ents) || fresh(e)
    {
      reply := 0;
      ghost var at: nat;
      var m;
      m, at := MapByName(name);
      if m != null && port == m.port {
        reply := port;
      } else if m != null {
        if canBind {
          Reassign(m, at, port, kind);
          reply := m.port;
        }
      } else if port == 0 {
        reply := 0;
      } else {
        m := MapAdd(name, port, kind);
        reply := m.port;
      }
    }

    /** A request to look a name up; a name whose port can be bound is forgotten. */
    method HandleLookup(name: Name, kind: bv8, canBind: bool) returns (reply: nat)
      requires Valid() && LegalKind(kind)
      modifies this, entries
      ensures Valid() && Answer(Contents(), reply) == Apply(old(Contents()), Lookup(name, kind), canBind)
      ensures var m := old(Contents());
        reply == if name in m && m[name].kind == kind && !canBind then m[name].port else 0
      ensures entries == old(entries) && ents == old(ents)
    {
      ghost var at: nat;
      var m;
      m, at := MapByName(name);
      if m != null && m.net | m.svc != kind {
        m := null;
      }
      if m != null && canBind {
        MapDel(m, at);
        m := null;
      }
      reply := if m != null then m.port else 0;
    }

    /** A request from this host to unregister a name or, without one, all names of a port. */
    method HandleUnregister(name: Name, port: nat, kind: bv8, canBind: bool) returns (reply: nat)
      requires Valid() && LegalKind(kind)
      modifies this, entries
      ensures Valid() && Answer(Contents(), reply) == Apply(old(Contents()), Unregister(name, port, kind), canBind)
      ensures var m := old(Contents());
        if port == 0 || |name| > 0 then reply == if name in m && m[name].kind == kind then m[name].port else 0
        else reply == if exists n :: n in m && m[n] == Service(port, kind) then port else 0
      ensures entries == old(entries) && ents == old(ents)
    {
      reply := 0;
      ghost var at: nat;
      var m;
      if port == 0 || |name| > 0 {
        m, at := MapByName(name);
        if m != null && m.net | m.svc == kind {
          reply := m.port;
          MapDel(m, at);
        }
      } else {
        reply := UnregisterPort(port, kind);
      }
    }

    method UnregisterPort(port: nat, kind: bv8) returns (reply: nat)
      requires Valid() && port != 0
      modifies this, entries
      ensures Valid() && Contents() == WithoutService(old(Contents()), Service(port, kind))
      ensures reply == if exists n :: n in old(Contents()) && old(Contents())[n] == Service(port, kind) then port else 0
      ensures entries == old(entries) && ents == old(ents)
    {
      reply := 0;
      ghost var services, s := Contents(), Service(port, kind);
      ghost var at: nat;
      var m;
      m, at := MapByPort(port, kind);
      while m != null
        invariant Valid() && entries == old(entries) && ents == old(ents)
        invariant WithoutService(Contents(), s) == WithoutService(services, s)
        invariant m == null <==> forall n :: n in Contents() ==> Contents()[n] != s
        invariant m != null ==> at < used && entries[at] == m && m.port == port
        invariant m != null ==> m.name in Contents() && Contents()[m.name] == s
        invariant m != null || reply == port ==> exists n :: n in services && services[n] == s
        invariant m == null && reply != port ==> forall n :: n in services ==> services[n] != s
        invariant reply == 0 || reply == port
        decreases used
      {
        reply := m.port;
        WithoutServiceStep(Contents(), s, m.name);
        MapDel(m, at);
        m, at := MapByPort(port, kind);
      }
      WithoutServiceDone(Contents(), s);
    }

    lemma RecordsSorted()
      requires Valid()
      ensures Sorted(recs)
    {
    }

    /** The answer to a request for all names: the number of bytes, and then the names. */
    method HandleNames() returns (stream: seq<Byte>)
      requires Valid()
      ensures stream == BigEndian(|Listing(recs)|) + Listing(recs)
    {
      var bytes := SizeOfNames();
      var names := WriteNames();
      stream := BigEndian(bytes) + names;
    }

    method SizeOfNames() returns (bytes: nat)
      requires Valid()
      ensures bytes == |Listing(recs)|
    {
      hide Listing;
      bytes := 0;
      NoListing(recs);
      for i := 0 to used
        invariant bytes == |Listing(recs[..i])|
      {
        assert EntryOk(i);
        ListingMore(recs, i);
        bytes := bytes + 2 + |entries[i].name|;
      }
    }

    method WriteNames() returns (stream: seq<Byte>)
      requires Valid()
      ensures stream == Listing(recs)
    {
      hide Listing;
      stream := [];
      NoListing(recs);
      for i := 0 to used
        invariant stream == Listing(recs[..i])
      {
        assert EntryOk(i);
        ListingMore(recs, i);
        stream := stream + [|entries[i].name|, (entries[i].net | entries[i].svc) as Byte] + entries[i].name;
      }
    }
  }

  /**
   What the client does with the answer: it counts the names by stepping over them.  A
   count that does not fit in 16 bits is given as zero.
   */
  method CountNames(b: seq<Byte>) returns (count: nat)
    requires exists recs :: Sorted(recs) && b == Listing(recs)
    ensures forall recs :: Sorted(recs) && b == Listing(recs) ==> count == if |recs| < 0x1_0000 then |recs| else 0
  {
    ghost var recs :| Sorted(recs) && b == Listing(recs);
    var ptr, port := 0, 0;
    while ptr < |b|
      invariant port <= |recs| && ptr == |Listing(recs[..port])| <= |b|
      decreases |b| - ptr
    {
      ListingAt(recs, port);
      ptr := ptr + 2 + b[ptr];
      port := port + 1;
    }
    ListingWhole(recs, port);
    forall other | Sorted(other) && b == Listing(other)
      ensures |other| == |recs|
    {
      ReadsBack(recs, b);
      ReadsBack(other, b);
    }
    count := if port < 0x1_0000 then port else 0;
  }

  /** More bytes than these are taken to be no list of names. */
  const INSANE := 10000000

  /** What the client has when it is done: the bytes of the names, and how many there are. */
  datatype Received = Received(names: seq<Byte>, count: nat)

  /** The answer of a server that has the records `recs`; the number of bytes is an `int` there. */
  ghost predicate Sent(stream: seq<Byte>, recs: seq<Rec>) {
    Sorted(recs) && |Listing(recs)| < 0x8000_0000 && stream == BigEndian(|Listing(recs)|) + Listing(recs)
  }

  /** The bytes received are the names that the server has, and a walk recovers them all. */
  ghost predicate AllNames(r: Received, recs: seq<Rec>) {
    && r.count == (if |recs| < 0x1_0000 then |recs| else 0)
    && Walk(r.names, 0).Some? && |Walk(r.names, 0).value| == |recs|
    && forall k :: 0 <= k < |recs| ==> Walk(r.names, 0).value[k] == Listed(recs[k].name, recs[k].kind as Byte)
  }

  /**
   The client's side of a request for all names: it gives up if the list is longer than it
   will believe, and otherwise has what the server has.
   */
  method ReceiveNames(stream: seq<Byte>) returns (r: Option<Received>)
    requires exists recs :: Sent(stream, recs)
    ensures forall recs :: Sent(stream, recs) ==>
      if |Listing(recs)| > 10000000 then r.None? else r.Some? && AllNames(r.value, recs)
  {
    ghost var known :| Sent(stream, known);
    LengthReadsBack(Listing(known));
    var len := FromBytes(stream[..4]);
    var names := stream[4..];
    if len > 0xffff && len > INSANE {
      r := None;
    } else {
      var count := CountNames(names);
      r := Some(Received(names, count));
    }
    forall recs | Sent(stream, recs)
      ensures if |Listing(recs)| > INSANE then r.None? else r.Some? && AllNames(r.value, recs)
    {
      LengthReadsBack(Listing(recs));
      ReadsBack(recs, names);
    }
  }

  /** What one asks for and the other sends: the whole exchange. */
  method ExchangeNames(server: NameRegistry) returns (r: Option<Received>)
    requires server.Valid() && |Listing(server.recs)| < 0x8000_0000
    ensures r.None? <==> |Listing(server.recs)| > 10000000
    ensures r.Some? ==> AllNames(r.value, server.recs)
  {
    server.RecordsSorted();
    var stream := server.HandleNames();
    assert Sent(stream, server.recs);
    r := ReceiveNames(stream);
  }
}
