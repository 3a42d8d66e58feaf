/**
 The registry of service names as a sorted list of records, the finite map that it stands
 for, and the byte stream that lists it.
 */
module NameMap {
  import opened Wrappers

  type Byte = x: nat | x < 0x100
  type Name = seq<Byte>

  const NAME_MAX := 255

  datatype Rec = Rec(name: Name, port: nat, kind: bv8)

  /** What the map holds for a name: the port and its type. */
  datatype Service = Service(port: nat, kind: bv8)

  // ----- the order of names: by length, and then by bytes -----

  function CompareBytes(a: Name, b: Name): int
    requires |a| == |b|
  {
    if a == [] then 0
    else if a[0] < b[0] then -1
    else if a[0] > b[0] then 1
    else CompareBytes(a[1..], b[1..])
  }

  function Compare(a: Name, b: Name): int {
    if |a| == |b| then CompareBytes(a, b) else if |a| < |b| then -1 else 1
  }

  lemma {:induction false} CompareBytesEqual(a: Name, b: Name)
    requires |a| == |b|
    ensures CompareBytes(a, b) == 0 <==> a == b
    ensures CompareBytes(a, b) < 0 <==> CompareBytes(b, a) > 0
  {
    if a != [] {
      CompareBytesEqual(a[1..], b[1..]);
      assert a == [a[0]] + a[1..] && b == [b[0]] + b[1..];
    }
  }

  lemma {:induction false} CompareBytesTransitive(a: Name, b: Name, c: Name)
    requires |a| == |b| == |c| && CompareBytes(a, b) < 0 && CompareBytes(b, c) < 0
    ensures CompareBytes(a, c) < 0
  {
    if a[0] == b[0] == c[0] {
      CompareBytesTransitive(a[1..], b[1..], c[1..]);
    }
  }

  lemma CompareEqual(a: Name, b: Name)
    ensures Compare(a, b) == 0 <==> a == b
    ensures Compare(a, b) < 0 <==> Compare(b, a) > 0
  {
    if |a| == |b| {
      CompareBytesEqual(a, b);
    }
  }

  /** A shorter name comes first, and of names of equal length the one with the smaller byte where they differ. */
  lemma {:induction false} CompareIs(a: Name, b: Name)
    ensures Compare(a, b) < 0 <==> |a| < |b| || (|a| == |b| && exists k :: 0 <= k < |a| && SmallerAt(a, b, k))
    decreases |a|
  {
    if |a| == |b| && a != [] {
      if a[0] == b[0] {
        CompareIs(a[1..], b[1..]);
        if k :| 0 <= k < |a| - 1 && SmallerAt(a[1..], b[1..], k) {
          assert a[..k + 1] == [a[0]] + a[1..][..k] && b[..k + 1] == [b[0]] + b[1..][..k];
          assert SmallerAt(a, b, k + 1);
        }
        if k :| 0 <= k < |a| && SmallerAt(a, b, k) {
          assert k > 0 && a[1..][..k - 1] == a[..k][1..] && b[1..][..k - 1] == b[..k][1..];
          assert SmallerAt(a[1..], b[1..], k - 1);
        }
      } else {
        assert a[0] < b[0] ==> SmallerAt(a, b, 0);
        assert forall k :: 0 < k < |a| ==> a[..k][0] != b[..k][0];
      }
    }
  }

  ghost predicate SmallerAt(a: Name, b: Name, k: int) {
    0 <= k < |a| && k < |b| && a[..k] == b[..k] && a[k] < b[k]
  }

  lemma CompareTransitive(a: Name, b: Name, c: Name)
    requires Compare(a, b) < 0 && Compare(b, c) < 0
    ensures Compare(a, c) < 0
  {
    if |a| == |b| == |c| {
      CompareBytesTransitive(a, b, c);
    }
  }

  /** Strictly ascending, and so without two records for a name. */
  ghost predicate Sorted(recs: seq<Rec>) {
    && (forall i, j :: 0 <= i < j < |recs| ==> Compare(recs[i].name, recs[j].name) < 0)
    && (forall i :: 0 <= i < |recs| ==> |recs[i].name| <= NAME_MAX)
  }

  lemma SortedDistinct(recs: seq<Rec>, i: nat, j: nat)
    requires Sorted(recs) && i < |recs| && j < |recs|
    ensures recs[i].name == recs[j].name <==> i == j
  {
    CompareEqual(recs[i].name, recs[j].name);
    CompareEqual(recs[j].name, recs[i].name);
  }

  // ----- the map that a list stands for -----

  ghost function ToMap(recs: seq<Rec>): map<Name, Service> {
    if recs == [] then map[]
    else
      var last := recs[|recs| - 1];
      ToMap(recs[..|recs| - 1])[last.name := Service(last.port, last.kind)]
  }

  lemma {:induction false} ToMapHolds(recs: seq<Rec>, i: nat)
    requires Sorted(recs) && i < |recs|
    ensures recs[i].name in ToMap(recs) && ToMap(recs)[recs[i].name] == Service(recs[i].port, recs[i].kind)
  {
    if i < |recs| - 1 {
      ToMapHolds(recs[..|recs| - 1], i);
      SortedDistinct(recs, i, |recs| - 1);
    }
  }

  lemma {:induction false} ToMapOnly(recs: seq<Rec>, n: Name) returns (i: nat)
    requires n in ToMap(recs)
    ensures i < |recs| && recs[i].name == n
  {
    if recs[|recs| - 1].name == n {
      i := |recs| - 1;
    } else {
      i := ToMapOnly(recs[..|recs| - 1], n);
    }
  }

  /** A map is that of a sorted list if it holds the records and no other names. */
  lemma ToMapIs(recs: seq<Rec>, m: map<Name, Service>)
    requires Sorted(recs)
    requires forall i :: 0 <= i < |recs| ==> recs[i].name in m && m[recs[i].name] == Service(recs[i].port, recs[i].kind)
    requires forall n :: n in m ==> exists i :: 0 <= i < |recs| && recs[i].name == n
    ensures ToMap(recs) == m
  {
    hide ToMap, Sorted;
    var t := ToMap(recs);
    forall n | n in t
      ensures n in m && m[n] == t[n]
    {
      var i := ToMapOnly(recs, n);
      ToMapHolds(recs, i);
    }
    forall n | n in m
      ensures n in t
    {
      var i :| 0 <= i < |recs| && recs[i].name == n;
      ToMapHolds(recs, i);
    }
  }

  ghost function Inserted(recs: seq<Rec>, i: nat, r: Rec): seq<Rec>
    requires i <= |recs|
  {
    recs[..i] + [r] + recs[i..]
  }

  ghost function Deleted(recs: seq<Rec>, i: nat): seq<Rec>
    requires i < |recs|
  {
    recs[..i] + recs[i + 1..]
  }

  lemma InsertedAt(recs: seq<Rec>, i: nat, r: Rec)
    requires i <= |recs|
    ensures |Inserted(recs, i, r)| == |recs| + 1
    ensures forall k {:trigger Inserted(recs, i, r)[k]} :: 0 <= k <= |recs| ==>
      Inserted(recs, i, r)[k] == if k < i then recs[k] else if k == i then r else recs[k - 1]
  {
  }

  lemma DeletedAt(recs: seq<Rec>, i: nat)
    requires i < |recs|
    ensures |Deleted(recs, i)| == |recs| - 1
    ensures forall k {:trigger Deleted(recs, i)[k]} :: 0 <= k < |recs| - 1 ==>
      Deleted(recs, i)[k] == if k < i then recs[k] else recs[k + 1]
  {
  }

  /** Where the insertion finds the first larger name is where the new name belongs. */
  ghost predicate BelongsAt(recs: seq<Rec>, i: nat, r: Rec) {
    && i <= |recs| && |r.name| <= NAME_MAX && r.name !in ToMap(recs)
    && (forall k :: 0 <= k < i ==> Compare(recs[k].name, r.name) <= 0)
    && (i < |recs| ==> Compare(recs[i].name, r.name) > 0)
  }

  lemma BelongsBetween(recs: seq<Rec>, i: nat, r: Rec, k: nat)
    requires Sorted(recs) && BelongsAt(recs, i, r) && k < |recs|
    ensures if k < i then Compare(recs[k].name, r.name) < 0 else Compare(r.name, recs[k].name) < 0
  {
    hide Compare;
    ToMapHolds(recs, k);
    CompareEqual(recs[k].name, r.name);
    if i <= k {
      CompareEqual(recs[i].name, r.name);
      CompareEqual(r.name, recs[i].name);
      if i < k {
        CompareTransitive(r.name, recs[i].name, recs[k].name);
      }
    }
  }

  lemma InsertedSorted(recs: seq<Rec>, i: nat, r: Rec)
    requires Sorted(recs) && BelongsAt(recs, i, r)
    ensures Sorted(Inserted(recs, i, r))
  {
    hide Compare, Inserted, ToMap;
    var t := Inserted(recs, i, r);
    InsertedAt(recs, i, r);
    forall j, k | 0 <= j < k < |t|
      ensures Compare(t[j].name, t[k].name) < 0
    {
      if j == i {
        BelongsBetween(recs, i, r, k - 1);
      } else if k == i {
        BelongsBetween(recs, i, r, j);
      }
    }
  }

  lemma InsertedMap(recs: seq<Rec>, i: nat, r: Rec)
    requires Sorted(recs) && BelongsAt(recs, i, r)
    ensures ToMap(Inserted(recs, i, r)) == ToMap(recs)[r.name := Service(r.port, r.kind)]
  {
    hide Inserted, Sorted, ToMap;
    var t, m := Inserted(recs, i, r), ToMap(recs)[r.name := Service(r.port, r.kind)];
    InsertedSorted(recs, i, r);
    InsertedAt(recs, i, r);
    forall k | 0 <= k < |t|
      ensures t[k].name in m && m[t[k].name] == Service(t[k].port, t[k].kind)
    {
      if k != i {
        ToMapHolds(recs, if k < i then k else k - 1);
      }
    }
    forall n | n in m
      ensures exists k :: 0 <= k < |t| && t[k].name == n
    {
      if n == r.name {
        assert t[i].name == n;
      } else {
        var k := ToMapOnly(recs, n);
        assert t[if k < i then k else k + 1].name == n;
      }
    }
    ToMapIs(t, m);
  }

  lemma DeletedSorted(recs: seq<Rec>, i: nat)
    requires Sorted(recs) && i < |recs|
    ensures Sorted(Deleted(recs, i))
  {
    hide Deleted, Compare;
    DeletedAt(recs, i);
  }

  lemma DeletedMap(recs: seq<Rec>, i: nat)
    requires Sorted(recs) && i < |recs|
    ensures ToMap(Deleted(recs, i)) == ToMap(recs) - {recs[i].name}
  {
    hide Deleted, Sorted, ToMap;
    var t, m := Deleted(recs, i), ToMap(recs) - {recs[i].name};
    DeletedSorted(recs, i);
    DeletedAt(recs, i);
    forall k | 0 <= k < |t|
      ensures t[k].name in m && m[t[k].name] == Service(t[k].port, t[k].kind)
    {
      var j := if k < i then k else k + 1;
      ToMapHolds(recs, j);
      SortedDistinct(recs, j, i);
    }
    forall n | n in m
      ensures exists k :: 0 <= k < |t| && t[k].name == n
    {
      var k := ToMapOnly(recs, n);
      assert t[if k < i then k else k - 1].name == n;
    }
    ToMapIs(t, m);
  }

  lemma UpdatedSorted(recs: seq<Rec>, i: nat, r: Rec)
    requires Sorted(recs) && i < |recs| && r.name == recs[i].name
    ensures Sorted(recs[i := r]) && ToMap(recs[i := r]) == ToMap(recs)[r.name := Service(r.port, r.kind)]
  {
    var t, m := recs[i := r], ToMap(recs)[r.name := Service(r.port, r.kind)];
    ToMapHolds(recs, i);
    forall k | 0 <= k < |t|
      ensures t[k].name in m && m[t[k].name] == Service(t[k].port, t[k].kind)
    {
      ToMapHolds(recs, k);
      SortedDistinct(recs, k, i);
    }
    forall n | n in m
      ensures exists k :: 0 <= k < |t| && t[k].name == n
    {
      if n == r.name {
        assert t[i].name == n;
      } else {
        var k := ToMapOnly(recs, n);
        assert t[k].name == n;
      }
    }
    ToMapIs(t, m);
  }

  /** Halving: what is before a smaller name is smaller, what is behind a larger one is larger. */
  lemma SearchBounds(recs: seq<Rec>, i: nat, k: nat, n: Name)
    requires Sorted(recs) && i < |recs| && k < |recs|
    ensures k <= i && Compare(recs[i].name, n) < 0 ==> Compare(recs[k].name, n) < 0
    ensures i <= k && Compare(recs[i].name, n) > 0 ==> Compare(recs[k].name, n) > 0
  {
    CompareEqual(recs[i].name, n);
    CompareEqual(recs[k].name, n);
    CompareEqual(n, recs[i].name);
    CompareEqual(n, recs[k].name);
    if k < i && Compare(recs[i].name, n) < 0 {
      CompareTransitive(recs[k].name, recs[i].name, n);
    }
    if i < k && Compare(recs[i].name, n) > 0 {
      CompareTransitive(n, recs[i].name, recs[k].name);
    }
  }

  // ----- requests as operations on the map -----

  const NET_MASK: bv8 := 0x70
  const SVC_MASK: bv8 := 0x0f

  predicate LegalKind(kind: bv8) {
    kind == 0x11 || kind == 0x12 || kind == 0x21 || kind == 0x22
  }

  /** The two parts of a legal type make up the type again. */
  lemma KindJoins(kind: bv8)
    requires LegalKind(kind)
    ensures (kind & NET_MASK) | (kind & SVC_MASK) == kind
  {
  }

  datatype Request =
    | Register(name: Name, port: nat, kind: bv8)
    | Lookup(name: Name, kind: bv8)
    | Unregister(name: Name, port: nat, kind: bv8)

  datatype Answer = Answer(services: map<Name, Service>, port: nat)

  ghost predicate HasKind(m: map<Name, Service>, name: Name, kind: bv8) {
    name in m && m[name].kind == kind
  }

  /**
   What a request does, given whether the registered port could be bound, which is taken
   to mean that its server has gone.
   */
  ghost function Apply(m: map<Name, Service>, r: Request, canBind: bool): Answer {
    match r
    case Register(name, port, kind) =>
      if name in m && m[name].port == port then Answer(m, port)
      else if name in m then if canBind then Answer(m[name := Service(port, kind)], port) else Answer(m, 0)
      else if port == 0 then Answer(m, 0)
      else Answer(m[name := Service(port, kind)], port)
    case Lookup(name, kind) =>
      if !HasKind(m, name, kind) then Answer(m, 0)
      else if canBind then Answer(m - {name}, 0)
      else Answer(m, m[name].port)
    case Unregister(name, port, kind) =>
      if port == 0 || |name| > 0 then
        if HasKind(m, name, kind) then Answer(m - {name}, m[name].port) else Answer(m, 0)
      else
        var s := Service(port, kind);
        Answer(WithoutService(m, s), if exists n :: n in m && m[n] == s then port else 0)
  }

  /** The map without the names of one port and type. */
  ghost function WithoutService(m: map<Name, Service>, s: Service): map<Name, Service> {
    map n | n in m && m[n] != s :: m[n]
  }

  lemma WithoutServiceStep(m: map<Name, Service>, s: Service, n: Name)
    requires n in m && m[n] == s
    ensures WithoutService(m - {n}, s) == WithoutService(m, s)
  {
  }

  lemma WithoutServiceDone(m: map<Name, Service>, s: Service)
    requires forall n :: n in m ==> m[n] != s
    ensures WithoutService(m, s) == m
  {
  }

  /** A registration is answered with its port just if the name has that port afterwards. */
  lemma AnswersTell(m: map<Name, Service>, name: Name, port: nat, kind: bv8, canBind: bool)
    requires port != 0
    ensures var a := Apply(m, Register(name, port, kind), canBind);
      && (a.port == port <==> name in a.services && a.services[name].port == port)
      && (a.port == port || a.port == 0)
  {
  }

  // ----- whole histories -----

  /** A request, and whether the port in question could be bound when it was handled. */
  datatype Event = Event(r: Request, canBind: bool)

  ghost function After(events: seq<Event>): map<Name, Service> {
    if events == [] then map[]
    else
      var last := events[|events| - 1];
      Apply(After(events[..|events| - 1]), last.r, last.canBind).services
  }

  /** The request gives the name to a service: the name is free, or its server has gone. */
  ghost predicate Gives(m: map<Name, Service>, e: Event, name: Name, s: Service) {
    && e.r.Register? && e.r.name == name && s == Service(e.r.port, e.r.kind)
    && if name in m then m[name].port != e.r.port && e.canBind else e.r.port != 0
  }

  /** The request takes the name from the service that has it. */
  predicate Takes(e: Event, name: Name, s: Service) {
    match e.r
    case Register(n, port, _) => n == name && port != s.port && e.canBind
    case Lookup(n, kind) => n == name && kind == s.kind && e.canBind
    case Unregister(n, port, kind) =>
      kind == s.kind && if port == 0 || |n| > 0 then n == name else port == s.port
  }

  lemma EventAt(m: map<Name, Service>, e: Event, name: Name, s: Service)
    ensures var m' := Apply(m, e.r, e.canBind).services;
      (name in m' && m'[name] == s) <==>
        Gives(m, e, name, s) || (name in m && m[name] == s && !Takes(e, name, s))
  {
  }

  /** The event at `i` gives the name to the service, and nothing up to `n` takes it away. */
  ghost predicate HeldSince(events: seq<Event>, i: nat, n: nat, name: Name, s: Service)
    requires i < n <= |events|
  {
    Gives(After(events[..i]), events[i], name, s) && forall j :: i < j < n ==> !Takes(events[j], name, s)
  }

  /**
   After any history a service has a name if and only if it was given the name at some
   point and nothing has taken it away since.
   */
  lemma History(events: seq<Event>, name: Name, s: Service)
    ensures (name in After(events) && After(events)[name] == s) <==>
      exists i: nat :: i < |events| && HeldSince(events, i, |events|, name, s)
  {
    hide After, HeldSince;
    if name in After(events) && After(events)[name] == s {
      var i := GivenAt(events, name, s);
    }
    if exists i: nat :: i < |events| && HeldSince(events, i, |events|, name, s) {
      var i: nat :| i < |events| && HeldSince(events, i, |events|, name, s);
      HeldIsHad(events, i, name, s);
    }
  }

  /** The event that gave the name to the service that has it. */
  lemma {:induction false} GivenAt(events: seq<Event>, name: Name, s: Service) returns (i: nat)
    requires name in After(events) && After(events)[name] == s
    ensures i < |events| && HeldSince(events, i, |events|, name, s)
  {
    hide Apply, Gives, Takes;
    var n := |events| - 1;
    var front := events[..n];
    EventAt(After(front), events[n], name, s);
    if Gives(After(front), events[n], name, s) {
      i := n;
    } else {
      i := GivenAt(front, name, s);
      HeldLonger(events, i, name, s);
    }
  }

  lemma HeldIsHad(events: seq<Event>, i: nat, name: Name, s: Service)
    requires i < |events| && HeldSince(events, i, |events|, name, s)
    ensures name in After(events) && After(events)[name] == s
  {
    hide Apply, Gives, Takes;
    var upTo := events[..i + 1];
    assert upTo[..i] == events[..i] && upTo[i] == events[i];
    EventAt(After(events[..i]), events[i], name, s);
    StillHas(events, i + 1, name, s);
  }

  /** What has a name and is not taken from it has the name still. */
  lemma {:induction false} StillHas(events: seq<Event>, i: nat, name: Name, s: Service)
    requires i <= |events| && name in After(events[..i]) && After(events[..i])[name] == s
    requires forall j :: i <= j < |events| ==> !Takes(events[j], name, s)
    ensures name in After(events) && After(events)[name] == s
    decreases |events|
  {
    if i == |events| {
      assert events[..i] == events;
    } else {
      var n := |events| - 1;
      assert events[..n][..i] == events[..i];
      StillHas(events[..n], i, name, s);
      EventAt(After(events[..n]), events[n], name, s);
    }
  }

  /**
   A registration that was answered with its port can be looked up as long as nothing takes
   the name away: under the type registered, or under the old type if the name had the
   port already.
   */
  lemma RegisteredIsFound(events: seq<Event>, i: nat) returns (s: Service)
    requires i < |events| && events[i].r.Register? && events[i].r.port != 0
    requires Apply(After(events[..i]), events[i].r, events[i].canBind).port == events[i].r.port
    ensures var m, r := After(events[..i]), events[i].r;
      s == if r.name in m && m[r.name].port == r.port then m[r.name] else Service(r.port, r.kind)
    ensures var r := events[i].r;
      (forall j :: i < j < |events| ==> !Takes(events[j], r.name, s)) ==>
        Apply(After(events), Lookup(r.name, s.kind), false) == Answer(After(events), r.port)
  {
    var m, r := After(events[..i]), events[i].r;
    AnswersTell(m, r.name, r.port, r.kind, events[i].canBind);
    var m' := Apply(m, r, events[i].canBind).services;
    assert events[..i + 1][..i] == events[..i] && After(events[..i + 1]) == m';
    s := m'[r.name];
    if forall j :: i < j < |events| ==> !Takes(events[j], r.name, s) {
      StillHas(events, i + 1, r.name, s);
    }
  }

  /**
   After any history, a lookup answers a port just if that port has the name under the type
   asked for and its server is there; the service was given the name and nothing has taken
   it away.  Otherwise it answers 0, also if the server has gone.
   */
  lemma LookupAnswers(events: seq<Event>, name: Name, kind: bv8, canBind: bool) returns (i: nat)
    ensures var m := After(events); var a := Apply(m, Lookup(name, kind), canBind);
      && a.port == (if name in m && m[name].kind == kind && !canBind then m[name].port else 0)
      && (a.port != 0 ==>
            && name in m && m[name] == Service(a.port, kind) && a.services == m
            && i < |events| && HeldSince(events, i, |events|, name, Service(a.port, kind)))
  {
    var m := After(events);
    i := 0;
    if name in m && m[name].kind == kind {
      i := GivenAt(events, name, m[name]);
    }
  }

  /**
   After any history, unregistering answers the port that the name had, or 0 if it had none
   under this type; without a name, the port if any name had it under this type, or 0.  What
   was answered no longer has a name.
   */
  lemma UnregisterAnswers(events: seq<Event>, name: Name, port: nat, kind: bv8, canBind: bool)
    ensures var m := After(events); var a := Apply(m, Unregister(name, port, kind), canBind);
      if port == 0 || |name| > 0 then
        && a.port == (if name in m && m[name].kind == kind then m[name].port else 0)
        && (forall n :: n in a.services <==> n in m && (n != name || m[n].kind != kind))
      else
        && a.port == (if exists n :: n in m && m[n] == Service(port, kind) then port else 0)
        && (forall n :: n in a.services <==> n in m && (m[n].port != port || m[n].kind != kind))
    ensures var m := After(events); var a := Apply(m, Unregister(name, port, kind), canBind);
      forall n :: n in a.services ==> a.services[n] == m[n]
  {
  }

  lemma HeldLonger(events: seq<Event>, i: nat, name: Name, s: Service)
    requires i + 1 < |events|
    ensures var n := |events| - 1;
      HeldSince(events, i, |events|, name, s) <==> HeldSince(events[..n], i, n, name, s) && !Takes(events[n], name, s)
  {
    var n := |events| - 1;
    assert events[..n][..i] == events[..i];
    if HeldSince(events[..n], i, n, name, s) && !Takes(events[n], name, s) {
      forall j | i < j < |events|
        ensures !Takes(events[j], name, s)
      {
        assert j < n ==> events[..n][j] == events[j];
      }
    }
    if HeldSince(events, i, |events|, name, s) {
      forall j | i < j < n
        ensures !Takes(events[..n][j], name, s)
      {
        assert events[..n][j] == events[j];
      }
    }
  }

  // ----- the listing of all names -----

  function LowByte(n: nat): Byte {
    n % 0x100
  }

  /** The lowest `k` bytes of a number, the most significant one first. */
  function Bytes(n: nat, k: nat): seq<Byte> {
    if k == 0 then [] else Bytes(n / 0x100, k - 1) + [LowByte(n)]
  }

  function FromBytes(b: seq<Byte>): nat {
    if b == [] then 0 else FromBytes(b[..|b| - 1]) * 0x100 + b[|b| - 1]
  }

  /** A number in network byte order, in four bytes. */
  function BigEndian(n: nat): seq<Byte> {
    Bytes(n, 4)
  }

  ghost function Limit(k: nat): nat {
    if k == 0 then 1 else 0x100 * Limit(k - 1)
  }

  /** A number that fits in `k` bytes is read back. */
  lemma {:induction false} BytesReadBack(n: nat, k: nat)
    requires n < Limit(k)
    ensures |Bytes(n, k)| == k && FromBytes(Bytes(n, k)) == n
  {
    if k > 0 {
      BytesReadBack(n / 0x100, k - 1);
      assert Bytes(n, k)[..k - 1] == Bytes(n / 0x100, k - 1);
    }
  }

  /** The announced length is the length of what follows. */
  lemma LengthReadsBack(names: seq<Byte>)
    requires |names| < 0x1_0000_0000
    ensures var stream := BigEndian(|names|) + names;
      |stream| >= 4 && FromBytes(stream[..4]) == |names| && stream[4..] == names
  {
    assert Limit(4) == 0x1_0000_0000 by {
      assert Limit(1) == 0x100 && Limit(2) == 0x1_0000;
    }
    BytesReadBack(|names|, 4);
    assert (BigEndian(|names|) + names)[..4] == BigEndian(|names|);
  }

  /** Each name is preceded by its length and its type. */
  ghost function Listing(recs: seq<Rec>): seq<Byte> {
    if recs == [] then []
    else
      var r := recs[|recs| - 1];
      Listing(recs[..|recs| - 1]) + [|r.name| % 0x100, r.kind as Byte] + r.name
  }

  /** A number and two records, byte by byte. */
  lemma InBytes(a: Rec, b: Rec)
    requires a == Rec([0x61], 7, 0x11) && b == Rec([0x61, 0x62], 9, 0x22)
    ensures BigEndian(0x01020304) == [1, 2, 3, 4]
    ensures Listing([a, b]) == [1, 0x11, 0x61, 2, 0x22, 0x61, 0x62]
  {
    assert Bytes(0x010203, 3) == [1, 2, 3] by {
      assert Bytes(0x01, 1) == [1] && Bytes(0x0102, 2) == [1, 2];
    }
    assert [a, b][..1] == [a] && [a][..0] == [];
    assert Listing([a]) == [1, 0x11, 0x61];
  }

  lemma NoListing(recs: seq<Rec>)
    ensures Listing(recs[..0]) == [] && recs[..|recs|] == recs
  {
  }

  lemma ListingMore(recs: seq<Rec>, i: nat)
    requires Sorted(recs) && i < |recs|
    ensures |recs[i].name| < 0x100
    ensures Listing(recs[..i + 1]) == Listing(recs[..i]) + [|recs[i].name|, recs[i].kind as Byte] + recs[i].name
  {
    assert recs[..i + 1][..i] == recs[..i];
  }

  /** The listing of the first records stands at the front of the whole listing. */
  lemma {:induction false} ListingPrefix(recs: seq<Rec>, i: nat)
    requires Sorted(recs) && i <= |recs|
    ensures |Listing(recs[..i])| <= |Listing(recs)| && Listing(recs)[..|Listing(recs[..i])|] == Listing(recs[..i])
    decreases |recs| - i
  {
    if i == |recs| {
      assert recs[..i] == recs;
    } else {
      ListingPrefix(recs, i + 1);
      ListingMore(recs, i);
      assert Listing(recs)[..|Listing(recs[..i])|] == Listing(recs[..i + 1])[..|Listing(recs[..i])|];
    }
  }

  /** Where the record at a place stands in the listing. */
  lemma ListingAt(recs: seq<Rec>, i: nat)
    requires Sorted(recs) && i <= |recs| && |Listing(recs[..i])| < |Listing(recs)|
    ensures i < |recs|
    ensures var at := |Listing(recs[..i])|; var r := recs[i];
      && Listing(recs)[at] == |r.name| && at + 2 + |r.name| == |Listing(recs[..i + 1])| <= |Listing(recs)|
      && Listing(recs)[at + 1] == r.kind as Byte && Listing(recs)[at + 2..at + 2 + |r.name|] == r.name
  {
    hide Listing, Sorted;
    assert recs[..|recs|] == recs;
    ListingMore(recs, i);
    ListingPrefix(recs, i + 1);
    var at, r, whole := |Listing(recs[..i])|, recs[i], Listing(recs);
    var part := Listing(recs[..i + 1]);
    assert whole[..|part|] == part && |part| == at + 2 + |r.name|;
    assert part[at] == |r.name| && part[at + 1] == r.kind as Byte && part[at + 2..] == r.name;
    assert whole[at] == part[at] && whole[at + 1] == part[at + 1];
    assert whole[at + 2..at + 2 + |r.name|] == part[at + 2..];
  }

  lemma ListingWhole(recs: seq<Rec>, i: nat)
    requires Sorted(recs) && i <= |recs| && |Listing(recs[..i])| >= |Listing(recs)|
    ensures i == |recs|
  {
    if i < |recs| {
      ListingMore(recs, i);
      ListingPrefix(recs, i + 1);
    }
  }

  datatype Listed = Listed(name: Name, kind: Byte)

  /** What a walk over a listing from `at` recovers; `None` if a step leads past the end. */
  function Walk(b: seq<Byte>, at: nat): Option<seq<Listed>>
    requires at <= |b|
    decreases |b| - at
  {
    if at == |b| then Some([])
    else if at + 1 < |b| && at + 2 + b[at] <= |b| then
      var rest := Walk(b, at + 2 + b[at]);
      if rest.Some? then Some([Listed(b[at + 2..at + 2 + b[at]], b[at + 1])] + rest.value) else None
    else None
  }

  ghost function ListedOf(recs: seq<Rec>, i: nat): seq<Listed>
    requires i <= |recs|
    decreases |recs| - i
  {
    if i == |recs| then [] else [Listed(recs[i].name, recs[i].kind as Byte)] + ListedOf(recs, i + 1)
  }

  lemma {:induction false} WalksFrom(recs: seq<Rec>, i: nat)
    requires Sorted(recs) && i <= |recs|
    ensures |Listing(recs[..i])| <= |Listing(recs)|
    ensures Walk(Listing(recs), |Listing(recs[..i])|) == Some(ListedOf(recs, i))
    decreases |recs| - i
  {
    hide Listing, Sorted;
    ListingPrefix(recs, i);
    if i == |recs| {
      assert recs[..i] == recs;
    } else {
      ListingMore(recs, i);
      ListingPrefix(recs, i + 1);
      ListingAt(recs, i);
      WalksFrom(recs, i + 1);
    }
  }

  lemma {:induction false} ListedOfLength(recs: seq<Rec>, i: nat)
    requires i <= |recs|
    ensures |ListedOf(recs, i)| == |recs| - i
    ensures forall k :: i <= k < |recs| ==> ListedOf(recs, i)[k - i] == Listed(recs[k].name, recs[k].kind as Byte)
    decreases |recs| - i
  {
    if i < |recs| {
      ListedOfLength(recs, i + 1);
      var rest := ListedOf(recs, i + 1);
      forall k | i <= k < |recs|
        ensures ListedOf(recs, i)[k - i] == Listed(recs[k].name, recs[k].kind as Byte)
      {
        if k > i {
          assert ListedOf(recs, i)[k - i] == rest[k - (i + 1)];
        }
      }
    }
  }

  /** Walking over the listing ends exactly at its end and recovers all names and types in order. */
  lemma ReadsBack(recs: seq<Rec>, b: seq<Byte>)
    requires Sorted(recs) && b == Listing(recs)
    ensures Walk(b, 0).Some? && |Walk(b, 0).value| == |recs|
    ensures forall k :: 0 <= k < |recs| ==> Walk(b, 0).value[k] == Listed(recs[k].name, recs[k].kind as Byte)
  {
    WalksFrom(recs, 0);
    assert recs[..0] == [];
    ListedOfLength(recs, 0);
  }
}
