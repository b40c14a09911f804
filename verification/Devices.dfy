/**
 Block device names of the loop server (pkg/server/loopserver.go) and the assignment of the next
 free one to a service (assignDeviceName, pkg/managesvc/service.go).
 */
module Devices {

  datatype Device = Device(name: string, service: string)

  datatype Assignment = Assigned(dev: string) | HasDevice(dev: string) | ErrServiceExist | ErrInternal

  const PREFIX := "/dev/loop"
  const MAX_DEVICES: nat := 36

  // ---------------------------------------------------------------- device names

  function SeqChar(i: nat): char
    requires i < MAX_DEVICES
  {
    if i < 10 then '0' + i as char else 'a' + (i - 10) as char
  }

  /** The i-th name of the device order. */
  function DevName(i: nat): (name: string)
    requires i < MAX_DEVICES
    ensures |name| == 10
  {
    PREFIX + [SeqChar(i)]
  }

  function GetFirstDeviceName(): string { "/dev/loop0" }

  function GetNextDeviceName(lastDev: string): Assignment {
    if !(PREFIX <= lastDev) then ErrInternal
    else
      var devSeq := lastDev[|PREFIX|..];
      if |devSeq| != 1 || devSeq == "z" then ErrInternal
      else if devSeq == "9" then Assigned(PREFIX + "a")
      else Assigned(PREFIX + [NextChar(devSeq[0])])
  }

  /** A byte one larger; the names hold ASCII characters only. */
  function NextChar(c: char): char {
    if c as int < 127 then (c as int + 1) as char else c
  }

  /** strings.Compare on two texts. */
  predicate Less(a: string, b: string) {
    if b == "" then false
    else if a == "" then true
    else a[0] < b[0] || (a[0] == b[0] && Less(a[1..], b[1..]))
  }

  function ToLowerChar(c: char): char {
    if 'A' <= c <= 'Z' then (c as int - 'A' as int + 'a' as int) as char else c
  }

  /** strings.ToLower on the letters, digits and hyphens of service names. */
  function ToLower(s: string): string {
    seq(|s|, i requires 0 <= i < |s| => ToLowerChar(s[i]))
  }

  lemma {:induction false} LessPrefix(p: string, a: string, b: string)
    ensures Less(p + a, p + b) == Less(a, b)
  {
    if p == "" {
      assert p + a == a && p + b == b;
    } else {
      LessPrefix(p[1..], a, b);
      assert (p + a)[1..] == p[1..] + a && (p + b)[1..] == p[1..] + b;
    }
  }

  lemma LessByIndex(i: nat, j: nat)
    requires i < MAX_DEVICES && j < MAX_DEVICES
    ensures Less(DevName(i), DevName(j)) <==> i < j
    ensures DevName(i) == DevName(j) <==> i == j
  {
    LessPrefix(PREFIX, [SeqChar(i)], [SeqChar(j)]);
    assert Less([SeqChar(i)], [SeqChar(j)]) == (SeqChar(i) < SeqChar(j));
    assert DevName(i)[9] == SeqChar(i) && DevName(j)[9] == SeqChar(j);
  }

  /** The successor of a device name is the next one in the device order; the last one has none. */
  lemma NextByIndex(i: nat)
    requires i < MAX_DEVICES
    ensures GetNextDeviceName(DevName(i)) == if i + 1 < MAX_DEVICES then Assigned(DevName(i + 1)) else ErrInternal
  {
    assert DevName(i)[|PREFIX|..] == [SeqChar(i)];
  }

  lemma FirstByIndex()
    ensures GetFirstDeviceName() == DevName(0)
  {
  }

  // ---------------------------------------------------------------- sorting the listing

  predicate Before(a: Device, b: Device) {
    |a.name| < |b.name| || Less(a.name, b.name)
  }

  function Insert(x: Device, s: seq<Device>): (r: seq<Device>)
    ensures multiset(r) == multiset(s) + multiset{x}
  {
    if s == [] || Before(x, s[0]) then [x] + s
    else
      assert s == [s[0]] + s[1..];
      [s[0]] + Insert(x, s[1..])
  }

  /** sort.Slice with the comparator of assignDeviceName. */
  function Sort(s: seq<Device>): (r: seq<Device>)
    ensures multiset(r) == multiset(s)
  {
    if s == [] then []
    else
      assert s == [s[0]] + s[1..];
      Insert(s[0], Sort(s[1..]))
  }

  // ---------------------------------------------------------------- assigning

  function Later(dev: string, lastDev: string): string {
    if |dev| > |lastDev| then dev
    else if |dev| == |lastDev| && Less(lastDev, dev) then dev
    else lastDev
  }

  function Scan(devs: seq<Device>, service: string, exclude: string, lastDev: string): Assignment {
    if devs == [] then GetNextDeviceName(lastDev)
    else
      var x := devs[0];
      if x.name == exclude then Scan(devs[1..], service, exclude, x.name)
      else if x.service == service then HasDevice(x.name)
      else if ToLower(x.service) == ToLower(service) then ErrServiceExist
      else Scan(devs[1..], service, exclude, Later(x.name, lastDev))
  }

  /** The outcome for a listing of the device items, in any order. */
  function Assign(listing: seq<Device>, service: string, exclude: string): Assignment {
    if listing == [] then
      if GetFirstDeviceName() != exclude then Assigned(GetFirstDeviceName())
      else GetNextDeviceName(GetFirstDeviceName())
    else Scan(Sort(listing), service, exclude, GetFirstDeviceName())
  }

  method AssignDeviceName(listing: seq<Device>, service: string, exclude: string) returns (r: Assignment)
    ensures r == Assign(listing, service, exclude)
  {
    var devs := Sort(listing);
    var firstDevice := GetFirstDeviceName();
    if |listing| == 0 {
      if firstDevice != exclude {
        return Assigned(firstDevice);
      }
      return GetNextDeviceName(firstDevice);
    }
    var lastDev := firstDevice;
    for i := 0 to |devs|
      invariant Scan(devs[i..], service, exclude, lastDev) == Assign(listing, service, exclude)
    {
      var x := devs[i];
      assert devs[i..][0] == x && devs[i..][1..] == devs[i + 1..];
      if x.name == exclude {
        lastDev := x.name;
        continue;
      }
      if x.service == service {
        return HasDevice(x.name);
      }
      if ToLower(x.service) == ToLower(service) {
        return ErrServiceExist;
      }
      var dev := x.name;
      if |dev| > |lastDev| {
        lastDev := dev;
      } else if |dev| == |lastDev| {
        if Less(lastDev, dev) {
          lastDev := dev;
        }
      }
    }
    r := GetNextDeviceName(lastDev);
  }

  // ---------------------------------------------------------------- tables

  type Table = map<string, string>

  ghost function Names(n: nat): set<string>
    requires n <= MAX_DEVICES
  {
    set i | 0 <= i < n :: DevName(i)
  }

  /** The devices in use are the first ones of the device order: so it is as long as none is deleted. */
  ghost predicate Contiguous(t: Table) {
    |t| <= MAX_DEVICES && t.Keys == Names(|t|)
  }

  /** The devices in use are any of the device order. */
  ghost predicate Named(t: Table) {
    forall d :: d in t ==> Index(d) >= 0
  }

  ghost predicate TopAt(t: Table, n: nat) {
    && n <= MAX_DEVICES && (n > 0 ==> DevName(n - 1) in t)
    && forall i: nat :: n <= i < MAX_DEVICES ==> DevName(i) !in t
  }

  /** The number after the last device in use, 0 if there is none. */
  ghost function Top(t: Table): (n: nat)
    ensures TopAt(t, n)
  {
    TopExists(t, MAX_DEVICES);
    var n: nat :| TopAt(t, n);
    n
  }

  lemma {:induction false} TopExists(t: Table, m: nat)
    requires m <= MAX_DEVICES && forall i: nat :: m <= i < MAX_DEVICES ==> DevName(i) !in t
    ensures exists n: nat :: TopAt(t, n)
  {
    if m == 0 || DevName(m - 1) in t { assert TopAt(t, m); } else { TopExists(t, m - 1); }
  }

  lemma TopIsUnique(t: Table, n: nat)
    requires TopAt(t, n)
    ensures Top(t) == n
  {
    var m := Top(t);
    assert n > 0 ==> DevName(n - 1) in t;
    assert m > 0 ==> DevName(m - 1) in t;
  }

  lemma ContiguousTop(t: Table)
    requires Contiguous(t)
    ensures Named(t) && Top(t) == |t|
  {
    var n := |t|;
    forall i: nat | i < MAX_DEVICES ensures DevName(i) in t <==> i < n {
      if DevName(i) in t {
        var j: nat :| j < n && DevName(i) == DevName(j);
        LessByIndex(i, j);
      }
    }
    TopIsUnique(t, n);
  }

  ghost predicate ListsDevices(t: Table, devs: seq<Device>) {
    && |devs| == |t|
    && (forall k :: 0 <= k < |devs| ==> devs[k].name in t && t[devs[k].name] == devs[k].service)
    && (forall j, k :: 0 <= j < k < |devs| ==> devs[j].name != devs[k].name)
  }

  /** The place of a name in the device order, -1 for other names. */
  ghost function Index(name: string): (i: int)
    ensures -1 <= i < MAX_DEVICES
    ensures i >= 0 ==> name == DevName(i)
    ensures forall k: nat :: k < MAX_DEVICES && name == DevName(k) ==> i == k
  {
    if k: nat :| k < MAX_DEVICES && name == DevName(k) then
      IndexUnique(k);
      k
    else -1
  }

  lemma IndexUnique(i: nat)
    requires i < MAX_DEVICES
    ensures forall k: nat :: k < MAX_DEVICES && DevName(i) == DevName(k) ==> i == k
  {
    forall k: nat | k < MAX_DEVICES && DevName(i) == DevName(k) ensures i == k { LessByIndex(i, k); }
  }

  lemma BeforeByIndex(a: Device, b: Device)
    requires Index(a.name) >= 0 && Index(b.name) >= 0
    ensures Before(a, b) <==> Index(a.name) < Index(b.name)
  {
    LessByIndex(Index(a.name), Index(b.name));
  }

  ghost predicate AllAfter(d: Device, s: seq<Device>) {
    forall y :: y in s ==> Index(d.name) < Index(y.name)
  }

  /** Known names in strictly ascending device order. */
  ghost predicate Ordered(s: seq<Device>) {
    s != [] ==> Index(s[0].name) >= 0 && AllAfter(s[0], s[1..]) && Ordered(s[1..])
  }

  lemma InsertElements(x: Device, s: seq<Device>)
    ensures forall y :: y in Insert(x, s) <==> y == x || y in s
  {
    var r := Insert(x, s);
    forall y ensures y in r <==> y == x || y in s {
      assert y in r <==> y in multiset(r);
      assert y in s <==> y in multiset(s);
    }
  }

  lemma SortElements(s: seq<Device>)
    ensures forall y :: y in Sort(s) <==> y in s
  {
    forall y ensures y in Sort(s) <==> y in s {
      assert y in Sort(s) <==> y in multiset(Sort(s));
      assert y in s <==> y in multiset(s);
    }
  }

  lemma {:induction false} InsertOrdered(x: Device, s: seq<Device>)
    requires Ordered(s) && Index(x.name) >= 0
    requires forall y :: y in s ==> Index(y.name) != Index(x.name)
    ensures Ordered(Insert(x, s))
  {
    if s != [] {
      BeforeByIndex(x, s[0]);
      hide Index, Before;
      if Before(x, s[0]) {
        assert AllAfter(x, s);
        assert ([x] + s)[1..] == s;
      } else {
        InsertOrdered(x, s[1..]);
        InsertElements(x, s[1..]);
        assert ([s[0]] + Insert(x, s[1..]))[1..] == Insert(x, s[1..]);
      }
    }
  }

  ghost predicate DistinctNames(s: seq<Device>) {
    forall j, k :: 0 <= j < k < |s| ==> s[j].name != s[k].name
  }

  lemma {:induction false} SortOrdered(s: seq<Device>)
    requires forall y :: y in s ==> Index(y.name) >= 0
    requires DistinctNames(s)
    ensures Ordered(Sort(s))
  {
    if s != [] {
      var x, rest := s[0], s[1..];
      SortOrdered(rest);
      SortElements(rest);
      forall y | y in Sort(rest) ensures Index(y.name) != Index(x.name) {
        assert y in rest;
        assert y.name != x.name;
      }
      InsertOrdered(x, Sort(rest));
    }
  }

  lemma {:induction false} OrderedAt(s: seq<Device>, j: nat, k: nat)
    requires Ordered(s) && j < k < |s|
    ensures Index(s[j].name) < Index(s[k].name)
  {
    hide Index;
    var rest := s[1..];
    assert s[k] == rest[k - 1] && Ordered(rest) && AllAfter(s[0], rest);
    hide Ordered;
    if j > 0 {
      hide AllAfter;
      assert s[j] == rest[j - 1];
      OrderedAt(rest, j - 1, k - 1);
    }
  }

  lemma {:induction false} NamesOf(devs: seq<Device>, t: Table) returns (names: set<string>)
    requires DistinctNames(devs) && forall x :: x in devs ==> x.name in t
    ensures |names| == |devs| && names <= t.Keys
    ensures forall d :: d in names <==> exists x :: x in devs && x.name == d
  {
    if devs == [] {
      names := {};
    } else {
      var last, rest := devs[|devs| - 1], devs[..|devs| - 1];
      var some := NamesOf(rest, t);
      names := some + {last.name};
      assert forall x :: x in rest ==> x.name != last.name;
      forall d ensures d in names <==> exists x :: x in devs && x.name == d {
        if d in some { var x :| x in rest && x.name == d; assert x in devs; }
        if d == last.name { assert last in devs; }
        if x :| x in devs && x.name == d { assert x in rest || x == last; }
      }
    }
  }

  /** A listing has every device. */
  lemma ListedDevice(t: Table, devs: seq<Device>, d: string)
    requires ListsDevices(t, devs) && d in t
    ensures Device(d, t[d]) in devs
  {
    var names := NamesOf(devs, t);
    Subsets(names, t.Keys);
    var x :| x in devs && x.name == d;
  }

  lemma Subsets(a: set<string>, b: set<string>)
    requires a <= b && |a| == |b|
    ensures a == b
  {
    assert |b - a| == |b| - |a|;
  }

  /** Sorted, any listing is all the devices in strictly ascending device order, gaps or not. */
  lemma SortedListing(t: Table, listing: seq<Device>)
    requires Named(t) && ListsDevices(t, listing)
    ensures Ordered(Sort(listing))
    ensures forall j, k :: 0 <= j < k < |t| ==> j < k < |Sort(listing)| && Index(Sort(listing)[j].name) < Index(Sort(listing)[k].name)
    ensures |Sort(listing)| == |t|
    ensures forall x :: x in Sort(listing) <==> x.name in t && t[x.name] == x.service
  {
    var s := Sort(listing);
    SortOrdered(listing);
    SortElements(listing);
    assert |s| == |multiset(s)| == |multiset(listing)| == |listing|;
    forall x ensures x in s <==> x.name in t && t[x.name] == x.service {
      if x.name in t { ListedDevice(t, listing, x.name); }
    }
    hide Ordered, Index;
    forall j, k | 0 <= j < k < |t| ensures Index(s[j].name) < Index(s[k].name) {
      OrderedAt(s, j, k);
    }
  }

  // ---------------------------------------------------------------- what is assigned

  /** Another device of the service, or of a service whose name differs only in letter case. */
  ghost predicate Hit(t: Table, service: string, exclude: string, i: nat) {
    i < MAX_DEVICES && DevName(i) != exclude && DevName(i) in t && ToLower(t[DevName(i)]) == ToLower(service)
  }

  ghost predicate NoHit(t: Table, service: string, exclude: string, n: nat) {
    forall i: nat :: i < n ==> !Hit(t, service, exclude, i)
  }

  ghost predicate FirstHit(t: Table, service: string, exclude: string, i: nat) {
    Hit(t, service, exclude, i) && NoHit(t, service, exclude, i)
  }

  /** What assigning a device to a service means. */
  ghost predicate Outcome(t: Table, service: string, exclude: string, r: Assignment) {
    match r
    case HasDevice(dev) =>
      exists i: nat :: FirstHit(t, service, exclude, i) && dev == DevName(i) && t[dev] == service
    case ErrServiceExist =>
      exists i: nat :: FirstHit(t, service, exclude, i) && t[DevName(i)] != service
    case Assigned(dev) => Top(t) < MAX_DEVICES && dev == DevName(Top(t)) && NoHit(t, service, exclude, Top(t))
    case ErrInternal => Top(t) == MAX_DEVICES && NoHit(t, service, exclude, Top(t))
  }

  /** The devices from number m on, in their order. */
  ghost predicate Rest(t: Table, s: seq<Device>, m: nat) {
    && Ordered(s) && m <= MAX_DEVICES
    && (forall x :: x in s <==> x.name in t && t[x.name] == x.service && Index(x.name) >= m)
    && (m > 0 ==> DevName(m - 1) in t)
  }

  lemma RestHas(t: Table, s: seq<Device>, m: nat, k: nat)
    requires Rest(t, s, m) && m <= k < MAX_DEVICES && DevName(k) in t
    ensures s != [] && Index(s[0].name) <= k
  {
    var x := Device(DevName(k), t[DevName(k)]);
    assert x in s;
    assert x == s[0] || x in s[1..];
  }

  lemma RestNext(t: Table, s: seq<Device>, m: nat)
    requires Rest(t, s, m) && s != []
    ensures var i := Index(s[0].name);
            && m <= i && s[0].name == DevName(i) && DevName(i) in t && t[DevName(i)] == s[0].service && Rest(t, s[1..], i + 1)
            && forall k: nat :: m <= k < i ==> DevName(k) !in t
  {
    var i := Index(s[0].name);
    assert s[0] in s;
    forall x ensures x in s[1..] <==> x.name in t && t[x.name] == x.service && Index(x.name) >= i + 1 {
      assert x in s <==> x == s[0] || x in s[1..];
      hide DevName;
      if x in s && x != s[0] { assert AllAfter(s[0], s[1..]); }
    }
    forall k: nat | m <= k < i ensures DevName(k) !in t {
      if DevName(k) in t { RestHas(t, s, m, k); }
    }
  }

  lemma RestEmpty(t: Table, m: nat)
    requires Named(t) && Rest(t, [], m)
    ensures Top(t) == m
  {
    forall i: nat | m <= i < MAX_DEVICES ensures DevName(i) !in t {
      if DevName(i) in t { RestHas(t, [], m, i); }
    }
    TopIsUnique(t, m);
  }

  lemma LaterIsLast(m: nat, i: nat)
    requires m <= i < MAX_DEVICES
    ensures Later(DevName(i), DevName(if m == 0 then 0 else m - 1)) == DevName(i)
  {
    LessByIndex(if m == 0 then 0 else m - 1, i);
  }

  lemma {:induction false} ScanOutcome(t: Table, s: seq<Device>, m: nat, service: string, exclude: string)
    requires Named(t) && Rest(t, s, m) && (m > 0 || s != []) && NoHit(t, service, exclude, m)
    ensures Outcome(t, service, exclude, Scan(s, service, exclude, DevName(if m == 0 then 0 else m - 1)))
    decreases |s|
  {
    if s == [] {
      RestEmpty(t, m);
      NextByIndex(m - 1);
    } else {
      RestNext(t, s, m);
      var i := Index(s[0].name);
      LaterIsLast(m, i);
      assert NoHit(t, service, exclude, i) by { hide ToLower; }
      ScanFirst(t, s, service, exclude, i, DevName(if m == 0 then 0 else m - 1));
      hide DevName, Less, ToLower, Index, Rest, Named, Scan, Later;
      if !Hit(t, service, exclude, i) {
        ScanOutcome(t, s[1..], i + 1, service, exclude);
      }
    }
  }

  lemma ScanFirst(t: Table, s: seq<Device>, service: string, exclude: string, i: nat, lastDev: string)
    requires s != [] && i < MAX_DEVICES && s[0].name == DevName(i) && DevName(i) in t && t[DevName(i)] == s[0].service
    requires Later(DevName(i), lastDev) == DevName(i) && NoHit(t, service, exclude, i)
    ensures var r := Scan(s, service, exclude, lastDev);
            if Hit(t, service, exclude, i) then Outcome(t, service, exclude, r) else r == Scan(s[1..], service, exclude, DevName(i))
    ensures !Hit(t, service, exclude, i) ==> NoHit(t, service, exclude, i + 1)
  {
    hide DevName, Later, ToLower;
    if Hit(t, service, exclude, i) { assert FirstHit(t, service, exclude, i); }
  }

  /** The outcome for every listing of a table, with gaps or without, whatever its order. */
  lemma AssignOutcome(t: Table, listing: seq<Device>, service: string, exclude: string)
    requires Named(t) && ListsDevices(t, listing) && (exclude == "" || exclude in t)
    ensures Outcome(t, service, exclude, Assign(listing, service, exclude))
  {
    FirstByIndex();
    if |t| == 0 {
      assert t.Keys == {};
      TopIsUnique(t, 0);
    } else {
      SortedListing(t, listing);
      assert |Sort(listing)| > 0;
      assert Rest(t, Sort(listing), 0) by { assert forall x :: x in Sort(listing) ==> Index(x.name) >= 0; }
      ScanOutcome(t, Sort(listing), 0, service, exclude);
    }
  }

  lemma OutcomeIsUnique(t: Table, service: string, exclude: string, r: Assignment, r': Assignment)
    requires Named(t) && Outcome(t, service, exclude, r) && Outcome(t, service, exclude, r')
    ensures r == r'
  {
    hide DevName, ToLower;
  }

  /**
   A gap is not filled: with the first service's device gone, the next service gets the one after the last,
   and the devices in use are no longer the first ones of the order.
   */
  lemma GapIsNotFilled(b: string, c: string)
    requires ToLower(b) != ToLower(c)
    ensures var t: Table := map[DevName(0) := "a", DevName(1) := b] - {DevName(0)};
            Named(t) && !Contiguous(t) && Top(t) == 2 && Outcome(t, c, "", Assigned(DevName(2)))
  {
    LessByIndex(0, 1);
    var t: Table := map[DevName(0) := "a", DevName(1) := b] - {DevName(0)};
    assert t == map[DevName(1) := b];
    forall i: nat | 2 <= i < MAX_DEVICES ensures DevName(i) !in t { LessByIndex(1, i); }
    TopIsUnique(t, 2);
    assert |t| == 1 && Names(1) == {DevName(0)};
    assert DevName(1) in t.Keys && DevName(1) !in Names(1);
    hide ToLower, DevName;
    assert NoHit(t, c, "", 2);
  }
}
