/**
 Concurrent, retried and interrupted runs of createServiceVolumes (pkg/managesvc/service.go): every
 runner lists the devices, picks the next name and creates the device item if it is absent. Nothing
 is deleted. A step is one database operation of one runner.
 */
module DeviceRuns {
  import opened Devices
  import Records

  /** A runner waits to list, waits to create the device it picked, or has ended. */
  datatype Phase = Listing | Creating(dev: string, seen: nat) | Finished | Failed

  /** `primary` and `journal` are empty until they are known; `seen` is the size of the listed table. */
  datatype Runner = Runner(service: string, wantsJournal: bool, primary: string, journal: string, tries: nat, phase: Phase)

  datatype World = World(table: Table, runners: map<nat, Runner>)

  /**
   A run starts; a runner does its next operation (with the listing it is given, when it lists); a
   runner stops before its next operation; a runner stops after it, without having seen the reply.
   */
  datatype Event =
    | Start(id: nat, service: string, wantsJournal: bool)
    | Advance(id: nat, listing: seq<Device>)
    | Stop(id: nat)
    | LoseReply(id: nat)

  /** createDevice returns a device: the primary first, then the journal excluding it. */
  function Chosen(r: Runner, dev: string): Runner {
    if r.primary == "" then
      if r.wantsJournal then r.(primary := dev, tries := 0, phase := Listing)
      else r.(primary := dev, phase := Finished)
    else r.(journal := dev, phase := Finished)
  }

  function AfterListing(t: Table, r: Runner, listing: seq<Device>): Runner {
    match Assign(listing, r.service, r.primary)
    case HasDevice(dev) => Chosen(r, dev)
    case Assigned(dev) => r.(phase := Creating(dev, |t|))
    case ErrServiceExist => r.(phase := Failed)
    case ErrInternal => r.(phase := Failed)
  }

  function Retried(r: Runner): Runner {
    if r.tries + 1 < Records.MAX_RETRY_COUNT then r.(tries := r.tries + 1, phase := Listing) else r.(phase := Failed)
  }

  /** The conditional create of the device item: only if the name is absent. */
  function CreateDevice(t: Table, dev: string, service: string): (Table, bool) {
    if dev in t then (t, false) else (t[dev := service], true)
  }

  ghost function Step(w: World, e: Event): World {
    match e
    case Start(id, service, wantsJournal) =>
      if id in w.runners then w
      else w.(runners := w.runners[id := Runner(service, wantsJournal, "", "", 0, Listing)])
    case Stop(id) =>
      if id in w.runners then w.(runners := w.runners[id := w.runners[id].(phase := Failed)]) else w
    case LoseReply(id) =>
      if id in w.runners && w.runners[id].phase.Creating? then
        var r := w.runners[id];
        World(CreateDevice(w.table, r.phase.dev, r.service).0, w.runners[id := r.(phase := Failed)])
      else w
    case Advance(id, listing) =>
      if id !in w.runners then w
      else
        var r := w.runners[id];
        match r.phase
        case Listing =>
          if ListsDevices(w.table, listing) then w.(runners := w.runners[id := AfterListing(w.table, r, listing)]) else w
        case Creating(dev, _) =>
          var (t, created) := CreateDevice(w.table, dev, r.service);
          World(t, w.runners[id := if created then Chosen(r, dev) else Retried(r)])
        case _ => w
  }

  ghost function Run(w: World, events: seq<Event>): World
    decreases |events|
  {
    if events == [] then w else Run(Step(w, events[0]), events[1..])
  }

  // ---------------------------------------------------------------- the invariant

  ghost predicate NoVariants(t: Table) {
    forall a, b :: a in t && b in t && ToLower(t[a]) == ToLower(t[b]) ==> t[a] == t[b]
  }

  ghost predicate OwnedAt(t: Table, i: nat, service: string) {
    i < MAX_DEVICES && DevName(i) in t && t[DevName(i)] == service
  }

  ghost predicate AtMostTwo(t: Table) {
    forall i: nat, j: nat, k: nat, s: string ::
      !(i < j < k && OwnedAt(t, i, s) && OwnedAt(t, j, s) && OwnedAt(t, k, s))
  }

  ghost predicate TableOK(t: Table) { Contiguous(t) && NoVariants(t) && AtMostTwo(t) }

  /** The first device of the service, in device order. */
  ghost predicate IsFirst(t: Table, service: string, dev: string) {
    exists i: nat :: i < MAX_DEVICES && dev == DevName(i) && OwnedAt(t, i, service) && forall j: nat :: j < i ==> !OwnedAt(t, j, service)
  }

  ghost predicate RunnerOK(t: Table, r: Runner)
    requires Contiguous(t)
  {
    && (r.primary != "" ==> IsFirst(t, r.service, r.primary))
    && (r.journal != "" ==> r.primary != "" && r.journal in t && t[r.journal] == r.service && r.journal != r.primary)
    && (r.phase.Creating? ==>
          var n := r.phase.seen;
          n < MAX_DEVICES && n <= |t| && r.phase.dev == DevName(n)
          && (n == |t| ==> NoHit(t, r.service, r.primary, n)))
    && (r.phase.Finished? ==> r.primary != "" && (r.wantsJournal <==> r.journal != ""))
    && (!r.wantsJournal ==> r.journal == "")
    && (r.primary != "" && !r.wantsJournal ==> r.phase.Finished? || r.phase.Failed?)
    && (r.phase.Listing? || r.phase.Creating? ==> r.journal == "")
  }

  ghost predicate Inv(w: World) {
    TableOK(w.table) && forall id :: id in w.runners ==> RunnerOK(w.table, w.runners[id])
  }

  lemma ContiguousNames(t: Table, dev: string) returns (i: nat)
    requires Contiguous(t) && dev in t
    ensures i < |t| && dev == DevName(i)
  {
    i :| i < |t| && dev == DevName(i);
  }

  lemma NameIsNext(t: Table, i: nat)
    requires Contiguous(t) && i < MAX_DEVICES
    ensures DevName(i) in t <==> i < |t|
  {
    if DevName(i) in t {
      var j := ContiguousNames(t, DevName(i));
      LessByIndex(i, j);
    }
  }

  /** Creating the next device keeps the names without a gap. */
  lemma ExtendContiguous(t: Table, service: string)
    requires Contiguous(t) && |t| < MAX_DEVICES
    ensures DevName(|t|) !in t
    ensures Contiguous(t[DevName(|t|) := service]) && |t[DevName(|t|) := service]| == |t| + 1
  {
    var n := |t|;
    NameIsNext(t, n);
    var t' := t[DevName(n) := service];
    assert t'.Keys == t.Keys + {DevName(n)};
    assert |t'.Keys| == n + 1;
    assert Names(n + 1) == Names(n) + {DevName(n)};
  }

  lemma OwnedAfter(t: Table, service: string, i: nat, s: string)
    requires Contiguous(t) && |t| < MAX_DEVICES && i < MAX_DEVICES
    ensures OwnedAt(t[DevName(|t|) := service], i, s) <==> if i == |t| then s == service else OwnedAt(t, i, s)
  {
    LessByIndex(i, |t|);
    NameIsNext(t, i);
  }

  /** A creation that succeeds takes the successor of the current maximum. */
  ghost predicate Extends(t: Table, t': Table, service: string, exclude: string) {
    && Contiguous(t) && |t| < MAX_DEVICES
    && t' == t[DevName(|t|) := service]
    && NoHit(t, service, exclude, |t|)
  }

  lemma ExtendKeepsVariants(t: Table, t': Table, service: string, exclude: string)
    requires TableOK(t) && Extends(t, t', service, exclude)
    requires exclude == "" || (exclude in t && t[exclude] == service)
    ensures NoVariants(t')
  {
    var n := |t|;
    ExtendContiguous(t, service);
    forall a | a in t && ToLower(t[a]) == ToLower(service) ensures t[a] == service {
      var i := ContiguousNames(t, a);
      assert !Hit(t, service, exclude, i);
    }
  }

  lemma OnlyExcluded(t: Table, service: string, exclude: string, i: nat)
    requires Contiguous(t) && NoHit(t, service, exclude, |t|) && OwnedAt(t, i, service)
    ensures DevName(i) == exclude
  {
    NameIsNext(t, i);
    assert !Hit(t, service, exclude, i);
  }

  lemma ExtendKeepsAtMostTwo(t: Table, t': Table, service: string, exclude: string)
    requires TableOK(t) && Extends(t, t', service, exclude)
    ensures AtMostTwo(t')
  {
    var n := |t|;
    forall i: nat, j: nat, k: nat, s: string
      ensures !(i < j < k && OwnedAt(t', i, s) && OwnedAt(t', j, s) && OwnedAt(t', k, s))
    {
      if i < j < k && OwnedAt(t', i, s) && OwnedAt(t', j, s) && OwnedAt(t', k, s) {
        ExtendContiguous(t, service);
        NameIsNext(t', k);
        OwnedAfter(t, service, i, s);
        OwnedAfter(t, service, j, s);
        OwnedAfter(t, service, k, s);
        if k == n {
          OnlyExcluded(t, service, exclude, i);
          OnlyExcluded(t, service, exclude, j);
          LessByIndex(i, j);
        }
        assert false;
      }
    }
  }

  lemma ExtendKeepsRunner(t: Table, t': Table, service: string, exclude: string, r: Runner)
    requires TableOK(t) && Extends(t, t', service, exclude) && RunnerOK(t, r)
    ensures Contiguous(t') && RunnerOK(t', r)
  {
    ExtendContiguous(t, service);
    if r.primary != "" {
      ExtendKeepsFirst(t, t', service, r.service, r.primary);
    }
  }

  lemma ExtendKeepsFirst(t: Table, t': Table, service: string, s: string, dev: string)
    requires Contiguous(t) && |t| < MAX_DEVICES && t' == t[DevName(|t|) := service] && IsFirst(t, s, dev)
    ensures IsFirst(t', s, dev)
  {
    var i: nat :| i < MAX_DEVICES && dev == DevName(i) && OwnedAt(t, i, s) && forall j: nat :: j < i ==> !OwnedAt(t, j, s);
    NameIsNext(t, i);
    OwnedAfter(t, service, i, s);
    forall j: nat | j < i ensures !OwnedAt(t', j, s) { OwnedAfter(t, service, j, s); }
  }

  lemma ChosenByListing(t: Table, r: Runner, dev: string)
    requires TableOK(t) && RunnerOK(t, r) && r.phase.Listing?
    requires Outcome(t, r.service, r.primary, HasDevice(dev))
    ensures RunnerOK(t, Chosen(r, dev))
  {
    var i: nat :| FirstHit(t, r.service, r.primary, i) && dev == DevName(i) && t[dev] == r.service;
    if r.primary == "" {
      assert OwnedAt(t, i, r.service);
      forall j: nat | j < i ensures !OwnedAt(t, j, r.service) { assert !Hit(t, r.service, "", j); }
      assert IsFirst(t, r.service, dev);
    }
  }

  lemma ChosenByCreating(t: Table, t': Table, r: Runner)
    requires TableOK(t) && RunnerOK(t, r) && r.phase.Creating?
    requires Extends(t, t', r.service, r.primary) && r.phase.dev == DevName(|t|)
    ensures Contiguous(t') && RunnerOK(t', Chosen(r, r.phase.dev))
  {
    var n := |t|;
    ExtendContiguous(t, r.service);
    ExtendKeepsRunner(t, t', r.service, r.primary, r);
    if r.primary == "" {
      OwnedAfter(t, r.service, n, r.service);
      forall j: nat | j < n ensures !OwnedAt(t', j, r.service) {
        OwnedAfter(t, r.service, j, r.service);
        assert !Hit(t, r.service, "", j);
      }
      assert IsFirst(t', r.service, DevName(n));
    } else {
      var i: nat :| i < MAX_DEVICES && r.primary == DevName(i) && OwnedAt(t, i, r.service);
      NameIsNext(t, i);
    }
  }

  lemma FirstIsOwned(t: Table, r: Runner)
    requires Contiguous(t) && RunnerOK(t, r)
    ensures r.primary == "" || (r.primary in t && t[r.primary] == r.service)
  {
  }

  /** The creation is atomic in effect: if the picked name is still absent, the listed table is the current one. */
  lemma CreationIsAtomic(t: Table, r: Runner)
    requires TableOK(t) && RunnerOK(t, r) && r.phase.Creating?
    ensures var (t', created) := CreateDevice(t, r.phase.dev, r.service);
            && (created <==> r.phase.seen == |t|)
            && (created ==> Extends(t, t', r.service, r.primary) && r.phase.dev == DevName(|t|))
            && (!created ==> t' == t)
  {
    NameIsNext(t, r.phase.seen);
  }

  lemma WorldAfterCreation(w: World, id: nat, r': Runner, t': Table)
    requires Inv(w) && id in w.runners && w.runners[id].phase.Creating?
    requires Extends(w.table, t', w.runners[id].service, w.runners[id].primary)
    requires Contiguous(t') && RunnerOK(t', r')
    ensures Inv(World(t', w.runners[id := r']))
  {
    var r := w.runners[id];
    FirstIsOwned(w.table, r);
    ExtendKeepsVariants(w.table, t', r.service, r.primary);
    ExtendKeepsAtMostTwo(w.table, t', r.service, r.primary);
    forall i | i in w.runners ensures RunnerOK(t', w.runners[i]) {
      ExtendKeepsRunner(w.table, t', r.service, r.primary, w.runners[i]);
    }
  }

  lemma StepKeepsInv(w: World, e: Event)
    requires Inv(w)
    ensures Inv(Step(w, e))
  {
    match e
    case Start(_, _, _) =>
    case Stop(_) =>
    case LoseReply(id) =>
      if id in w.runners && w.runners[id].phase.Creating? { LostStep(w, id); }
    case Advance(id, listing) =>
      if id in w.runners {
        var r := w.runners[id];
        match r.phase {
          case Listing => if ListsDevices(w.table, listing) { ListingStep(w.table, r, listing); }
          case Creating(_, _) => CreatingStep(w, id, listing);
          case _ =>
        }
      }
  }

  lemma LostStep(w: World, id: nat)
    requires Inv(w) && id in w.runners && w.runners[id].phase.Creating?
    ensures Inv(Step(w, LoseReply(id)))
  {
    var r := w.runners[id];
    CreationIsAtomic(w.table, r);
    var (t', created) := CreateDevice(w.table, r.phase.dev, r.service);
    if created {
      ExtendKeepsRunner(w.table, t', r.service, r.primary, r);
      WorldAfterCreation(w, id, r.(phase := Failed), t');
    }
  }

  lemma CreatingStep(w: World, id: nat, listing: seq<Device>)
    requires Inv(w) && id in w.runners && w.runners[id].phase.Creating?
    ensures Inv(Step(w, Advance(id, listing)))
  {
    var r := w.runners[id];
    CreationIsAtomic(w.table, r);
    var (t', created) := CreateDevice(w.table, r.phase.dev, r.service);
    if created {
      ChosenByCreating(w.table, t', r);
      WorldAfterCreation(w, id, Chosen(r, r.phase.dev), t');
    }
  }

  lemma ListingStep(t: Table, r: Runner, listing: seq<Device>)
    requires TableOK(t) && RunnerOK(t, r) && r.phase.Listing? && ListsDevices(t, listing)
    ensures RunnerOK(t, AfterListing(t, r, listing))
  {
    FirstIsOwned(t, r);
    ContiguousTop(t);
    AssignOutcome(t, listing, r.service, r.primary);
    ListingKeepsRunner(t, r, listing);
  }

  lemma ListingKeepsRunner(t: Table, r: Runner, listing: seq<Device>)
    requires TableOK(t) && Top(t) == |t| && RunnerOK(t, r) && r.phase.Listing?
    requires Outcome(t, r.service, r.primary, Assign(listing, r.service, r.primary))
    ensures RunnerOK(t, AfterListing(t, r, listing))
  {
    match Assign(listing, r.service, r.primary)
    case HasDevice(dev) => ChosenByListing(t, r, dev);
    case _ =>
  }

  // ---------------------------------------------------------------- results

  /** Every run, however its runners interleave, stop and retry, keeps the invariant. */
  lemma {:induction false} RunKeepsInv(w: World, events: seq<Event>)
    requires Inv(w)
    ensures Inv(Run(w, events))
    decreases |events|
  {
    if events != [] {
      StepKeepsInv(w, events[0]);
      RunKeepsInv(Step(w, events[0]), events[1..]);
    }
  }

  ghost const EMPTY := World(map[], map[])

  lemma EmptyIsFine()
    ensures Inv(EMPTY)
  {
    assert Names(0) == {};
  }

  /** From an empty system: no gaps, no two owners that differ only in letter case, at most two devices a service. */
  lemma DevicesOfEveryRun(events: seq<Event>)
    ensures TableOK(Run(EMPTY, events).table)
  {
    EmptyIsFine();
    RunKeepsInv(EMPTY, events);
  }

  /** Every change of the table takes the successor of the current maximum, for one new owner's device. */
  lemma OnlySuccessorsAreTaken(w: World, e: Event)
    requires Inv(w) && Step(w, e).table != w.table
    ensures (e.Advance? || e.LoseReply?) && e.id in w.runners
    ensures |w.table| < MAX_DEVICES && Step(w, e).table == w.table[DevName(|w.table|) := w.runners[e.id].service]
    ensures forall i: nat :: i < |w.table| && DevName(i) in w.table && DevName(i) != w.runners[e.id].primary ==>
              ToLower(w.table[DevName(i)]) != ToLower(w.runners[e.id].service)
    ensures |w.table| > 0 ==> GetNextDeviceName(DevName(|w.table| - 1)) == Assigned(DevName(|w.table|))
    ensures |w.table| == 0 ==> DevName(0) == GetFirstDeviceName()
  {
    var id := e.id;
    assert id in w.runners && w.runners[id].phase.Creating?;
    CreationIsAtomic(w.table, w.runners[id]);
    if |w.table| > 0 { NextByIndex(|w.table| - 1); }
    FirstByIndex();
    forall i: nat | i < |w.table| && DevName(i) in w.table && DevName(i) != w.runners[e.id].primary
      ensures ToLower(w.table[DevName(i)]) != ToLower(w.runners[e.id].service)
    {
      assert !Hit(w.table, w.runners[e.id].service, w.runners[e.id].primary, i);
    }
  }

  /** Runs for the same service that succeed agree on the devices, which are distinct and recorded for the service. */
  lemma PairsAgree(w: World, a: nat, b: nat)
    requires Inv(w) && a in w.runners && b in w.runners
    requires w.runners[a].phase.Finished? && w.runners[b].phase.Finished?
    requires w.runners[a].service == w.runners[b].service
    ensures w.runners[a].primary == w.runners[b].primary
    ensures w.runners[a].wantsJournal && w.runners[b].wantsJournal ==> w.runners[a].journal == w.runners[b].journal
    ensures w.runners[a].primary in w.table && w.table[w.runners[a].primary] == w.runners[a].service
    ensures w.runners[a].wantsJournal ==>
              && w.runners[a].journal != w.runners[a].primary
              && w.runners[a].journal in w.table && w.table[w.runners[a].journal] == w.runners[a].service
  {
    var t, ra, rb, s := w.table, w.runners[a], w.runners[b], w.runners[a].service;
    assert RunnerOK(t, ra) && RunnerOK(t, rb);
    FirstIsUnique(t, s, ra.primary, rb.primary);
    hide IsFirst, NoHit, NoVariants;
    if ra.wantsJournal && rb.wantsJournal {
      SecondIsUnique(t, s, ra.primary, ra.journal, rb.journal);
    }
  }

  lemma FirstIsUnique(t: Table, s: string, a: string, b: string)
    requires IsFirst(t, s, a) && IsFirst(t, s, b)
    ensures a == b && a in t && t[a] == s
  {
    hide DevName;
  }

  /** A service has at most one device beside its first. */
  lemma SecondIsUnique(t: Table, s: string, first: string, a: string, b: string)
    requires Contiguous(t) && AtMostTwo(t) && IsFirst(t, s, first)
    requires a in t && t[a] == s && a != first && b in t && t[b] == s && b != first
    ensures a == b
  {
    var i: nat :| i < MAX_DEVICES && first == DevName(i) && OwnedAt(t, i, s) && forall j: nat :: j < i ==> !OwnedAt(t, j, s);
    var j := ContiguousNames(t, a);
    var j' := ContiguousNames(t, b);
    hide Contiguous, DevName;
    assert OwnedAt(t, j, s) && OwnedAt(t, j', s);
    assert i < j && i < j';
    assert !(i < j < j') && !(i < j' < j);
  }

  // ---------------------------------------------------------------- a run that nobody disturbs

  lemma {:induction false} ListingExists(t: Table, names: set<string>) returns (listing: seq<Device>)
    requires names <= t.Keys
    ensures |listing| == |names|
    ensures forall k :: 0 <= k < |listing| ==> listing[k].name in names && t[listing[k].name] == listing[k].service
    ensures forall j, k :: 0 <= j < k < |listing| ==> listing[j].name != listing[k].name
  {
    if names == {} {
      listing := [];
    } else {
      var name :| name in names;
      var rest := ListingExists(t, names - {name});
      listing := rest + [Device(name, t[name])];
    }
  }

  /** No owner's name differs from the service's in letter case only. */
  ghost predicate NoVariantOf(t: Table, service: string) {
    forall d :: d in t && ToLower(t[d]) == ToLower(service) ==> t[d] == service
  }

  /** Listing finds the service's device, or the next one. */
  lemma ListingPicks(w: World, id: nat) returns (e: Event, dev: string, found: bool)
    requires Inv(w) && id in w.runners && w.runners[id].phase.Listing? && NoVariantOf(w.table, w.runners[id].service)
    requires |w.table| < MAX_DEVICES
    ensures e.Advance? && e.id == id && Inv(Step(w, e))
    ensures var r := w.runners[id];
            && Step(w, e) == w.(runners := w.runners[id := if found then Chosen(r, dev) else r.(phase := Creating(dev, |w.table|))])
            && if found then dev in w.table && w.table[dev] == r.service else dev == DevName(|w.table|) && dev !in w.table
  {
    var r := w.runners[id];
    FirstIsOwned(w.table, r);
    ContiguousTop(w.table);
    NameIsNext(w.table, |w.table|);
    hide ToLower, DevName, Assign, NoVariantOf;
    var listing := ListingExists(w.table, w.table.Keys);
    e := Advance(id, listing);
    StepKeepsInv(w, e);
    AssignOutcome(w.table, listing, r.service, r.primary);
    var a := Assign(listing, r.service, r.primary);
    AssignedOwn(w.table, r.service, r.primary, a);
    dev, found := a.dev, a.HasDevice?;
  }

  lemma CreatingTakes(w: World, id: nat, dev: string)
    requires Inv(w) && id in w.runners && w.runners[id].phase == Creating(dev, |w.table|)
    ensures var r := w.runners[id];
            Inv(Step(w, Advance(id, []))) && Step(w, Advance(id, [])) == World(w.table[dev := r.service], w.runners[id := Chosen(r, dev)])
  {
    StepKeepsInv(w, Advance(id, []));
    CreationIsAtomic(w.table, w.runners[id]);
    hide Inv, Chosen, DevName;
  }

  /** Listing, and creating the device if it is to be created, gives the device. */
  lemma StageCompletes(w: World, id: nat) returns (events: seq<Event>, dev: string)
    requires Inv(w) && id in w.runners && w.runners[id].phase.Listing? && NoVariantOf(w.table, w.runners[id].service)
    requires |w.table| < MAX_DEVICES
    ensures forall i :: 0 <= i < |events| ==> events[i].Advance? && events[i].id == id
    ensures var w', r := Run(w, events), w.runners[id];
            && Inv(w') && w'.runners == w.runners[id := Chosen(r, dev)] && dev in w'.table && w'.table[dev] == r.service
            && (w'.table == w.table || (dev == DevName(|w.table|) && w'.table == w.table[dev := r.service]))
            && NoVariantOf(w'.table, r.service) && |w'.table| <= |w.table| + 1
  {
    hide Inv, DevName, Step, Run, Chosen, ToLower;
    var r := w.runners[id];
    var e, d, found := ListingPicks(w, id);
    dev := d;
    RunOne(w, e);
    events := [e];
    if !found {
      var w1, create := Step(w, e), Advance(id, []);
      CreatingTakes(w1, id, dev);
      ChosenSame(r, dev, |w.table|);
      RunConcat(w, [e], [create]);
      RunOne(w1, create);
      events := [e] + [create];
      assert w.runners[id := r.(phase := Creating(dev, |w.table|))][id := Chosen(r, dev)] == w.runners[id := Chosen(r, dev)];
    }
  }

  lemma RunOne(w: World, e: Event)
    ensures Run(w, [e]) == Step(w, e)
  {
    hide Step;
    assert [e][1..] == [];
  }

  lemma ChosenSame(r: Runner, dev: string, n: nat)
    ensures Chosen(r.(phase := Creating(dev, n)), dev) == Chosen(r, dev)
  {
  }

  lemma AssignedOwn(t: Table, service: string, exclude: string, a: Assignment)
    requires Contiguous(t) && Top(t) == |t| < MAX_DEVICES && NoVariantOf(t, service) && Outcome(t, service, exclude, a)
    ensures a.HasDevice? || (a.Assigned? && a.dev == DevName(|t|))
    ensures a.HasDevice? ==> a.dev in t && t[a.dev] == service
  {
    hide ToLower, DevName, Top;
  }

  /** A run by itself ends with the devices it wants, unless the device order is used up or the name is taken in other letter case. */
  lemma RunCompletes(w: World, id: nat, service: string, wantsJournal: bool) returns (events: seq<Event>)
    requires Inv(w) && id !in w.runners && NoVariantOf(w.table, service) && |w.table| + 2 <= MAX_DEVICES
    ensures forall i :: 0 <= i < |events| ==> events[i].id == id && (events[i].Start? || events[i].Advance?)
    ensures var w' := Run(w, events);
            && Inv(w') && id in w'.runners && w'.runners[id].phase.Finished?
            && w'.runners[id].service == service && w'.runners[id].wantsJournal == wantsJournal
            && (forall i :: i in w.runners ==> i in w'.runners && w'.runners[i] == w.runners[i])
  {
    hide NoVariantOf, Inv, Chosen;
    var start := Start(id, service, wantsJournal);
    StepKeepsInv(w, start);
    var w1 := Step(w, start);
    RunOne(w, start);
    hide Step, Run;
    var first, dev := StageCompletes(w1, id);
    var w2 := Run(w1, first);
    RunConcat(w, [start], first);
    events := [start] + first;
    NamedDevice(w2, dev);
    ChosenOutcome(w1.runners[id], dev);
    if wantsJournal {
      var second, other := StageCompletes(w2, id);
      NamedDevice(Run(w2, second), other);
      ChosenOutcome(w2.runners[id], other);
      RunConcat(w, events, second);
      events := events + second;
    }
  }

  lemma NamedDevice(w: World, dev: string)
    requires Inv(w) && dev in w.table
    ensures dev != ""
  {
    var i := ContiguousNames(w.table, dev);
    assert |DevName(i)| == 10;
  }

  lemma ChosenOutcome(r: Runner, dev: string)
    requires dev != ""
    ensures var c := Chosen(r, dev);
            && c.service == r.service && c.wantsJournal == r.wantsJournal
            && (r.primary == "" ==> c.primary == dev && (if r.wantsJournal then c.phase.Listing? else c.phase.Finished?))
            && (r.primary != "" ==> c.phase.Finished?)
  {
  }

  lemma {:induction false} RunConcat(w: World, a: seq<Event>, b: seq<Event>)
    ensures Run(w, a + b) == Run(Run(w, a), b)
    decreases |a|
  {
    hide Step;
    if a == [] {
      assert a + b == b;
    } else {
      assert (a + b)[0] == a[0] && (a + b)[1..] == a[1..] + b;
      RunConcat(Step(w, a[0]), a[1..], b);
    }
  }

  // ---------------------------------------------------------------- runs that fail

  ghost predicate TriesOK(w: World) {
    forall id :: id in w.runners ==> w.runners[id].tries < 3
  }

  /** In every run, each device is tried for at most three times. */
  lemma {:induction false} TriesOfEveryRun(w: World, events: seq<Event>)
    requires TriesOK(w)
    ensures TriesOK(Run(w, events))
    decreases |events|
  {
    if events != [] {
      hide Assign;
      TriesOfEveryRun(Step(w, events[0]), events[1..]);
    }
  }

  /** When someone else was first: list again, the third time give up. A new run, and a run's second device, start from the first time. */
  lemma TakenMeanwhile(w: World, id: nat, listing: seq<Device>)
    requires id in w.runners && w.runners[id].phase.Creating? && w.runners[id].tries < 3
    ensures var r, w' := w.runners[id], Step(w, Advance(id, listing));
            if r.phase.dev in w.table then
              && w'.table == w.table
              && w'.runners[id] == if r.tries == 2 then r.(phase := Failed) else r.(phase := Listing, tries := r.tries + 1)
            else
              w'.runners[id].phase.Listing? ==> w'.runners[id].tries == 0
    ensures forall n: nat, service, wants :: n !in w.runners ==>
              Step(w, Start(n, service, wants)).runners == w.runners[n := Runner(service, wants, "", "", 0, Listing)]
  {
    hide Assign;
  }

  /** A run for a name that differs from an owner's in letter case only fails when it lists, and changes nothing. */
  lemma NameTakenFails(w: World, id: nat, listing: seq<Device>, i: nat)
    requires Inv(w) && id in w.runners && w.runners[id].phase.Listing? && w.runners[id].primary == "" && ListsDevices(w.table, listing)
    requires FirstHit(w.table, w.runners[id].service, "", i) && w.table[DevName(i)] != w.runners[id].service
    ensures Step(w, Advance(id, listing)) == w.(runners := w.runners[id := w.runners[id].(phase := Failed)])
  {
    var r := w.runners[id];
    ContiguousTop(w.table);
    AssignOutcome(w.table, listing, r.service, "");
    hide Assign, ToLower, DevName, Top;
    assert Outcome(w.table, r.service, "", ErrServiceExist);
    OutcomeIsUnique(w.table, r.service, "", Assign(listing, r.service, ""), ErrServiceExist);
  }

  /** A run that has stopped does nothing more. */
  lemma StoppedIsOver(w: World, id: nat, e: Event)
    requires id in w.runners && e.id == id && (e.Start? || e.Advance? || e.LoseReply?)
    ensures Step(Step(w, Stop(id)), e) == Step(w, Stop(id))
    ensures Step(w, Stop(id)) == w.(runners := w.runners[id := w.runners[id].(phase := Failed)])
  {
    hide Assign;
  }
}
