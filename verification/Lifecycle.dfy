/**
 One service from its first ServiceAttr record to its deletion, under any number of concurrent
 and interrupted requests: creation, scale-out, initialization, config and resource updates,
 deletion (pkg/managesvc/service.go, pkg/managesvc/server.go) on the guarded writes of
 pkg/db/awsdynamodb/dynamodb_serviceattr.go. A step is one database operation of one request.
 */
module Lifecycle {
  import opened Text
  import opened Records

  datatype Task =
    | CreateTask(attr: ServiceAttr, names: seq<string>)
    | InitTask
    | ScaleTask(names: seq<string>)
    | ConfigTask(index: nat, fileID: string, fileMD5: string)
    | ResourceTask(res: Resources)
    | DeleteTask

  /**
   Begin: nothing done. GetExisting: the attr is being created by someone else. ListMembers and
   CreateMembers: between reading the attr and replacing it. Replace: the guarded write is next.
   Remove: the members still to be deleted. RemoveAttr: the attr is deleted next.
   */
  datatype Phase =
    | Begin
    | GetExisting
    | ListMembers(base: ServiceAttr)
    | CreateMembers(base: ServiceAttr, known: set<string>, next: nat)
    | Replace(base: ServiceAttr)
    | ListForDelete
    | Remove(rest: seq<string>)
    | RemoveAttr
    | Ended

  datatype Runner = Runner(task: Task, phase: Phase)

  /** `history` is every value the attr has had; it is not read by any request. */
  datatype World = World(
    attr: Option<ServiceAttr>, members: set<string>, history: seq<ServiceAttr>, runners: map<nat, Runner>)

  /** `listing` is the order in which members are listed for deletion, `now` the clock. */
  datatype Event =
    | Start(id: nat, task: Task)
    | Advance(id: nat, listing: seq<string>, now: int)
    | Stop(id: nat)

  /** The requests check their arguments: a creation brings one config per replica and starts in CREATING at revision 0. */
  predicate ValidTask(t: Task) {
    t.CreateTask? ==>
      && t.attr.revision == 0 && t.attr.meta.serviceStatus == Creating
      && t.attr.spec.replicas == |t.names| && |t.names| > 0
  }

  /** What the request writes over the attr it read. */
  function NewAttr(t: Task, base: ServiceAttr, now: int): ServiceAttr {
    match t
    case CreateTask(_, _) => UpdateServiceStatus(base, Initializing, now)
    case InitTask => UpdateServiceStatus(base, Active, now)
    case ScaleTask(names) => UpdateServiceReplicas(base, |names|, now)
    case ConfigTask(index, fileID, fileMD5) =>
      if index < |base.spec.serviceConfigs| then UpdateServiceConfig(base, index, fileID, fileMD5, now) else base
    case ResourceTask(res) => UpdateServiceResources(base, res, now)
    case DeleteTask => UpdateServiceStatus(base, Deleting, now)
  }

  /** Where a request goes after reading an attr. */
  function AfterRead(t: Task, base: ServiceAttr): Phase {
    match t
    case CreateTask(attr, _) =>
      if !EqualServiceAttr(attr.(meta := attr.meta.(serviceStatus := base.meta.serviceStatus)), base) then Ended
      else if base.meta.serviceStatus == Creating then ListMembers(base)
      else Ended
    case InitTask => if base.meta.serviceStatus == Initializing then Replace(base) else Ended
    case ScaleTask(names) => if |names| > base.spec.replicas then ListMembers(base) else Ended
    case ConfigTask(index, _, _) => if index < |base.spec.serviceConfigs| then Replace(base) else Ended
    case ResourceTask(_) => Replace(base)
    case DeleteTask => if base.meta.serviceStatus != Deleting then Replace(base) else ListForDelete
  }

  function Names(t: Task): seq<string> {
    match t
    case CreateTask(_, names) => names
    case ScaleTask(names) => names
    case _ => []
  }

  /** The creation of missing members starts at the number of listed ones. */
  function AfterMember(t: Task, base: ServiceAttr, known: set<string>, next: nat): Phase {
    if next < |Names(t)| then CreateMembers(base, known, next) else Replace(base)
  }

  ghost predicate ListsAll(listing: seq<string>, members: set<string>) {
    (set n | n in listing) == members
  }

  ghost function Put(w: World, id: nat, p: Phase): World
    requires id in w.runners
  {
    w.(runners := w.runners[id := w.runners[id].(phase := p)])
  }

  ghost function Advanced(w: World, id: nat, listing: seq<string>, now: int): World
    requires id in w.runners
  {
    var t := w.runners[id].task;
    match w.runners[id].phase
    case Begin =>
      if t.CreateTask? then
        // the UUID of a deleted attr is not used again
        if w.attr.None? && w.history != [] then Put(w, id, Ended)
        else
          var r := CreateServiceAttr(w.attr, t.attr);
          if r.error.None? then
            Put(w.(attr := r.stored, history := w.history + [t.attr]), id, ListMembers(t.attr))
          else Put(w, id, GetExisting)
      else if w.attr.None? then Put(w, id, Ended)
      else Put(w, id, AfterRead(t, w.attr.value))
    case GetExisting =>
      if w.attr.None? then Put(w, id, Ended) else Put(w, id, AfterRead(t, w.attr.value))
    case ListMembers(base) => Put(w, id, AfterMember(t, base, w.members, |w.members|))
    case CreateMembers(base, known, next) =>
      if next < |Names(t)| && Names(t)[next] !in w.members then
        var name := Names(t)[next];
        Put(w.(members := w.members + {name}), id, AfterMember(t, base, known + {name}, next + 1))
      else Put(w, id, Ended)
    case Replace(base) =>
      var r := UpdateServiceAttr(w.attr, base, NewAttr(t, base, now));
      if r.error.None? then
        Put(w.(attr := r.stored, history := w.history + [NewAttr(t, base, now)]), id,
            if t.DeleteTask? then ListForDelete else Ended)
      else Put(w, id, Ended)
    case ListForDelete => if ListsAll(listing, w.members) then Put(w, id, Remove(listing)) else w
    case Remove(rest) =>
      if rest == [] then Put(w, id, RemoveAttr)
      else Put(w.(members := w.members - {rest[0]}), id, Remove(rest[1..]))
    case RemoveAttr => Put(w.(attr := None), id, Ended)
    case Ended => w
  }

  ghost function Step(w: World, e: Event): World {
    match e
    case Start(id, t) => if id !in w.runners && ValidTask(t) then w.(runners := w.runners[id := Runner(t, Begin)]) else w
    case Stop(id) => if id in w.runners then Put(w, id, Ended) else w
    case Advance(id, listing, now) => if id in w.runners then Advanced(w, id, listing, now) else w
  }

  ghost function Run(w: World, events: seq<Event>): World
    decreases |events|
  {
    if events == [] then w else Run(Step(w, events[0]), events[1..])
  }

  ghost const EMPTY := World(None, {}, [], map[])

  // ---------------------------------------------------------------- the invariant

  function Rank(s: Status): nat {
    match s case Creating => 0 case Initializing => 1 case Active => 2 case Deleting => 3 case Deleted => 4
  }

  /** b is the next value after a: one of its fields has changed; a status only moves forward, replicas only up. */
  ghost predicate OneUpdate(a: ServiceAttr, b: ServiceAttr) {
    || (StatusChanged(a, b, b.meta.serviceStatus) && Rank(a.meta.serviceStatus) < Rank(b.meta.serviceStatus))
    || (ReplicasChanged(a, b, b.spec.replicas) && a.spec.replicas < b.spec.replicas)
    || OneRefChanged(a, b)
    || ResourcesChanged(a, b, b.spec.resource)
  }

  ghost predicate OneRefChanged(a: ServiceAttr, b: ServiceAttr) {
    exists i: nat :: i < |b.spec.serviceConfigs|
      && ConfigChanged(a, b, i, b.spec.serviceConfigs[i].fileID, b.spec.serviceConfigs[i].fileMD5)
  }

  ghost predicate HistoryOK(h: seq<ServiceAttr>) {
    && (forall i :: 0 <= i < |h| ==> h[i].revision == i && !h[i].meta.serviceStatus.Deleted?)
    && (forall i :: 0 < i < |h| ==> OneUpdate(h[i - 1], h[i]))
    && (h != [] ==> h[0].meta.serviceStatus == Creating)
  }

  function Last(h: seq<ServiceAttr>): ServiceAttr
    requires h != []
  {
    h[|h| - 1]
  }

  /** The last value the attr had is not yet DELETING. */
  ghost predicate Alive(h: seq<ServiceAttr>) {
    h != [] && Rank(Last(h).meta.serviceStatus) < Rank(Deleting)
  }

  ghost predicate Seen(h: seq<ServiceAttr>, base: ServiceAttr) {
    0 <= base.revision < |h| && h[base.revision] == base
  }

  predicate Running(a: ServiceAttr) { a.meta.serviceStatus in {Initializing, Active} }

  /** A running service has a member record for each of its replicas. */
  ghost predicate Capacity(w: World) {
    w.attr.Some? && Running(w.attr.value) ==> |w.members| >= w.attr.value.spec.replicas
  }

  ghost predicate BaseOK(t: Task, base: ServiceAttr) {
    match t
    case CreateTask(_, names) => base.meta.serviceStatus == Creating && base.spec.replicas == |names|
    case InitTask => base.meta.serviceStatus == Initializing
    case ScaleTask(names) => |names| > base.spec.replicas
    case ConfigTask(index, _, _) => index < |base.spec.serviceConfigs|
    case ResourceTask(_) => true
    case DeleteTask => Rank(base.meta.serviceStatus) < Rank(Deleting)
  }

  predicate MakesMembers(t: Task) { t.CreateTask? || t.ScaleTask? }

  ghost predicate RunnerOK(h: seq<ServiceAttr>, members: set<string>, r: Runner) {
    && ValidTask(r.task)
    && match r.phase
       case Begin => true
       case GetExisting => r.task.CreateTask?
       case ListMembers(base) => MakesMembers(r.task) && Seen(h, base) && BaseOK(r.task, base)
       case CreateMembers(base, known, next) =>
         && MakesMembers(r.task) && Seen(h, base) && BaseOK(r.task, base)
         && (Alive(h) ==> known <= members && |known| == next)
       case Replace(base) =>
         && Seen(h, base) && BaseOK(r.task, base)
         && (Alive(h) && MakesMembers(r.task) ==> |members| >= |Names(r.task)|)
       case Ended => true
       case _ => r.task.DeleteTask? && h != [] && !Alive(h)
  }

  ghost predicate RunnersOK(h: seq<ServiceAttr>, members: set<string>, runners: map<nat, Runner>) {
    forall id :: id in runners ==> RunnerOK(h, members, runners[id])
  }

  ghost predicate Inv(w: World) {
    && HistoryOK(w.history)
    && (w.attr.Some? ==> w.history != [] && w.attr.value == Last(w.history))
    && Capacity(w)
    && RunnersOK(w.history, w.members, w.runners)
  }

  // ---------------------------------------------------------------- one write

  /** A guarded write that succeeds replaces the very value the request read. */
  lemma WriteHitsBase(w: World, base: ServiceAttr, newAttr: ServiceAttr)
    requires Inv(w) && Seen(w.history, base)
    requires UpdateServiceAttr(w.attr, base, newAttr).error.None?
    ensures w.attr == Some(base) && Last(w.history) == base && |w.history| == base.revision + 1
    ensures UpdateServiceAttr(w.attr, base, newAttr).stored == Some(newAttr)
  {
    hide EqualImmutableFields;
  }

  lemma NewAttrIsOneUpdate(t: Task, base: ServiceAttr, now: int)
    requires BaseOK(t, base) && !base.meta.serviceStatus.Deleted?
    ensures OneUpdate(base, NewAttr(t, base, now))
    ensures !NewAttr(t, base, now).meta.serviceStatus.Deleted?
    ensures NewAttr(t, base, now).meta.serviceStatus ==
              match t case CreateTask(_, _) => Initializing case InitTask => Active case DeleteTask => Deleting
                      case _ => base.meta.serviceStatus
    ensures NewAttr(t, base, now).spec.replicas == match t case ScaleTask(names) => |names| case _ => base.spec.replicas
  {
    TaskChanges(t, base, now);
    var b := NewAttr(t, base, now);
    match t
    case ConfigTask(i, fileID, fileMD5) =>
      assert ConfigChanged(base, b, i, b.spec.serviceConfigs[i].fileID, b.spec.serviceConfigs[i].fileMD5);
    case _ =>
  }

  /** What a request of each kind changes: its own field, to its own value. */
  ghost predicate OwnChange(t: Task, a: ServiceAttr, b: ServiceAttr) {
    match t
    case CreateTask(_, _) => StatusChanged(a, b, Initializing)
    case InitTask => StatusChanged(a, b, Active)
    case ScaleTask(names) => ReplicasChanged(a, b, |names|)
    case ConfigTask(index, fileID, fileMD5) => ConfigChanged(a, b, index, fileID, fileMD5)
    case ResourceTask(res) => ResourcesChanged(a, b, res)
    case DeleteTask => StatusChanged(a, b, Deleting)
  }

  lemma TaskChanges(t: Task, base: ServiceAttr, now: int)
    requires BaseOK(t, base)
    ensures OwnChange(t, base, NewAttr(t, base, now))
  {
    match t
    case CreateTask(_, _) => AttrUpdates(base, Initializing, 0, base.spec.resource, 0, "", "", now);
    case InitTask => AttrUpdates(base, Active, 0, base.spec.resource, 0, "", "", now);
    case ScaleTask(names) => AttrUpdates(base, Active, |names|, base.spec.resource, 0, "", "", now);
    case ConfigTask(i, fileID, fileMD5) => AttrUpdates(base, Active, 0, base.spec.resource, i, fileID, fileMD5, now);
    case ResourceTask(res) => AttrUpdates(base, Active, 0, res, 0, "", "", now);
    case DeleteTask => AttrUpdates(base, Deleting, 0, base.spec.resource, 0, "", "", now);
  }

  lemma UpdateMovesForward(a: ServiceAttr, b: ServiceAttr)
    requires OneUpdate(a, b)
    ensures b.revision == a.revision + 1
    ensures Rank(a.meta.serviceStatus) <= Rank(b.meta.serviceStatus)
    ensures a.spec.replicas <= b.spec.replicas
    ensures SameFixed(a, b)
    ensures |a.spec.serviceConfigs| == |b.spec.serviceConfigs|
  {
  }

  lemma HistoryGrows(h: seq<ServiceAttr>, n: ServiceAttr)
    requires HistoryOK(h) && h != [] && OneUpdate(Last(h), n) && !n.meta.serviceStatus.Deleted?
    ensures HistoryOK(h + [n]) && Last(h + [n]) == n
    ensures Alive(h + [n]) ==> Alive(h)
  {
    UpdateMovesForward(Last(h), n);
    hide OneUpdate, SameFixed;
  }

  // ---------------------------------------------------------------- the other requests

  lemma SubsetSize(a: set<string>, b: set<string>)
    requires a <= b
    ensures |a| <= |b|
  {
    assert b == a + (b - a);
  }

  /** The attr gains a value and members are only added, or the service is being deleted. */
  ghost predicate Grows(h: seq<ServiceAttr>, m: set<string>, h': seq<ServiceAttr>, m': set<string>) {
    && h <= h'
    && (Alive(h') ==> m <= m')
    && (h != [] && Alive(h') ==> Alive(h))
  }

  lemma RunnerSurvives(h: seq<ServiceAttr>, m: set<string>, h': seq<ServiceAttr>, m': set<string>, r: Runner)
    requires RunnerOK(h, m, r) && Grows(h, m, h', m')
    ensures RunnerOK(h', m', r)
  {
    hide BaseOK, ValidTask;
    match r.phase
    case Replace(base) => if Alive(h') { SubsetSize(m, m'); }
    case _ =>
  }

  lemma RunnersSurvive(h: seq<ServiceAttr>, m: set<string>, h': seq<ServiceAttr>, m': set<string>,
                       runners: map<nat, Runner>, id: nat, r: Runner)
    requires RunnersOK(h, m, runners) && Grows(h, m, h', m') && RunnerOK(h', m', r)
    ensures RunnersOK(h', m', runners[id := r])
  {
    hide RunnerOK, Grows;
    forall i | i in runners ensures RunnerOK(h', m', runners[i]) { RunnerSurvives(h, m, h', m', runners[i]); }
  }

  /** Only the phase of one request changes. */
  lemma PhaseStep(w: World, id: nat, p: Phase)
    requires Inv(w) && id in w.runners && RunnerOK(w.history, w.members, w.runners[id].(phase := p))
    ensures Inv(Put(w, id, p))
  {
    hide HistoryOK, RunnerOK;
  }

  // ---------------------------------------------------------------- one step

  lemma ReadIsSeen(w: World, t: Task)
    requires Inv(w) && w.attr.Some? && ValidTask(t)
    ensures RunnerOK(w.history, w.members, Runner(t, AfterRead(t, w.attr.value)))
  {
    ReadGivesBase(t, w.attr.value);
    hide OneUpdate, AfterRead, BaseOK;
  }

  ghost predicate ResultOfRead(t: Task, base: ServiceAttr) {
    match AfterRead(t, base)
    case ListMembers(b) => b == base && MakesMembers(t) && BaseOK(t, base)
    case Replace(b) => b == base && !MakesMembers(t) && BaseOK(t, base)
    case ListForDelete => t.DeleteTask? && base.meta.serviceStatus == Deleting
    case p => p == Ended
  }

  lemma ReadGivesBase(t: Task, base: ServiceAttr)
    requires ValidTask(t) && !base.meta.serviceStatus.Deleted?
    ensures ResultOfRead(t, base)
  {
  }

  lemma BeginStep(w: World, id: nat, listing: seq<string>, now: int)
    requires Inv(w) && id in w.runners && (w.runners[id].phase.Begin? || w.runners[id].phase.GetExisting?)
    ensures Inv(Advanced(w, id, listing, now))
  {
    var t := w.runners[id].task;
    if w.attr.Some? { ReadIsSeen(w, t); }
    hide AfterRead, OneUpdate, EqualServiceAttr;
    if t.CreateTask? && w.runners[id].phase.Begin? && w.attr.None? && w.history == [] {
      var h := w.history + [t.attr];
      assert h == [t.attr];
      RunnersSurvive(w.history, w.members, h, w.members, w.runners, id, Runner(t, ListMembers(t.attr)));
    }
  }

  lemma ReplaceStep(w: World, id: nat, listing: seq<string>, now: int)
    requires Inv(w) && id in w.runners && w.runners[id].phase.Replace?
    ensures Inv(Advanced(w, id, listing, now))
  {
    var t, base := w.runners[id].task, w.runners[id].phase.base;
    assert RunnerOK(w.history, w.members, w.runners[id]);
    var n := NewAttr(t, base, now);
    var h := w.history + [n];
    if UpdateServiceAttr(w.attr, base, n).error.None? {
      WriteHitsBase(w, base, n);
      NewAttrIsOneUpdate(t, base, now);
      HistoryGrows(w.history, n);
      hide OneUpdate, UpdateServiceAttr, NewAttr, HistoryOK;
      var p := if t.DeleteTask? then ListForDelete else Ended;
      RunnersSurvive(w.history, w.members, h, w.members, w.runners, id, Runner(t, p));
      assert Capacity(Advanced(w, id, listing, now));
    } else {
      PhaseStep(w, id, Ended);
    }
  }

  /** A member is created or deleted by one request. */
  lemma MembersStep(w: World, id: nat, members: set<string>, p: Phase)
    requires Inv(w) && id in w.runners
    requires Alive(w.history) ==> w.members <= members
    requires RunnerOK(w.history, members, w.runners[id].(phase := p))
    ensures Inv(Put(w.(members := members), id, p))
  {
    hide HistoryOK, RunnerOK;
    RunnersSurvive(w.history, w.members, w.history, members, w.runners, id, w.runners[id].(phase := p));
    if Alive(w.history) { SubsetSize(w.members, members); }
  }

  lemma CreateStep(w: World, id: nat, listing: seq<string>, now: int)
    requires Inv(w) && id in w.runners && w.runners[id].phase.CreateMembers?
    ensures Inv(Advanced(w, id, listing, now))
  {
    var r := w.runners[id];
    var t, base, known, next := r.task, r.phase.base, r.phase.known, r.phase.next;
    assert RunnerOK(w.history, w.members, r);
    hide HistoryOK, BaseOK, ValidTask;
    if next < |Names(t)| && Names(t)[next] !in w.members {
      var name := Names(t)[next];
      var members := w.members + {name};
      var p := AfterMember(t, base, known + {name}, next + 1);
      if Alive(w.history) {
        assert name !in known;
        SubsetSize(known + {name}, members);
      }
      assert RunnerOK(w.history, members, r.(phase := p));
      MembersStep(w, id, members, p);
    } else {
      PhaseStep(w, id, Ended);
    }
  }

  lemma DeleteStep(w: World, id: nat, listing: seq<string>, now: int)
    requires Inv(w) && id in w.runners
    requires w.runners[id].phase.ListForDelete? || w.runners[id].phase.Remove? || w.runners[id].phase.RemoveAttr?
    ensures Inv(Advanced(w, id, listing, now))
  {
    var r := w.runners[id];
    assert RunnerOK(w.history, w.members, r);
    hide HistoryOK, ValidTask;
    match r.phase
    case ListForDelete => if ListsAll(listing, w.members) { PhaseStep(w, id, Remove(listing)); }
    case Remove(rest) =>
      if rest == [] { PhaseStep(w, id, RemoveAttr); }
      else { MembersStep(w, id, w.members - {rest[0]}, Remove(rest[1..])); }
    case _ => PhaseStep(w, id, Ended);
  }

  lemma AdvanceKeepsInv(w: World, id: nat, listing: seq<string>, now: int)
    requires Inv(w) && id in w.runners
    ensures Inv(Advanced(w, id, listing, now))
  {
    match w.runners[id].phase
    case Begin => BeginStep(w, id, listing, now);
    case GetExisting => BeginStep(w, id, listing, now);
    case ListMembers(base) =>
      var t := w.runners[id].task;
      assert RunnerOK(w.history, w.members, w.runners[id]);
      PhaseStep(w, id, AfterMember(t, base, w.members, |w.members|));
    case CreateMembers(_, _, _) => CreateStep(w, id, listing, now);
    case Replace(_) => ReplaceStep(w, id, listing, now);
    case Ended =>
    case _ => DeleteStep(w, id, listing, now);
  }

  lemma StepKeepsInv(w: World, e: Event)
    requires Inv(w)
    ensures Inv(Step(w, e))
  {
    hide HistoryOK, ValidTask, Advanced;
    match e
    case Start(_, _) =>
    case Stop(id) => if id in w.runners { assert RunnerOK(w.history, w.members, w.runners[id]); PhaseStep(w, id, Ended); }
    case Advance(id, listing, now) => if id in w.runners { AdvanceKeepsInv(w, id, listing, now); }
  }

  // ---------------------------------------------------------------- results

  /** Every run of every mix of requests, interrupted anywhere, keeps the invariant. */
  lemma {:induction false} RunKeepsInv(w: World, events: seq<Event>)
    requires Inv(w)
    ensures Inv(Run(w, events))
    decreases |events|
  {
    if events != [] {
      hide Inv;
      StepKeepsInv(w, events[0]);
      RunKeepsInv(Step(w, events[0]), events[1..]);
    }
  }

  /** Whenever the service is INITIALIZING or ACTIVE it has a member record for each of its replicas. */
  lemma CapacityOfEveryRun(events: seq<Event>)
    ensures var w := Run(EMPTY, events);
            w.attr.Some? && Running(w.attr.value) ==> |w.members| >= w.attr.value.spec.replicas
  {
    RunKeepsInv(EMPTY, events);
  }

  lemma FixedChain(a: ServiceAttr, b: ServiceAttr, c: ServiceAttr)
    requires SameFixed(a, b) && SameFixed(b, c)
    ensures SameFixed(a, c)
  {
  }

  /** Between two values of the attr: revisions count updates, status and replicas never go back, fixed fields stay. */
  lemma {:induction false} HistoryIsMonotone(h: seq<ServiceAttr>, i: nat, j: nat)
    requires HistoryOK(h) && i <= j < |h|
    ensures h[j].revision - h[i].revision == j - i
    ensures Rank(h[i].meta.serviceStatus) <= Rank(h[j].meta.serviceStatus)
    ensures h[i].spec.replicas <= h[j].spec.replicas
    ensures SameFixed(h[i], h[j])
  {
    if i < j {
      hide OneUpdate, SameFixed;
      HistoryIsMonotone(h, i, j - 1);
      UpdateMovesForward(h[j - 1], h[j]);
      FixedChain(h[i], h[j - 1], h[j]);
    } else {
      hide OneUpdate;
    }
  }

  ghost predicate ResourcesAt(h: seq<ServiceAttr>, k: nat) {
    0 < k < |h| && ResourcesChanged(h[k - 1], h[k], h[k].spec.resource)
  }

  ghost predicate RefAt(h: seq<ServiceAttr>, k: nat) { 0 < k < |h| && OneRefChanged(h[k - 1], h[k]) }

  /** Resources differ between two values only if an update of resources is among those in between; so it is for references. */
  lemma {:induction false} ChangesHaveACause(h: seq<ServiceAttr>, i: nat, j: nat)
    requires HistoryOK(h) && i <= j < |h|
    ensures h[i].spec.resource != h[j].spec.resource ==> exists k :: i < k <= j && ResourcesAt(h, k)
    ensures h[i].spec.serviceConfigs != h[j].spec.serviceConfigs ==> exists k :: i < k <= j && RefAt(h, k)
  {
    if i < j {
      ChangesHaveACause(h, i, j - 1);
      assert OneUpdate(h[j - 1], h[j]);
      if h[j].spec.resource != h[j - 1].spec.resource { assert ResourcesAt(h, j); }
      if h[j].spec.serviceConfigs != h[j - 1].spec.serviceConfigs { assert RefAt(h, j); }
      hide OneUpdate, ResourcesChanged, OneRefChanged;
    }
  }

  /** A value that joins the history is the one before it with the field of the request that wrote it changed, to the value it asked for. */
  lemma NewValueIsTheTask(w: World, e: Event)
    requires Inv(w) && |w.history| > 0 && Step(w, e).history != w.history
    ensures e.Advance? && e.id in w.runners && w.runners[e.id].phase.Replace?
    ensures |Step(w, e).history| == |w.history| + 1 && w.history <= Step(w, e).history
    ensures OwnChange(w.runners[e.id].task, Last(w.history), Last(Step(w, e).history))
    ensures Step(w, e).attr == Some(Last(Step(w, e).history))
  {
    hide OwnChange, NewAttr, AfterRead, AfterMember, HistoryOK;
    var r := w.runners[e.id];
    assert RunnerOK(w.history, w.members, r);
    var base := r.phase.base;
    WriteHitsBase(w, base, NewAttr(r.task, base, e.now));
    TaskChanges(r.task, base, e.now);
  }

  /** The first value is what the creation asked for. */
  lemma FirstValueIsTheRequest(w: World, e: Event)
    requires Inv(w) && w.history == [] && Step(w, e).history != []
    ensures e.Advance? && e.id in w.runners && w.runners[e.id].task.CreateTask?
    ensures Step(w, e).history == [w.runners[e.id].task.attr] && Step(w, e).attr == Some(w.runners[e.id].task.attr)
  {
    hide NewAttr, AfterRead, AfterMember, HistoryOK;
    assert e.Advance? && e.id in w.runners ==> RunnerOK(w.history, w.members, w.runners[e.id]);
  }

  /** No update is lost: each value of the attr is the one just before it with one field changed. */
  lemma NoLostUpdate(events: seq<Event>)
    ensures var w := Run(EMPTY, events);
            && HistoryOK(w.history)
            && (w.attr.Some? ==> w.history != [] && w.attr.value == Last(w.history))
            && (forall i, j :: 0 <= i <= j < |w.history| ==>
                  && Rank(w.history[i].meta.serviceStatus) <= Rank(w.history[j].meta.serviceStatus)
                  && w.history[i].spec.replicas <= w.history[j].spec.replicas
                  && SameFixed(w.history[i], w.history[j]))
  {
    RunKeepsInv(EMPTY, events);
    var w := Run(EMPTY, events);
    hide HistoryOK, SameFixed;
    forall i, j | 0 <= i <= j < |w.history|
      ensures Rank(w.history[i].meta.serviceStatus) <= Rank(w.history[j].meta.serviceStatus)
      ensures w.history[i].spec.replicas <= w.history[j].spec.replicas
      ensures SameFixed(w.history[i], w.history[j])
    {
      HistoryIsMonotone(w.history, i, j);
    }
  }

  /** The history only grows: a value once stored is never rewritten or forgotten. */
  lemma StepExtendsHistory(w: World, e: Event)
    ensures w.history <= Step(w, e).history && |Step(w, e).history| <= |w.history| + 1
    ensures Step(w, e).attr != w.attr ==>
              || Step(w, e).attr.None?
              || Step(w, e).history == w.history + [Step(w, e).attr.value]
  {
    hide NewAttr, AfterRead, AfterMember, EqualServiceAttr, EqualImmutableFields;
  }

  // ---------------------------------------------------------------- the in-memory store

  /**
   MemDB.UpdateServiceAttr makes no comparison. A write that DynamoDB would accept, or reject because
   the record has moved on, is the same in both stores exactly when the record has not moved on.
   */
  lemma MemDBAgrees(stored: ServiceAttr, base: ServiceAttr, n: ServiceAttr)
    requires base.revision + 1 == n.revision && EqualImmutableFields(base, n)
    ensures UpdateServiceAttr(Some(stored), base, n) == MemUpdateServiceAttr(Some(stored), base, n)
            <==> stored.revision == base.revision
  {
    hide EqualImmutableFields;
  }

  /** On MemDB a slow creation undoes a deletion: DELETING is followed by INITIALIZING. */
  lemma MemDBLosesUpdates(a: ServiceAttr, now: int)
    requires a.meta.serviceStatus == Creating
    ensures var deleted := MemUpdateServiceAttr(Some(a), a, UpdateServiceStatus(a, Deleting, now)).stored;
            var created := MemUpdateServiceAttr(deleted, a, UpdateServiceStatus(a, Initializing, now)).stored;
            && deleted.Some? && deleted.value.meta.serviceStatus == Deleting
            && created.Some? && created.value.meta.serviceStatus == Initializing
            && created.value.revision == deleted.value.revision
  {
  }

  // ---------------------------------------------------------------- requests that nobody disturbs

  ghost predicate OnlyOf(id: nat, events: seq<Event>) {
    forall i :: 0 <= i < |events| ==> events[i].id == id && !events[i].Stop?
  }

  lemma {:induction false} RunConcat(w: World, a: seq<Event>, b: seq<Event>)
    ensures Run(w, a + b) == Run(Run(w, a), b)
    decreases |a|
  {
    hide Step;
    if a == [] {
      assert a + b == b;
    } else {
      assert (a + b)[0] == a[0] && (a + b)[1..] == a[1..] + b;
      RunConcat(Step(w, a[0]), a[1..], b);
    }
  }

  lemma RunOne(w: World, e: Event)
    ensures Run(w, [e]) == Step(w, e)
  {
    hide Step;
    assert [e][1..] == [];
  }

  /** The events so far and one more. */
  lemma OneMoreStep(w: World, events: seq<Event>, e: Event, id: nat)
    requires OnlyOf(id, events) && e.id == id && !e.Stop?
    ensures OnlyOf(id, events + [e]) && Run(w, events + [e]) == Step(Run(w, events), e)
  {
    hide Step, Run;
    RunConcat(w, events, [e]);
    RunOne(Run(w, events), e);
  }

  ghost predicate DistinctNames(names: seq<string>) { forall i, j :: 0 <= i < j < |names| ==> names[i] != names[j] }

  /** At Run(w, events) the request is about to make member number next; the others are there. */
  ghost predicate MakingAt(w: World, id: nat, base: ServiceAttr, next: nat) {
    && id in w.runners && next < |Names(w.runners[id].task)|
    && w.runners[id].phase.CreateMembers? && w.runners[id].phase.base == base && w.runners[id].phase.next == next
    && w.members == set k | 0 <= k < next :: Names(w.runners[id].task)[k]
  }

  lemma MakesOne(w: World, id: nat, base: ServiceAttr, next: nat)
    requires MakingAt(w, id, base, next) && DistinctNames(Names(w.runners[id].task))
    ensures var w', t := Step(w, Advance(id, [], 0)), w.runners[id].task;
            && id in w'.runners && w'.runners[id].task == t && w'.attr == w.attr && w'.history == w.history
            && w'.members == (set k | 0 <= k < next + 1 :: Names(t)[k])
            && (if next + 1 < |Names(t)| then MakingAt(w', id, base, next + 1) else w'.runners[id].phase == Replace(base))
  {
    var names := Names(w.runners[id].task);
    assert names[next] !in w.members;
  }

  lemma {:induction false} MakesAll(w: World, id: nat, base: ServiceAttr, next: nat) returns (events: seq<Event>)
    requires MakingAt(w, id, base, next) && DistinctNames(Names(w.runners[id].task))
    ensures OnlyOf(id, events)
    ensures var w', t := Run(w, events), w.runners[id].task;
            && id in w'.runners && w'.runners[id] == Runner(t, Replace(base)) && w'.attr == w.attr && w'.history == w.history
            && w'.members == (set n | n in Names(t))
    decreases |Names(w.runners[id].task)| - next
  {
    var t := w.runners[id].task;
    var e := Advance(id, [], 0);
    MakesOne(w, id, base, next);
    RunOne(w, e);
    if next + 1 < |Names(t)| {
      hide Step, MakingAt;
      var more := MakesAll(Step(w, e), id, base, next + 1);
      RunConcat(w, [e], more);
      events := [e] + more;
    } else {
      assert (set k | 0 <= k < next + 1 :: Names(t)[k]) == (set n | n in Names(t));
      events := [e];
    }
  }

  /** A creation by itself comes to its members and to INITIALIZING. */
  lemma CreationCompletes(w: World, id: nat, attr: ServiceAttr, names: seq<string>, now: int) returns (events: seq<Event>)
    requires w.attr.None? && w.history == [] && w.members == {} && id !in w.runners
    requires ValidTask(CreateTask(attr, names)) && DistinctNames(names)
    ensures OnlyOf(id, events)
    ensures var w' := Run(w, events);
            && w'.attr.Some? && StatusChanged(attr, w'.attr.value, Initializing) && w'.members == (set n | n in names)
            && w'.history == [attr, w'.attr.value]
  {
    var t := CreateTask(attr, names);
    AttrUpdates(attr, Initializing, 0, attr.spec.resource, 0, "", "", now);
    var begin := [Start(id, t), Advance(id, [], 0), Advance(id, [], 0)];
    var w1 := Step(w, begin[0]);
    var w2 := Step(w1, begin[1]);
    var w3 := Step(w2, begin[2]);
    assert w2.runners[id] == Runner(t, ListMembers(attr)) && w2.attr == Some(attr) && w2.history == [attr] && w2.members == {};
    assert MakingAt(w3, id, attr, 0) && w3.attr == w2.attr && w3.history == w2.history && w3.runners[id].task == t;
    assert Run(w, begin) == w3 by { ThreeSteps(w, begin[0], begin[1], begin[2]); }
    var making := MakesAll(w3, id, attr, 0);
    var w4 := Run(w3, making);
    var e := Advance(id, [], now);
    RunConcat(w, begin, making);
    assert OnlyOf(id, begin + making);
    OneMoreStep(w, begin + making, e, id);
    assert Step(w4, e).history == [attr] + [NewAttr(t, attr, now)];
    events := begin + making + [e];
  }

  lemma ThreeSteps(w: World, a: Event, b: Event, c: Event)
    ensures Run(w, [a, b, c]) == Step(Step(Step(w, a), b), c)
  {
    hide Step, Run;
    TwoSteps(w, a, b);
    RunConcat(w, [a, b], [c]);
    RunOne(Run(w, [a, b]), c);
    assert [a, b] + [c] == [a, b, c];
  }

  lemma TwoSteps(w: World, a: Event, b: Event)
    ensures Run(w, [a, b]) == Step(Step(w, a), b)
  {
    hide Step, Run;
    RunConcat(w, [a], [b]);
    RunOne(w, a);
    RunOne(Step(w, a), b);
    assert [a] + [b] == [a, b];
  }

  lemma {:induction false} RemovesAll(w: World, id: nat, rest: seq<string>) returns (events: seq<Event>)
    requires id in w.runners && w.runners[id] == Runner(DeleteTask, Remove(rest))
    ensures OnlyOf(id, events)
    ensures var w' := Run(w, events);
            && w'.attr.None? && w'.history == w.history && w'.members == w.members - (set n | n in rest)
    decreases |rest|
  {
    var e := Advance(id, [], 0);
    var w1 := Step(w, e);
    if rest == [] {
      assert w1.runners[id] == Runner(DeleteTask, RemoveAttr);
      events := [e, e];
      TwoSteps(w, e, e);
    } else {
      assert w1.runners[id] == Runner(DeleteTask, Remove(rest[1..]));
      RunOne(w, e);
      var more := RemovesAll(w1, id, rest[1..]);
      RunConcat(w, [e], more);
      assert (set n | n in rest) == {rest[0]} + (set n | n in rest[1..]);
      events := [e] + more;
    }
  }

  /** A deletion by itself, of a service in any state, takes the members and then the attr. */
  lemma DeletionCompletes(w: World, id: nat, listing: seq<string>, now: int) returns (events: seq<Event>)
    requires w.attr.Some? && id !in w.runners && ListsAll(listing, w.members)
    ensures OnlyOf(id, events)
    ensures var w', a := Run(w, events), w.attr.value;
            && w'.attr.None? && w'.members == {}
            && if a.meta.serviceStatus == Deleting then w'.history == w.history
               else |w'.history| == |w.history| + 1 && w.history <= w'.history && StatusChanged(a, Last(w'.history), Deleting)
  {
    var a := w.attr.value;
    AttrUpdates(a, Deleting, 0, a.spec.resource, 0, "", "", now);
    events := [Start(id, DeleteTask), Advance(id, [], 0)];
    var w1 := Step(Step(w, events[0]), events[1]);
    TwoSteps(w, events[0], events[1]);
    if a.meta.serviceStatus != Deleting {
      assert w1.runners[id] == Runner(DeleteTask, Replace(a));
      var e := Advance(id, [], now);
      OneMoreStep(w, events, e, id);
      events := events + [e];
      w1 := Step(w1, e);
    }
    assert w1.runners[id] == Runner(DeleteTask, ListForDelete) && w1.members == w.members;
    var e := Advance(id, listing, 0);
    OneMoreStep(w, events, e, id);
    events := events + [e];
    var w2 := Step(w1, e);
    assert w2.runners[id] == Runner(DeleteTask, Remove(listing)) && w2.members == w.members;
    var more := RemovesAll(w2, id, listing);
    RunConcat(w, events, more);
    events := events + more;
  }

  /** An initialization, a config update or a resource update by itself takes effect. */
  lemma UpdateCompletes(w: World, id: nat, t: Task, now: int) returns (events: seq<Event>)
    requires w.attr.Some? && id !in w.runners && (t.InitTask? || t.ConfigTask? || t.ResourceTask?) && BaseOK(t, w.attr.value)
    ensures OnlyOf(id, events)
    ensures var w' := Run(w, events);
            && w'.attr.Some? && OwnChange(t, w.attr.value, w'.attr.value) && w'.history == w.history + [w'.attr.value]
            && w'.members == w.members
  {
    var a := w.attr.value;
    TaskChanges(t, a, now);
    events := [Start(id, t), Advance(id, [], 0), Advance(id, [], now)];
    var w2 := Step(Step(w, events[0]), events[1]);
    assert w2.runners[id] == Runner(t, Replace(a)) && w2.attr == w.attr && w2.history == w.history;
    ThreeSteps(w, events[0], events[1], events[2]);
    hide OwnChange;
    assert Step(w2, events[2]).attr == Some(NewAttr(t, a, now));
  }

  /** A scale-out, or a creation that goes on where another one stopped, by itself makes the members that are missing. */
  lemma MembersComplete(w: World, id: nat, t: Task, now: int) returns (events: seq<Event>)
    requires w.attr.Some? && id !in w.runners && MakesMembers(t) && ValidTask(t) && BaseOK(t, w.attr.value) && DistinctNames(Names(t))
    requires t.CreateTask? ==> EqualServiceAttr(t.attr, w.attr.value)
    requires |w.members| < |Names(t)| && w.members == set k | 0 <= k < |w.members| :: Names(t)[k]
    ensures OnlyOf(id, events)
    ensures var w' := Run(w, events);
            && w'.attr.Some? && OwnChange(t, w.attr.value, w'.attr.value) && w'.history == w.history + [w'.attr.value]
            && w'.members == (set n | n in Names(t))
  {
    var a := w.attr.value;
    TaskChanges(t, a, now);
    var e := Advance(id, [], 0);
    events := [Start(id, t), e];
    var w1 := Step(Step(w, Start(id, t)), e);
    TwoSteps(w, Start(id, t), e);
    if t.CreateTask? {
      OneMoreStep(w, events, e, id);
      events := events + [e];
      w1 := Step(w1, e);
    }
    assert w1.runners[id] == Runner(t, ListMembers(a)) && w1.attr == w.attr && w1.history == w.history && w1.members == w.members;
    OneMoreStep(w, events, e, id);
    events := events + [e];
    var w2 := Step(w1, e);
    assert MakingAt(w2, id, a, |w.members|) && w2.attr == w.attr && w2.history == w.history && w2.runners[id].task == t;
    var making := MakesAll(w2, id, a, |w.members|);
    RunConcat(w, events, making);
    events := events + making;
    var w3 := Run(w, events);
    OneMoreStep(w, events, Advance(id, [], now), id);
    events := events + [Advance(id, [], now)];
    hide OwnChange, Run, MakingAt;
    assert Step(w3, Advance(id, [], now)).attr == Some(NewAttr(t, a, now));
  }

  /** A request that has stopped does nothing more. */
  lemma StoppedIsOver(w: World, id: nat, e: Event)
    requires id in w.runners && (e.Start? || e.Advance?) && e.id == id
    ensures Step(Step(w, Stop(id)), e) == Step(w, Stop(id))
    ensures Step(w, Stop(id)) == w.(runners := w.runners[id := Runner(w.runners[id].task, Ended)])
  {
  }
}
