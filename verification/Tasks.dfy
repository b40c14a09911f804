/**
 The tables of background tasks (pkg/managesvc/servertask.go and
 catalog/manageservice/catalogserviceinit.go): a map that is changed under a lock, and one goroutine
 for each task it holds. The steps that hold the lock are the atomic ones.
 */
module Tasks {
  import opened Text

  const MAX_TASK_COUNTS: nat := 100

  // ---------------------------------------------------------------- the steps on values

  /** tasks: service to goroutine; running: the goroutines that have not removed their task, and their service. */
  datatype World = World(tasks: map<string, nat>, running: map<nat, string>)

  /** A goroutine is started at most once; Finish is its taskDone. */
  datatype Event = Add(service: string, id: nat) | Finish(id: nat)

  /** There is no task of the service yet, and the table is not too large. */
  predicate Accepts(w: World, service: string) {
    service !in w.tasks && |w.tasks| <= MAX_TASK_COUNTS
  }

  function Step(w: World, e: Event): World {
    match e
    case Add(service, id) =>
      if id in w.running || !Accepts(w, service) then w
      else World(w.tasks[service := id], w.running[id := service])
    case Finish(id) =>
      if id !in w.running then w else World(w.tasks - {w.running[id]}, w.running - {id})
  }

  function Run(w: World, events: seq<Event>): World
    decreases |events|
  {
    if events == [] then w else Run(Step(w, events[0]), events[1..])
  }

  const EMPTY := World(map[], map[])

  /** Entries and running goroutines correspond one to one. */
  ghost predicate Mirrors(w: World) {
    && (forall s :: s in w.tasks ==> w.tasks[s] in w.running && w.running[w.tasks[s]] == s)
    && (forall id :: id in w.running ==> w.running[id] in w.tasks && w.tasks[w.running[id]] == id)
  }

  ghost predicate Inv(w: World) { Mirrors(w) && |w.tasks| <= MAX_TASK_COUNTS + 1 }

  lemma AddKeepsInv(w: World, service: string, id: nat)
    requires Inv(w) && id !in w.running && Accepts(w, service)
    ensures Inv(World(w.tasks[service := id], w.running[id := service]))
  {
  }

  lemma FinishKeepsInv(w: World, id: nat)
    requires Inv(w) && id in w.running
    ensures Inv(World(w.tasks - {w.running[id]}, w.running - {id}))
  {
    var s := w.running[id];
    var w' := World(w.tasks - {s}, w.running - {id});
    assert w.tasks.Keys == w'.tasks.Keys + {s};
    assert |w'.tasks.Keys| < |w.tasks.Keys|;
    forall i | i in w'.running ensures w'.running[i] in w'.tasks && w'.tasks[w'.running[i]] == i {
      assert w.running[i] != s;
    }
  }

  lemma StepKeepsInv(w: World, e: Event)
    requires Inv(w)
    ensures Inv(Step(w, e))
  {
    hide Inv, Accepts;
    match e
    case Add(service, id) => if id !in w.running && Accepts(w, service) { AddKeepsInv(w, service, id); }
    case Finish(id) => if id in w.running { FinishKeepsInv(w, id); }
  }

  lemma AddStep(w: World, service: string, id: nat)
    requires id !in w.running
    ensures Step(w, Add(service, id)) == if Accepts(w, service) then World(w.tasks[service := id], w.running[id := service]) else w
  {
  }

  lemma FinishStep(w: World, id: nat)
    requires Inv(w) && id in w.running
    ensures w.running[id] in w.tasks && w.tasks[w.running[id]] == id
    ensures Step(w, Finish(id)) == World(w.tasks - {w.running[id]}, w.running - {id})
  {
  }

  lemma {:induction false} RunKeepsInv(w: World, events: seq<Event>)
    requires Inv(w)
    ensures Inv(Run(w, events))
    decreases |events|
  {
    if events != [] {
      hide Inv;
      StepKeepsInv(w, events[0]);
      RunKeepsInv(Step(w, events[0]), events[1..]);
    }
  }

  /** In every interleaving the table mirrors the goroutines and has at most 101 entries. */
  lemma TableMirrorsGoroutines(events: seq<Event>)
    ensures var w := Run(EMPTY, events);
            Mirrors(w) && |w.tasks| == |w.running| && |w.tasks| <= MAX_TASK_COUNTS + 1
  {
    RunKeepsInv(EMPTY, events);
    SameSize(Run(EMPTY, events));
  }

  lemma {:induction false} SameSize(w: World)
    requires Mirrors(w)
    ensures |w.tasks| == |w.running|
    decreases |w.tasks|
  {
    if w.tasks == map[] {
      assert forall id :: id !in w.running;
      assert w.running == map[];
    } else {
      var s :| s in w.tasks;
      var id := w.tasks[s];
      var rest := World(w.tasks - {s}, w.running - {id});
      assert w.tasks.Keys == rest.tasks.Keys + {s} && w.running.Keys == rest.running.Keys + {id};
      assert |w.tasks.Keys| == |rest.tasks.Keys| + 1 && |w.running.Keys| == |rest.running.Keys| + 1;
      SameSize(rest);
    }
  }

  /** When a goroutine finishes it removes its own entry and no other. */
  lemma FinishRemovesOwn(w: World, id: nat)
    requires Inv(w) && id in w.running
    ensures w.running[id] in w.tasks && w.tasks[w.running[id]] == id
    ensures forall s :: s in Step(w, Finish(id)).tasks <==> s in w.tasks && w.tasks[s] != id
  {
  }

  /** The bound is reached: 101 services each get a task. */
  lemma {:induction false} BoundIsReached(n: nat) returns (events: seq<Event>)
    requires n <= MAX_TASK_COUNTS + 1
    ensures var w := Run(EMPTY, events);
            |w.tasks| == n && (forall id: nat :: id >= n ==> id !in w.running) && forall i: nat :: i >= n ==> FormatNat(i) !in w.tasks
  {
    hide FormatNat;
    if n == 0 {
      events := [];
    } else {
      var before := BoundIsReached(n - 1);
      var w := Run(EMPTY, before);
      events := before + [Add(FormatNat(n - 1), n - 1)];
      RunSnoc(EMPTY, before, Add(FormatNat(n - 1), n - 1));
      forall i: nat | i >= n ensures FormatNat(i) != FormatNat(n - 1) {
        if FormatNat(i) == FormatNat(n - 1) { FormatNatInjective(i, n - 1); }
      }
    }
  }

  lemma {:induction false} RunSnoc(w: World, events: seq<Event>, e: Event)
    ensures Run(w, events + [e]) == Step(Run(w, events), e)
    decreases |events|
  {
    if events == [] {
      assert [e][1..] == [];
    } else {
      RunSnoc(Step(w, events[0]), events[1..], e);
      assert (events + [e])[1..] == events[1..] + [e];
    }
  }

  // ---------------------------------------------------------------- the table

  /** A task; its goroutine and its entry share it. */
  class Task {
    const service: string
    const id: nat
    var statusMessage: string
    var complete: bool

    constructor (service: string, id: nat)
      ensures this.service == service && this.id == id && !complete
    {
      this.service, this.id, statusMessage, complete := service, id, "", false;
    }
  }

  class TaskService {
    var tasks: map<string, Task>
    ghost var running: map<nat, string>

    ghost function Contents(): World
      reads this
    {
      World(map s | s in tasks :: tasks[s].id, running)
    }

    ghost predicate Valid()
      reads this
    {
      Inv(Contents()) && forall s :: s in tasks ==> tasks[s].service == s
    }

    constructor ()
      ensures Valid() && Contents() == EMPTY
    {
      tasks, running := map[], map[];
    }

    /** Whether the service has a task, and what its goroutine last said about it. */
    method HasTask(service: string) returns (has: bool, statusMsg: string, complete: bool)
      ensures has <==> service in tasks
      ensures has ==> statusMsg == tasks[service].statusMessage && complete == tasks[service].complete
      ensures !has ==> statusMsg == "" && !complete
    {
      has := service in tasks;
      statusMsg, complete := "", false;
      if has {
        statusMsg := tasks[service].statusMessage;
        complete := tasks[service].complete;
      }
    }

    /** The task is stored and its goroutine started; a service that has one keeps it. */
    method AddTask(task: Task) returns (ok: bool)
      requires Valid() && task.id !in running
      modifies this, task
      ensures Valid() && Contents() == Step(old(Contents()), Add(task.service, task.id))
      ensures ok <==> task.service in old(tasks) || |old(tasks)| <= MAX_TASK_COUNTS
      ensures task.service in tasks <==> ok
      ensures Accepts(old(Contents()), task.service) ==>
                && tasks == old(tasks)[task.service := task]
                && task.statusMessage == "start rolling restart service" && task.complete == old(task.complete)
      ensures !Accepts(old(Contents()), task.service) ==> tasks == old(tasks) && unchanged(task)
    {
      hide Inv, Step;
      SizeOfContents();
      ghost var w := Contents();
      AddStep(w, task.service, task.id);
      assert Accepts(w, task.service) <==> task.service !in tasks && |tasks| <= MAX_TASK_COUNTS;
      hide Accepts;
      if task.service in tasks {
        return true;
      }
      if |tasks| > MAX_TASK_COUNTS {
        return false;
      }
      StepKeepsInv(w, Add(task.service, task.id));
      task.statusMessage := "start rolling restart service";
      tasks := tasks[task.service := task];
      running := running[task.id := task.service];
      assert Contents().tasks == w.tasks[task.service := task.id];
      ok := true;
    }

    lemma SizeOfContents()
      ensures |Contents().tasks| == |tasks|
    {
      assert Contents().tasks.Keys == tasks.Keys;
      assert |Contents().tasks| == |Contents().tasks.Keys| && |tasks| == |tasks.Keys|;
    }

    /** The goroutine's work: its entry tells how it went until the entry is removed. */
    method RunTask(task: Task, err: bool)
      requires Valid() && task.service in tasks && tasks[task.service] == task
      modifies task
      ensures Valid() && task.complete && task.statusMessage == (if err then "RollingRestartService error" else "RollingRestartService complete")
      ensures tasks[task.service] == task
    {
      task.statusMessage := if err then "RollingRestartService error" else "RollingRestartService complete";
      task.complete := true;
    }

    /** The end of a goroutine: its own task is removed. */
    method TaskDone(task: Task)
      requires Valid() && task.id in running && running[task.id] == task.service
      modifies this
      ensures Valid() && Contents() == Step(old(Contents()), Finish(task.id))
      ensures task.service in old(tasks) && old(tasks)[task.service].id == task.id
      ensures tasks == old(tasks) - {task.service}
    {
      ghost var w := Contents();
      StepKeepsInv(w, Finish(task.id));
      FinishStep(w, task.id);
      hide Inv, Step;
      tasks := tasks - {task.service};
      running := running - {task.id};
      assert Contents().tasks == w.tasks - {task.service};
    }
  }
}
