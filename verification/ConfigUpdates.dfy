/**
 Copy-on-write updates of the config files of one service: updateServiceConfigFile and
 updateMemberConfigFile (pkg/managesvc/server.go), createConfigFile (pkg/managesvc/utils.go) and
 checkAndCreateConfigFile (pkg/managesvc/service.go). An owner is the service attr or a member; it
 refers to files by ID and checksum. A step is one database operation of one request; a reply that is
 lost is an Advance followed by a Stop.
 */
module ConfigUpdates {
  import opened Text
  import ConfigFileIDs

  /** Stands for the ID GenConfigFileID(prefix, md5(fileName), version): see KeysStandForIDs. */
  datatype FileKey = FileKey(prefix: string, fileName: string, version: nat)

  /** The checksum stands for the content, as it does in EqualConfigFile with skipContent. */
  datatype File = File(revision: int, fileName: string, fileMode: int, md5: string)

  datatype Ref = Ref(fileName: string, key: FileKey, md5: string)

  datatype Owner = Owner(revision: int, configs: seq<Ref>)

  datatype Content = Content(fileName: string, fileMode: int, md5: string)

  datatype Request =
    | Update(prefix: string, fileName: string, md5: string)
    | Create(prefix: string, contents: seq<Content>)

  /**
   An update reads the owner and the old file, creates the next version (or reads it back), swaps the
   reference and deletes the old file. A creation makes the initial files (a file that does not match
   is deleted and made again) and then the owner.
   */
  datatype Phase =
    | Begin
    | GetOld(owner: Owner, index: nat)
    | CreateNew(owner: Owner, index: nat, prev: File)
    | GetNew(owner: Owner, index: nat, prev: File)
    | Swap(owner: Owner, index: nat)
    | DeleteOld(key: FileKey)
    | CreateInit(made: seq<Ref>)
    | GetInit(made: seq<Ref>)
    | DeleteInit(made: seq<Ref>)
    | RecreateInit(made: seq<Ref>)
    | GetRecreated(made: seq<Ref>)
    | CreateOwner(made: seq<Ref>)
    | Ended

  datatype Runner = Runner(request: Request, phase: Phase)

  datatype World = World(owners: map<string, Owner>, files: map<FileKey, File>, runners: map<nat, Runner>)

  /** Touch is any other guarded update of an owner: it counts the revision up and keeps the references. */
  datatype Event = Start(id: nat, request: Request) | Advance(id: nat) | Stop(id: nat) | Touch(prefix: string)

  /** The first config with the file name. */
  function IndexOf(configs: seq<Ref>, fileName: string): Option<nat>
    decreases |configs|
  {
    if configs == [] then None
    else if configs[0].fileName == fileName then Some(0)
    else match IndexOf(configs[1..], fileName) case None => None case Some(i) => Some(i + 1)
  }

  function NextKey(r: Request, owner: Owner, index: nat): FileKey
    requires r.Update? && index < |owner.configs|
  {
    FileKey(r.prefix, r.fileName, owner.configs[index].key.version + 1)
  }

  function NewFile(r: Request, prev: File): File
    requires r.Update?
  {
    prev.(revision := prev.revision + 1, md5 := r.md5)
  }

  /** UpdateServiceConfig and UpdateServiceMemberConfigs. */
  function Swapped(r: Request, owner: Owner, index: nat): Owner
    requires r.Update? && index < |owner.configs|
  {
    Owner(owner.revision + 1,
          owner.configs[index := owner.configs[index].(key := NextKey(r, owner, index), md5 := r.md5)])
  }

  function InitFile(c: Content): File { File(0, c.fileName, c.fileMode, c.md5) }

  function InitKey(prefix: string, c: Content): FileKey { FileKey(prefix, c.fileName, 0) }

  function InitRef(prefix: string, c: Content): Ref { Ref(c.fileName, InitKey(prefix, c), c.md5) }

  function Put(w: World, id: nat, p: Phase): World
    requires id in w.runners
  {
    w.(runners := w.runners[id := w.runners[id].(phase := p)])
  }

  /** The next operation of an update. */
  function Updated(w: World, id: nat): World
    requires id in w.runners && w.runners[id].request.Update?
  {
    var r := w.runners[id].request;
    match w.runners[id].phase
    case Begin =>
      if r.prefix !in w.owners then Put(w, id, Ended)
      else (match IndexOf(w.owners[r.prefix].configs, r.fileName)
            case None => Put(w, id, Ended)
            case Some(i) => Put(w, id, GetOld(w.owners[r.prefix], i)))
    case GetOld(owner, i) =>
      if i < |owner.configs| && owner.configs[i].key in w.files
      then Put(w, id, CreateNew(owner, i, w.files[owner.configs[i].key]))
      else Put(w, id, Ended)
    case CreateNew(owner, i, prev) =>
      if i >= |owner.configs| then Put(w, id, Ended)
      else if NextKey(r, owner, i) in w.files then Put(w, id, GetNew(owner, i, prev))
      else Put(w.(files := w.files[NextKey(r, owner, i) := NewFile(r, prev)]), id, Swap(owner, i))
    case GetNew(owner, i, prev) =>
      if i < |owner.configs| && NextKey(r, owner, i) in w.files && w.files[NextKey(r, owner, i)] == NewFile(r, prev)
      then Put(w, id, Swap(owner, i))
      else Put(w, id, Ended)
    case Swap(owner, i) =>
      if i < |owner.configs| && r.prefix in w.owners && w.owners[r.prefix].revision == owner.revision
      then Put(w.(owners := w.owners[r.prefix := Swapped(r, owner, i)]), id, DeleteOld(owner.configs[i].key))
      else Put(w, id, Ended)
    case DeleteOld(key) => Put(w.(files := w.files - {key}), id, Ended)
    case _ => w
  }

  function NextInit(r: Request, made: seq<Ref>): Phase
    requires r.Create?
  {
    if |made| < |r.contents| then CreateInit(made) else CreateOwner(made)
  }

  /** createConfigFile for content number |made|; a file that exists is read back next. */
  function CreatedInit(w: World, id: nat, made: seq<Ref>, readBack: Phase): World
    requires id in w.runners && w.runners[id].request.Create?
  {
    var r := w.runners[id].request;
    if |made| >= |r.contents| then Put(w, id, Ended)
    else
      var c := r.contents[|made|];
      if InitKey(r.prefix, c) in w.files then Put(w, id, readBack)
      else Put(w.(files := w.files[InitKey(r.prefix, c) := InitFile(c)]), id, NextInit(r, made + [InitRef(r.prefix, c)]))
  }

  /** The file that was there is read back: it matches, or the request goes on to `mismatch`. */
  function ReadInit(w: World, id: nat, made: seq<Ref>, mismatch: Phase): World
    requires id in w.runners && w.runners[id].request.Create?
  {
    var r := w.runners[id].request;
    if |made| >= |r.contents| || InitKey(r.prefix, r.contents[|made|]) !in w.files then Put(w, id, Ended)
    else
      var c := r.contents[|made|];
      if w.files[InitKey(r.prefix, c)] == InitFile(c) then Put(w, id, NextInit(r, made + [InitRef(r.prefix, c)]))
      else Put(w, id, mismatch)
  }

  /** The next operation of a creation. */
  function Created(w: World, id: nat): World
    requires id in w.runners && w.runners[id].request.Create?
  {
    var r := w.runners[id].request;
    match w.runners[id].phase
    case Begin => Put(w, id, NextInit(r, []))
    case CreateInit(made) => CreatedInit(w, id, made, GetInit(made))
    case GetInit(made) => ReadInit(w, id, made, DeleteInit(made))
    case DeleteInit(made) =>
      if |made| < |r.contents| && InitKey(r.prefix, r.contents[|made|]) in w.files
      then Put(w.(files := w.files - {InitKey(r.prefix, r.contents[|made|])}), id, RecreateInit(made))
      else Put(w, id, Ended)
    case RecreateInit(made) => CreatedInit(w, id, made, GetRecreated(made))
    case GetRecreated(made) => ReadInit(w, id, made, Ended)
    case CreateOwner(made) =>
      if r.prefix in w.owners then Put(w, id, Ended)
      else Put(w.(owners := w.owners[r.prefix := Owner(0, made)]), id, Ended)
    case _ => w
  }

  function Step(w: World, e: Event): World {
    match e
    case Start(id, r) => if id in w.runners then w else w.(runners := w.runners[id := Runner(r, Begin)])
    case Stop(id) => if id in w.runners then Put(w, id, Ended) else w
    case Touch(prefix) =>
      if prefix !in w.owners then w
      else w.(owners := w.owners[prefix := w.owners[prefix].(revision := w.owners[prefix].revision + 1)])
    case Advance(id) =>
      if id !in w.runners then w
      else if w.runners[id].request.Update? then Updated(w, id)
      else Created(w, id)
  }

  function Run(w: World, events: seq<Event>): World
    decreases |events|
  {
    if events == [] then w else Run(Step(w, events[0]), events[1..])
  }

  const EMPTY := World(map[], map[], map[])

  // ---------------------------------------------------------------- the invariant

  /** The contents of each owner's creation; the file names of one owner are distinct. */
  type Initial = map<string, seq<Content>>

  predicate Distinct(init: Initial) {
    forall p, i, j :: p in init && 0 <= i < j < |init[p]| ==> init[p][i].fileName != init[p][j].fileName
  }

  /** Creations of one owner, first or retried, bring the same contents. */
  predicate SameContent(init: Initial, e: Event) {
    e.Start? && e.request.Create? ==> e.request.prefix in init && e.request.contents == init[e.request.prefix]
  }

  /** Every reference has a stored file with the checksum it refers to. */
  ghost predicate RefsStored(owners: map<string, Owner>, files: map<FileKey, File>) {
    forall p, i :: p in owners && 0 <= i < |owners[p].configs| ==>
      var ref := owners[p].configs[i]; ref.key in files && files[ref.key].md5 == ref.md5
  }

  ghost predicate OwnerOK(init: Initial, p: string, o: Owner) {
    && p in init && |o.configs| == |init[p]|
    && forall i :: 0 <= i < |o.configs| ==>
         && o.configs[i].fileName == init[p][i].fileName
         && o.configs[i].key.prefix == p && o.configs[i].key.fileName == o.configs[i].fileName
  }

  ghost predicate OwnersOK(init: Initial, owners: map<string, Owner>) {
    forall p :: p in owners ==> OwnerOK(init, p, owners[p])
  }

  ghost predicate FilesOK(init: Initial, files: map<FileKey, File>) {
    && (forall k :: k in files ==> files[k].fileName == k.fileName)
    && (forall p, i :: p in init && 0 <= i < |init[p]| && InitKey(p, init[p][i]) in files ==>
          files[InitKey(p, init[p][i])] == InitFile(init[p][i]))
  }

  /** Every reference to the file of this key has moved to a later version. */
  ghost predicate Older(owners: map<string, Owner>, key: FileKey) {
    && key.prefix in owners
    && forall i :: 0 <= i < |owners[key.prefix].configs| ==>
         owners[key.prefix].configs[i].fileName == key.fileName ==> key.version < owners[key.prefix].configs[i].key.version
  }

  /** What was read of the owner: it is what is stored, or the stored one has a larger revision. */
  ghost predicate SnapshotOK(init: Initial, owners: map<string, Owner>, r: Request, snap: Owner, index: nat)
    requires r.Update?
  {
    && r.prefix in owners && OwnerOK(init, r.prefix, snap)
    && index < |snap.configs| && snap.configs[index].fileName == r.fileName
    && (snap == owners[r.prefix] || snap.revision < owners[r.prefix].revision)
  }

  ghost predicate UpdaterOK(init: Initial, owners: map<string, Owner>, files: map<FileKey, File>, r: Request, p: Phase)
    requires r.Update?
  {
    match p
    case Begin => true
    case GetOld(snap, i) => SnapshotOK(init, owners, r, snap, i)
    case CreateNew(snap, i, prev) => SnapshotOK(init, owners, r, snap, i) && prev.fileName == r.fileName
    case GetNew(snap, i, prev) => SnapshotOK(init, owners, r, snap, i) && prev.fileName == r.fileName
    case Swap(snap, i) =>
      && SnapshotOK(init, owners, r, snap, i)
      && (snap == owners[r.prefix] ==> NextKey(r, snap, i) in files && files[NextKey(r, snap, i)].md5 == r.md5)
    case DeleteOld(key) => Older(owners, key)
    case Ended => true
    case _ => false
  }

  /** The first |made| initial files are referred to; they are stored as long as the owner does not exist. */
  ghost predicate MadeOK(owners: map<string, Owner>, files: map<FileKey, File>, r: Request, made: seq<Ref>)
    requires r.Create?
  {
    && |made| <= |r.contents|
    && (forall i :: 0 <= i < |made| ==> made[i] == InitRef(r.prefix, r.contents[i]))
    && (r.prefix !in owners ==> forall i :: 0 <= i < |made| ==> made[i].key in files)
  }

  /** A file is never deleted and made again: no phase of an overwrite is reached. */
  ghost predicate CreatorOK(init: Initial, owners: map<string, Owner>, files: map<FileKey, File>, r: Request, p: Phase)
    requires r.Create?
  {
    && r.prefix in init && r.contents == init[r.prefix]
    && match p
       case Begin => true
       case CreateInit(made) => MadeOK(owners, files, r, made) && |made| < |r.contents|
       case GetInit(made) => MadeOK(owners, files, r, made) && |made| < |r.contents|
       case CreateOwner(made) => MadeOK(owners, files, r, made) && |made| == |r.contents|
       case Ended => true
       case _ => false
  }

  ghost predicate RunnerOK(init: Initial, owners: map<string, Owner>, files: map<FileKey, File>, r: Runner) {
    if r.request.Update? then UpdaterOK(init, owners, files, r.request, r.phase)
    else CreatorOK(init, owners, files, r.request, r.phase)
  }

  ghost predicate RunnersOK(init: Initial, owners: map<string, Owner>, files: map<FileKey, File>, runners: map<nat, Runner>) {
    forall id :: id in runners ==> RunnerOK(init, owners, files, runners[id])
  }

  ghost predicate TablesOK(init: Initial, owners: map<string, Owner>, files: map<FileKey, File>) {
    Distinct(init) && OwnersOK(init, owners) && FilesOK(init, files) && RefsStored(owners, files)
  }

  ghost predicate Inv(init: Initial, w: World) {
    && TablesOK(init, w.owners, w.files)
    && RunnersOK(init, w.owners, w.files, w.runners)
  }

  // ---------------------------------------------------------------- what the other requests keep

  /** Files of the owners' current and next versions stay, and so do initial files while there is no owner. */
  ghost predicate FilesKept(owners: map<string, Owner>, files: map<FileKey, File>, files': map<FileKey, File>) {
    forall k :: k in files ==> (k in files' && files'[k] == files[k]) || Older(owners, k)
  }

  /** An owner appears, or its revision grows; versions do not go back. */
  ghost predicate OwnersGrow(owners: map<string, Owner>, owners': map<string, Owner>) {
    forall p :: p in owners ==>
      && p in owners'
      && (owners'[p] == owners[p] || owners[p].revision < owners'[p].revision)
      && |owners'[p].configs| == |owners[p].configs|
      && forall i :: 0 <= i < |owners[p].configs| ==>
           && owners'[p].configs[i].fileName == owners[p].configs[i].fileName
           && owners[p].configs[i].key.version <= owners'[p].configs[i].key.version
  }

  lemma FilesKeepRunner(init: Initial, owners: map<string, Owner>, files: map<FileKey, File>, files': map<FileKey, File>, r: Runner)
    requires OwnersOK(init, owners) && RunnerOK(init, owners, files, r) && FilesKept(owners, files, files')
    ensures RunnerOK(init, owners, files', r)
  {
    if r.request.Create? {
      match r.phase
      case CreateInit(made) => FilesKeepMade(owners, files, files', r.request, made);
      case GetInit(made) => FilesKeepMade(owners, files, files', r.request, made);
      case CreateOwner(made) => FilesKeepMade(owners, files, files', r.request, made);
      case _ =>
    } else if r.phase.Swap? && r.phase.owner == owners[r.request.prefix] {
      var k := NextKey(r.request, r.phase.owner, r.phase.index);
      assert owners[k.prefix].configs[r.phase.index].fileName == k.fileName;
      assert !Older(owners, k);
    }
  }

  lemma FilesKeepMade(owners: map<string, Owner>, files: map<FileKey, File>, files': map<FileKey, File>, r: Request, made: seq<Ref>)
    requires r.Create? && MadeOK(owners, files, r, made) && FilesKept(owners, files, files')
    ensures MadeOK(owners, files', r, made)
  {
    if r.prefix !in owners {
      forall i | 0 <= i < |made| ensures made[i].key in files' { assert !Older(owners, made[i].key); }
    }
  }

  lemma OwnersKeepRunner(init: Initial, owners: map<string, Owner>, owners': map<string, Owner>, files: map<FileKey, File>, r: Runner)
    requires RunnerOK(init, owners, files, r) && OwnersGrow(owners, owners')
    ensures RunnerOK(init, owners', files, r)
  {
    if r.request.Update? && r.phase.DeleteOld? {
      var k := r.phase.key;
      forall i | 0 <= i < |owners'[k.prefix].configs| && owners'[k.prefix].configs[i].fileName == k.fileName
        ensures k.version < owners'[k.prefix].configs[i].key.version
      {
        assert owners[k.prefix].configs[i].fileName == k.fileName;
      }
    }
  }

  /** One request changes the files and goes to phase p. */
  lemma FilesStep(init: Initial, w: World, id: nat, files: map<FileKey, File>, p: Phase)
    requires Inv(init, w) && id in w.runners
    requires FilesKept(w.owners, w.files, files) && FilesOK(init, files)
    requires RunnerOK(init, w.owners, files, w.runners[id].(phase := p))
    ensures Inv(init, Put(w.(files := files), id, p))
  {
    forall i | i in w.runners ensures RunnerOK(init, w.owners, files, w.runners[i]) {
      FilesKeepRunner(init, w.owners, w.files, files, w.runners[i]);
    }
    hide RunnerOK, FilesOK;
    forall q, i | q in w.owners && 0 <= i < |w.owners[q].configs|
      ensures var ref := w.owners[q].configs[i]; ref.key in files && files[ref.key].md5 == ref.md5
    {
      var ref := w.owners[q].configs[i];
      assert OwnerOK(init, q, w.owners[q]);
      assert ref.key.prefix == q && ref.key.fileName == ref.fileName;
      assert !Older(w.owners, ref.key);
    }
  }

  /** One request changes the owners and goes to phase p. */
  lemma OwnersStep(init: Initial, w: World, id: nat, owners: map<string, Owner>, p: Phase)
    requires Inv(init, w) && id in w.runners
    requires OwnersGrow(w.owners, owners) && OwnersOK(init, owners) && RefsStored(owners, w.files)
    requires RunnerOK(init, owners, w.files, w.runners[id].(phase := p))
    ensures Inv(init, Put(w.(owners := owners), id, p))
  {
    hide OwnersOK, RefsStored, FilesOK;
    forall i | i in w.runners ensures RunnerOK(init, owners, w.files, w.runners[i]) {
      OwnersKeepRunner(init, w.owners, owners, w.files, w.runners[i]);
    }
  }

  lemma PhaseStep(init: Initial, w: World, id: nat, p: Phase)
    requires Inv(init, w) && id in w.runners && RunnerOK(init, w.owners, w.files, w.runners[id].(phase := p))
    ensures Inv(init, Put(w, id, p))
  {
    hide TablesOK, RunnerOK;
  }

  // ---------------------------------------------------------------- the steps

  lemma {:induction false} IndexOfFinds(configs: seq<Ref>, fileName: string)
    ensures IndexOf(configs, fileName).Some? ==>
              var i := IndexOf(configs, fileName).value; i < |configs| && configs[i].fileName == fileName
    decreases |configs|
  {
    if configs != [] { IndexOfFinds(configs[1..], fileName); }
  }

  lemma BeginUpdate(init: Initial, w: World, id: nat)
    requires Inv(init, w) && id in w.runners && w.runners[id].request.Update? && w.runners[id].phase.Begin?
    ensures Inv(init, Updated(w, id))
  {
    var r := w.runners[id].request;
    if r.prefix in w.owners {
      IndexOfFinds(w.owners[r.prefix].configs, r.fileName);
    }
    PhaseStep(init, w, id, Updated(w, id).runners[id].phase);
  }

  lemma CreateNewStep(init: Initial, w: World, id: nat)
    requires Inv(init, w) && id in w.runners && w.runners[id].request.Update? && w.runners[id].phase.CreateNew?
    ensures Inv(init, Updated(w, id))
  {
    var r, p := w.runners[id].request, w.runners[id].phase;
    assert RunnerOK(init, w.owners, w.files, w.runners[id]);
    var k := NextKey(r, p.owner, p.index);
    if k in w.files {
      PhaseStep(init, w, id, GetNew(p.owner, p.index, p.prev));
    } else {
      FilesStep(init, w, id, w.files[k := NewFile(r, p.prev)], Swap(p.owner, p.index));
    }
  }

  lemma SwapStep(init: Initial, w: World, id: nat)
    requires Inv(init, w) && id in w.runners && w.runners[id].request.Update? && w.runners[id].phase.Swap?
    ensures Inv(init, Updated(w, id))
  {
    var r, snap, i := w.runners[id].request, w.runners[id].phase.owner, w.runners[id].phase.index;
    assert RunnerOK(init, w.owners, w.files, w.runners[id]);
    if w.owners[r.prefix].revision == snap.revision {
      var owners := w.owners[r.prefix := Swapped(r, snap, i)];
      assert OwnerOK(init, r.prefix, Swapped(r, snap, i));
      forall j | 0 <= j < |Swapped(r, snap, i).configs| && Swapped(r, snap, i).configs[j].fileName == r.fileName ensures j == i {
        assert init[r.prefix][j].fileName == init[r.prefix][i].fileName;
      }
      assert Older(owners, snap.configs[i].key);
      OwnersStep(init, w, id, owners, DeleteOld(snap.configs[i].key));
    } else {
      PhaseStep(init, w, id, Ended);
    }
  }

  lemma UpdateStep(init: Initial, w: World, id: nat)
    requires Inv(init, w) && id in w.runners && w.runners[id].request.Update?
    ensures Inv(init, Updated(w, id))
  {
    assert RunnerOK(init, w.owners, w.files, w.runners[id]);
    match w.runners[id].phase
    case Begin => BeginUpdate(init, w, id);
    case GetOld(owner, i) => PhaseStep(init, w, id, Updated(w, id).runners[id].phase);
    case CreateNew(_, _, _) => CreateNewStep(init, w, id);
    case GetNew(_, _, _) => PhaseStep(init, w, id, Updated(w, id).runners[id].phase);
    case Swap(_, _) => SwapStep(init, w, id);
    case DeleteOld(key) => FilesStep(init, w, id, w.files - {key}, Ended);
    case _ =>
  }

  lemma CreateInitStep(init: Initial, w: World, id: nat, made: seq<Ref>)
    requires Inv(init, w) && id in w.runners && w.runners[id].request.Create? && w.runners[id].phase == CreateInit(made)
    ensures Inv(init, Created(w, id))
  {
    var r := w.runners[id].request;
    assert RunnerOK(init, w.owners, w.files, w.runners[id]);
    var c := r.contents[|made|];
    if InitKey(r.prefix, c) in w.files {
      PhaseStep(init, w, id, GetInit(made));
    } else {
      FilesStep(init, w, id, w.files[InitKey(r.prefix, c) := InitFile(c)], NextInit(r, made + [InitRef(r.prefix, c)]));
    }
  }

  lemma GetInitStep(init: Initial, w: World, id: nat, made: seq<Ref>)
    requires Inv(init, w) && id in w.runners && w.runners[id].request.Create? && w.runners[id].phase == GetInit(made)
    ensures Inv(init, Created(w, id))
  {
    var r := w.runners[id].request;
    assert RunnerOK(init, w.owners, w.files, w.runners[id]);
    var c := r.contents[|made|];
    PhaseStep(init, w, id, if InitKey(r.prefix, c) in w.files then NextInit(r, made + [InitRef(r.prefix, c)]) else Ended);
  }

  lemma CreateStep(init: Initial, w: World, id: nat)
    requires Inv(init, w) && id in w.runners && w.runners[id].request.Create?
    ensures Inv(init, Created(w, id))
  {
    var r := w.runners[id].request;
    assert RunnerOK(init, w.owners, w.files, w.runners[id]);
    match w.runners[id].phase
    case Begin => PhaseStep(init, w, id, NextInit(r, []));
    case CreateInit(made) => CreateInitStep(init, w, id, made);
    case GetInit(made) => GetInitStep(init, w, id, made);
    case CreateOwner(made) =>
      if r.prefix in w.owners { PhaseStep(init, w, id, Ended); }
      else {
        var owners := w.owners[r.prefix := Owner(0, made)];
        forall i | 0 <= i < |made| ensures made[i].key in w.files && w.files[made[i].key].md5 == made[i].md5 {
          assert InitKey(r.prefix, init[r.prefix][i]) in w.files;
        }
        OwnersStep(init, w, id, owners, Ended);
      }
    case _ =>
  }

  lemma TouchStep(init: Initial, w: World, prefix: string)
    requires Inv(init, w)
    ensures Inv(init, Step(w, Touch(prefix)))
  {
    if prefix in w.owners {
      var owners := w.owners[prefix := w.owners[prefix].(revision := w.owners[prefix].revision + 1)];
      forall i | i in w.runners ensures RunnerOK(init, owners, w.files, w.runners[i]) {
        OwnersKeepRunner(init, w.owners, owners, w.files, w.runners[i]);
      }
      hide RunnerOK, FilesOK;
      assert RefsStored(owners, w.files);
      assert OwnersOK(init, owners);
    }
  }

  lemma StepKeepsInv(init: Initial, w: World, e: Event)
    requires Inv(init, w) && SameContent(init, e)
    ensures Inv(init, Step(w, e))
  {
    hide TablesOK, Updated, Created;
    match e
    case Start(_, _) =>
    case Stop(id) => if id in w.runners { assert RunnerOK(init, w.owners, w.files, w.runners[id]); PhaseStep(init, w, id, Ended); }
    case Touch(prefix) => TouchStep(init, w, prefix);
    case Advance(id) =>
      if id in w.runners {
        if w.runners[id].request.Update? { UpdateStep(init, w, id); } else { CreateStep(init, w, id); }
      }
  }

  // ---------------------------------------------------------------- results

  lemma {:induction false} RunKeepsInv(init: Initial, w: World, events: seq<Event>)
    requires Inv(init, w) && forall e :: e in events ==> SameContent(init, e)
    ensures Inv(init, Run(w, events))
    decreases |events|
  {
    if events != [] {
      hide Inv, SameContent;
      StepKeepsInv(init, w, events[0]);
      RunKeepsInv(init, Step(w, events[0]), events[1..]);
    }
  }

  /** Over all interleavings and crashes, every reference has a stored file with the checksum it refers to. */
  lemma RefsOfEveryRun(init: Initial, events: seq<Event>)
    requires Distinct(init) && forall e :: e in events ==> SameContent(init, e)
    ensures RefsStored(Run(EMPTY, events).owners, Run(EMPTY, events).files)
  {
    RunKeepsInv(init, EMPTY, events);
  }

  /** Only a request that won the swap deletes, and only a version that every reference has left behind. */
  lemma DeletionsAreOlder(init: Initial, w: World, e: Event, key: FileKey)
    requires Inv(init, w) && SameContent(init, e)
    requires key in w.files && key !in Step(w, e).files
    ensures e.Advance? && e.id in w.runners && w.runners[e.id].phase == DeleteOld(key)
    ensures Older(w.owners, key)
  {
    assert RunnerOK(init, w.owners, w.files, w.runners[e.id]);
  }

  /** The keys of this model and the IDs of the code correspond, for file names whose hashes differ. */
  lemma KeysStandForIDs(md5: string -> string, names: set<string>, a: FileKey, b: FileKey)
    requires forall n :: n in names ==> ConfigFileIDs.SEP !in md5(n)
    requires forall m, n :: m in names && n in names && md5(m) == md5(n) ==> m == n
    requires a.fileName in names && b.fileName in names && a.version <= MAX_INT64
    ensures (ConfigFileIDs.GenConfigFileID(a.prefix, md5(a.fileName), a.version)
             == ConfigFileIDs.GenConfigFileID(b.prefix, md5(b.fileName), b.version)) <==> a == b
    ensures ConfigFileIDs.GetConfigFileVersion(ConfigFileIDs.GenConfigFileID(a.prefix, md5(a.fileName), a.version))
            == Some(a.version)
  {
    hide ConfigFileIDs.GenConfigFileID, ConfigFileIDs.GetConfigFileVersion;
    ConfigFileIDs.VersionRoundTrip(a.prefix, md5(a.fileName), a.version);
    if ConfigFileIDs.GenConfigFileID(a.prefix, md5(a.fileName), a.version)
       == ConfigFileIDs.GenConfigFileID(b.prefix, md5(b.fileName), b.version) {
      ConfigFileIDs.IDInjective(a.prefix, md5(a.fileName), a.version, b.prefix, md5(b.fileName), b.version);
    }
  }

  // ---------------------------------------------------------------- one more creation

  /** One request runs and nothing else does: it starts and takes n operations. A stop changes no table. */
  function Alone(w: World, id: nat, r: Request, n: nat): World {
    if n == 0 then Step(w, Start(id, r)) else Step(Alone(w, id, r, n - 1), Advance(id))
  }

  lemma AloneNext(w: World, id: nat, r: Request, n: nat)
    ensures Alone(w, id, r, n + 1) == Step(Alone(w, id, r, n), Advance(id))
  {
  }

  /** The references stay stored at each of its steps. */
  ghost predicate KeepsRefs(w: World, id: nat, r: Request) {
    forall n: nat :: var v := Alone(w, id, r, n); RefsStored(v.owners, v.files)
  }

  function Steps(id: nat, r: Request, n: nat): seq<Event> {
    [Start(id, r)] + seq(n, i => Advance(id))
  }

  lemma {:induction false} RunInTwo(w: World, first: seq<Event>, second: seq<Event>)
    ensures Run(w, first + second) == Run(Run(w, first), second)
    decreases |first|
  {
    if first == [] {
      assert first + second == second;
    } else {
      RunInTwo(Step(w, first[0]), first[1..], second);
      assert (first + second)[1..] == first[1..] + second;
    }
  }

  lemma RunOne(w: World, e: Event)
    ensures Run(w, [e]) == Step(w, e)
  {
    hide Step;
    assert Run(Step(w, e), []) == Step(w, e);
  }

  lemma {:induction false} AloneIsRun(w: World, id: nat, r: Request, n: nat)
    ensures Run(w, Steps(id, r, n)) == Alone(w, id, r, n)
  {
    hide Step;
    if n == 0 {
      assert Steps(id, r, 0) == [Start(id, r)];
      RunOne(w, Start(id, r));
    } else {
      AloneIsRun(w, id, r, n - 1);
      assert Steps(id, r, n) == Steps(id, r, n - 1) + [Advance(id)];
      RunInTwo(w, Steps(id, r, n - 1), [Advance(id)]);
      RunOne(Alone(w, id, r, n - 1), Advance(id));
    }
  }

  ghost predicate Referenced(owners: map<string, Owner>, key: FileKey) {
    exists p, i :: p in owners && 0 <= i < |owners[p].configs| && owners[p].configs[i].key == key
  }

  /** No file that a reference is to would be made again: it has the name, the mode and the checksum of the content. */
  ghost predicate LeavesReferenced(w: World, prefix: string, contents: seq<Content>) {
    forall c :: c in contents && InitKey(prefix, c) in w.files && Referenced(w.owners, InitKey(prefix, c)) ==>
      w.files[InitKey(prefix, c)] == InitFile(c)
  }

  predicate OneChecksum(contents: seq<Content>) {
    forall i, j :: 0 <= i < j < |contents| && contents[i].fileName == contents[j].fileName ==> contents[i].md5 == contents[j].md5
  }

  function Refs(prefix: string, contents: seq<Content>): seq<Ref> {
    seq(|contents|, i requires 0 <= i < |contents| => InitRef(prefix, contents[i]))
  }

  /** The files once the first i contents are stored. */
  function FilesAfter(files: map<FileKey, File>, prefix: string, contents: seq<Content>, i: nat): map<FileKey, File>
    requires i <= |contents|
  {
    if i == 0 then files
    else FilesAfter(files, prefix, contents, i - 1)[InitKey(prefix, contents[i - 1]) := InitFile(contents[i - 1])]
  }

  /** Where a creation that runs alone is: `made` contents done, and what is being done about the next one. */
  ghost predicate AloneShape(w: World, r: Request, owners: map<string, Owner>, files: map<FileKey, File>, p: Phase)
    requires r.Create?
  {
    var n := |r.contents|;
    match p
    case Begin => owners == w.owners && files == w.files
    case CreateInit(made) => ShapeAt(w, r, owners, made) && |made| < n && files == FilesAfter(w.files, r.prefix, r.contents, |made|)
    case GetInit(made) =>
      && ShapeAt(w, r, owners, made) && |made| < n && files == FilesAfter(w.files, r.prefix, r.contents, |made|)
      && InitKey(r.prefix, r.contents[|made|]) in files
    case DeleteInit(made) =>
      && ShapeAt(w, r, owners, made) && Mismatch(w, r, |made|)
      && files == FilesAfter(w.files, r.prefix, r.contents, |made|)
    case RecreateInit(made) =>
      && ShapeAt(w, r, owners, made) && Mismatch(w, r, |made|)
      && files == FilesAfter(w.files, r.prefix, r.contents, |made|) - {InitKey(r.prefix, r.contents[|made|])}
    case CreateOwner(made) => ShapeAt(w, r, owners, made) && |made| == n && files == FilesAfter(w.files, r.prefix, r.contents, n)
    case Ended =>
      && files == FilesAfter(w.files, r.prefix, r.contents, n)
      && owners == if r.prefix in w.owners then w.owners else w.owners[r.prefix := Owner(0, Refs(r.prefix, r.contents))]
    case _ => false
  }

  ghost predicate ShapeAt(w: World, r: Request, owners: map<string, Owner>, made: seq<Ref>)
    requires r.Create?
  {
    owners == w.owners && |made| <= |r.contents| && made == Refs(r.prefix, r.contents[..|made|])
  }

  /** Content number i finds another file. */
  ghost predicate Mismatch(w: World, r: Request, i: nat)
    requires r.Create?
  {
    && i < |r.contents|
    && var files, c := FilesAfter(w.files, r.prefix, r.contents, i), r.contents[i];
       InitKey(r.prefix, c) in files && files[InitKey(r.prefix, c)] != InitFile(c)
  }

  lemma NextRef(prefix: string, contents: seq<Content>, i: nat)
    requires i < |contents|
    ensures Refs(prefix, contents[..i + 1]) == Refs(prefix, contents[..i]) + [InitRef(prefix, contents[i])]
    ensures contents[..|contents|] == contents
  {
  }

  lemma FilesNext(w: World, r: Request, i: nat)
    requires r.Create? && i < |r.contents|
    ensures FilesAfter(w.files, r.prefix, r.contents, i + 1)
            == FilesAfter(w.files, r.prefix, r.contents, i)[InitKey(r.prefix, r.contents[i]) := InitFile(r.contents[i])]
    ensures |Refs(r.prefix, r.contents[..i])| == i
    ensures Refs(r.prefix, r.contents[..i + 1]) == Refs(r.prefix, r.contents[..i]) + [InitRef(r.prefix, r.contents[i])]
  {
    NextRef(r.prefix, r.contents, i);
  }

  /** The step that finishes content number |made|. */
  lemma ShapeNext(w: World, r: Request, owners: map<string, Owner>, made: seq<Ref>, files: map<FileKey, File>)
    requires r.Create? && ShapeAt(w, r, owners, made) && |made| < |r.contents|
    requires files == FilesAfter(w.files, r.prefix, r.contents, |made| + 1)
    ensures AloneShape(w, r, owners, files, NextInit(r, made + [InitRef(r.prefix, r.contents[|made|])]))
  {
    hide FilesAfter, Refs;
    NextRef(r.prefix, r.contents, |made|);
    var next := made + [InitRef(r.prefix, r.contents[|made|])];
    assert |next| == |made| + 1;
    assert next == Refs(r.prefix, r.contents[..|next|]);
    assert ShapeAt(w, r, owners, next);
  }

  /** The operation that stores a content, or finds it stored. */
  lemma Finishes(v: World, id: nat, r: Request, made: seq<Ref>, files: map<FileKey, File>, p: Phase)
    requires r.Create? && |made| < |r.contents| && id in v.runners && v.runners[id] == Runner(r, p)
    requires var key := InitKey(r.prefix, r.contents[|made|]);
             if p == GetInit(made) then v.files == files && key in files && files[key] == InitFile(r.contents[|made|])
             else v.files == files - {key} && (p == CreateInit(made) || p == RecreateInit(made))
    ensures var c, v' := r.contents[|made|], Step(v, Advance(id));
            && id in v'.runners && v'.runners[id] == Runner(r, NextInit(r, made + [InitRef(r.prefix, c)]))
            && v'.owners == v.owners && v'.files == files[InitKey(r.prefix, c) := InitFile(c)]
  {
    var c := r.contents[|made|];
    var key := InitKey(r.prefix, c);
    assert (files - {key})[key := InitFile(c)] == files[key := InitFile(c)];
    if p.GetInit? { assert files[key := InitFile(c)] == files; }
  }

  lemma ShapeFinishes(w: World, v: World, id: nat, made: seq<Ref>)
    requires id in v.runners && v.runners[id].request.Create?
    requires var r, p := v.runners[id].request, v.runners[id].phase;
             && ShapeAt(w, r, v.owners, made) && |made| < |r.contents|
             && var files, key := FilesAfter(w.files, r.prefix, r.contents, |made|), InitKey(r.prefix, r.contents[|made|]);
                if p == GetInit(made) then v.files == files && key in files && files[key] == InitFile(r.contents[|made|])
                else v.files == files - {key} && (p == CreateInit(made) || p == RecreateInit(made))
    ensures var r, v' := v.runners[id].request, Step(v, Advance(id));
            && id in v'.runners && v'.runners[id].request == r
            && AloneShape(w, r, v'.owners, v'.files, v'.runners[id].phase)
  {
    var r, p := v.runners[id].request, v.runners[id].phase;
    FilesNext(w, r, |made|);
    Finishes(v, id, r, made, FilesAfter(w.files, r.prefix, r.contents, |made|), p);
    hide FilesAfter, Refs, Step, AloneShape;
    ShapeNext(w, r, v.owners, made, Step(v, Advance(id)).files);
  }

  lemma ShapeStep(w: World, v: World, id: nat)
    requires id in v.runners && v.runners[id].request.Create?
    requires AloneShape(w, v.runners[id].request, v.owners, v.files, v.runners[id].phase)
    ensures var v' := Step(v, Advance(id));
            && id in v'.runners && v'.runners[id].request == v.runners[id].request
            && AloneShape(w, v.runners[id].request, v'.owners, v'.files, v'.runners[id].phase)
  {
    var r, p := v.runners[id].request, v.runners[id].phase;
    if p.Begin? {
      assert r.contents[..0] == [] && Refs(r.prefix, []) == [];
    } else if p.CreateOwner? {
      assert r.contents[..|p.made|] == r.contents;
    } else if p.CreateInit? && InitKey(r.prefix, r.contents[|p.made|]) !in v.files {
      assert v.files - {InitKey(r.prefix, r.contents[|p.made|])} == v.files;
      ShapeFinishes(w, v, id, p.made);
    } else if p.RecreateInit? {
      ShapeFinishes(w, v, id, p.made);
    } else if p.GetInit? && !Mismatch(w, r, |p.made|) {
      ShapeFinishes(w, v, id, p.made);
    } else {
      hide FilesAfter, Refs;
    }
  }

  lemma BeginShape(w: World, r: Request)
    requires r.Create?
    ensures AloneShape(w, r, w.owners, w.files, Begin)
  {
  }

  lemma {:induction false} AloneHasShape(w: World, id: nat, r: Request, n: nat)
    requires id !in w.runners && r.Create?
    ensures var v := Alone(w, id, r, n);
            && id in v.runners && v.runners[id].request == r && AloneShape(w, r, v.owners, v.files, v.runners[id].phase)
  {
    if n == 0 {
      hide AloneShape;
      assert AloneShape(w, r, w.owners, w.files, Begin) by { BeginShape(w, r); }
    } else {
      AloneHasShape(w, id, r, n - 1);
      hide AloneShape;
      AloneNext(w, id, r, n - 1);
      hide Alone;
      ShapeStep(w, Alone(w, id, r, n - 1), id);
    }
  }

  /** What a reference is to has not changed after i contents that leave it. */
  lemma {:induction false} ReferencedKept(w: World, prefix: string, contents: seq<Content>, i: nat, key: FileKey)
    requires i <= |contents| && LeavesReferenced(w, prefix, contents[..i])
    requires key in w.files && Referenced(w.owners, key)
    ensures var files := FilesAfter(w.files, prefix, contents, i); key in files && files[key] == w.files[key]
  {
    if i > 0 {
      hide Referenced;
      assert forall c :: c in contents[..i - 1] ==> c in contents[..i];
      assert contents[i - 1] in contents[..i] by { assert contents[..i][i - 1] == contents[i - 1]; }
      ReferencedKept(w, prefix, contents, i - 1, key);
    }
  }

  /** A content is stored under its key, unless a later one has that key. */
  lemma {:induction false} LastStored(files: map<FileKey, File>, prefix: string, contents: seq<Content>, i: nat, j: nat)
    requires j < i <= |contents| && OneChecksum(contents)
    ensures var k := InitKey(prefix, contents[j]);
            k in FilesAfter(files, prefix, contents, i) && FilesAfter(files, prefix, contents, i)[k].md5 == contents[j].md5
  {
    if j + 1 < i { LastStored(files, prefix, contents, i - 1, j); }
  }

  lemma RefsKept(w: World, prefix: string, contents: seq<Content>, i: nat)
    requires RefsStored(w.owners, w.files) && LeavesReferenced(w, prefix, contents) && i <= |contents|
    ensures RefsStored(w.owners, FilesAfter(w.files, prefix, contents, i))
    ensures Mismatch(w, Create(prefix, contents), i) ==> !Referenced(w.owners, InitKey(prefix, contents[i]))
  {
    var files := FilesAfter(w.files, prefix, contents, i);
    assert forall c :: c in contents[..i] ==> c in contents;
    forall p, n | p in w.owners && 0 <= n < |w.owners[p].configs|
      ensures var ref := w.owners[p].configs[n]; ref.key in files && files[ref.key].md5 == ref.md5
    {
      ReferencedKept(w, prefix, contents, i, w.owners[p].configs[n].key);
    }
    if Mismatch(w, Create(prefix, contents), i) && Referenced(w.owners, InitKey(prefix, contents[i])) {
      ReferencedKept(w, prefix, contents, i, InitKey(prefix, contents[i]));
      assert false;
    }
  }

  lemma ShapeKeepsRefs(w: World, r: Request, owners: map<string, Owner>, files: map<FileKey, File>, p: Phase)
    requires r.Create? && RefsStored(w.owners, w.files) && LeavesReferenced(w, r.prefix, r.contents)
    requires r.prefix !in w.owners ==> OneChecksum(r.contents)
    requires AloneShape(w, r, owners, files, p)
    ensures RefsStored(owners, files)
  {
    hide FilesAfter, LeavesReferenced;
    var n := |r.contents|;
    match p
    case CreateInit(made) => RefsKept(w, r.prefix, r.contents, |made|);
    case GetInit(made) => RefsKept(w, r.prefix, r.contents, |made|);
    case DeleteInit(made) => RefsKept(w, r.prefix, r.contents, |made|);
    case RecreateInit(made) => RefsKept(w, r.prefix, r.contents, |made|);
    case CreateOwner(made) => RefsKept(w, r.prefix, r.contents, n);
    case Ended =>
      RefsKept(w, r.prefix, r.contents, n);
      if r.prefix !in w.owners {
        forall j | 0 <= j < n
          ensures var key := InitKey(r.prefix, r.contents[j]); key in files && files[key].md5 == r.contents[j].md5
        {
          LastStored(w.files, r.prefix, r.contents, n, j);
        }
      }
    case _ =>
  }

  /** A creation that runs alone gets to each of its contents, and then to its owner. */
  lemma {:induction false} Reaches(w: World, id: nat, r: Request, i: nat) returns (n: nat)
    requires id !in w.runners && r.Create? && i <= |r.contents|
    ensures var v := Alone(w, id, r, n);
            && id in v.runners && v.runners[id] == Runner(r, NextInit(r, Refs(r.prefix, r.contents[..i])))
            && v.owners == w.owners && v.files == FilesAfter(w.files, r.prefix, r.contents, i)
    ensures i < |r.contents| && Mismatch(w, r, i) ==>
              var v := Alone(w, id, r, n + 3);
              && id in v.runners && v.runners[id] == Runner(r, RecreateInit(Refs(r.prefix, r.contents[..i])))
              && v.owners == w.owners && v.files == FilesAfter(w.files, r.prefix, r.contents, i) - {InitKey(r.prefix, r.contents[i])}
  {
    hide Refs, FilesAfter, Alone, NextInit, Mismatch;
    if i == 0 {
      n := 1;
      StartsAt(w, id, r);
    } else {
      var m := Reaches(w, id, r, i - 1);
      assert NextInit(r, Refs(r.prefix, r.contents[..i - 1])) == CreateInit(Refs(r.prefix, r.contents[..i - 1])) by {
        FilesNext(w, r, i - 1);
        NextIsInit(r, Refs(r.prefix, r.contents[..i - 1]));
      }
      n := Passes(w, id, r, i - 1, m);
    }
    if i < |r.contents| && Mismatch(w, r, i) {
      FilesNext(w, r, i);
      NextIsInit(r, Refs(r.prefix, r.contents[..i]));
      Overwrites(w, id, r, i, n);
    }
  }

  lemma NextIsInit(r: Request, made: seq<Ref>)
    requires r.Create? && |made| < |r.contents|
    ensures NextInit(r, made) == CreateInit(made)
  {
  }

  lemma StartsAt(w: World, id: nat, r: Request)
    requires id !in w.runners && r.Create?
    ensures Stands(w, Alone(w, id, r, 1), id, r, 0, NextInit(r, Refs(r.prefix, r.contents[..0])))
  {
    assert Refs(r.prefix, r.contents[..0]) == [];
    assert Alone(w, id, r, 1) == Step(Alone(w, id, r, 0), Advance(id));
  }

  ghost predicate Stands(w: World, v: World, id: nat, r: Request, i: nat, p: Phase)
    requires r.Create? && i <= |r.contents|
  {
    && id in v.runners && v.runners[id] == Runner(r, p)
    && v.owners == w.owners && v.files == FilesAfter(w.files, r.prefix, r.contents, i)
  }

  /** Three operations on, the file is gone. */
  lemma Overwrites(w: World, id: nat, r: Request, i: nat, n: nat)
    requires r.Create? && i < |r.contents| && Mismatch(w, r, i)
    requires Stands(w, Alone(w, id, r, n), id, r, i, CreateInit(Refs(r.prefix, r.contents[..i])))
    ensures var v := Alone(w, id, r, n + 3);
            && id in v.runners && v.runners[id] == Runner(r, RecreateInit(Refs(r.prefix, r.contents[..i])))
            && v.owners == w.owners && v.files == FilesAfter(w.files, r.prefix, r.contents, i) - {InitKey(r.prefix, r.contents[i])}
  {
    var made := Refs(r.prefix, r.contents[..i]);
    var v2 := Alone(w, id, r, n + 2);
    ReadsBack(w, id, r, i, n);
    AloneNext(w, id, r, n + 1);
    AloneNext(w, id, r, n + 2);
    hide FilesAfter, Alone;
    assert Stands(w, v2, id, r, i, DeleteInit(made));
  }

  /** One operation later the next content is done. */
  lemma PassesAbsent(w: World, id: nat, r: Request, i: nat, n: nat)
    requires r.Create? && i < |r.contents| && InitKey(r.prefix, r.contents[i]) !in FilesAfter(w.files, r.prefix, r.contents, i)
    requires Stands(w, Alone(w, id, r, n), id, r, i, CreateInit(Refs(r.prefix, r.contents[..i])))
    ensures Stands(w, Alone(w, id, r, n + 1), id, r, i + 1, NextInit(r, Refs(r.prefix, r.contents[..i + 1])))
  {
    FilesNext(w, r, i);
    var made, files := Refs(r.prefix, r.contents[..i]), FilesAfter(w.files, r.prefix, r.contents, i);
    assert files - {InitKey(r.prefix, r.contents[i])} == files;
    hide FilesAfter, Refs, Alone, NextInit, InitRef, Step;
    AloneNext(w, id, r, n);
    Finishes(Alone(w, id, r, n), id, r, made, files, CreateInit(made));
  }

  /** Or two. */
  lemma PassesStored(w: World, id: nat, r: Request, i: nat, n: nat)
    requires r.Create? && i < |r.contents| && !Mismatch(w, r, i)
    requires InitKey(r.prefix, r.contents[i]) in FilesAfter(w.files, r.prefix, r.contents, i)
    requires Stands(w, Alone(w, id, r, n), id, r, i, CreateInit(Refs(r.prefix, r.contents[..i])))
    ensures Stands(w, Alone(w, id, r, n + 2), id, r, i + 1, NextInit(r, Refs(r.prefix, r.contents[..i + 1])))
  {
    FilesNext(w, r, i);
    var made, files := Refs(r.prefix, r.contents[..i]), FilesAfter(w.files, r.prefix, r.contents, i);
    hide FilesAfter, Refs, Alone, NextInit, InitRef, Step;
    ReadsBack(w, id, r, i, n);
    AloneNext(w, id, r, n + 1);
    Finishes(Alone(w, id, r, n + 1), id, r, made, files, GetInit(made));
  }

  /** Or four. */
  lemma PassesMismatch(w: World, id: nat, r: Request, i: nat, n: nat)
    requires r.Create? && i < |r.contents| && Mismatch(w, r, i)
    requires Stands(w, Alone(w, id, r, n), id, r, i, CreateInit(Refs(r.prefix, r.contents[..i])))
    ensures Stands(w, Alone(w, id, r, n + 4), id, r, i + 1, NextInit(r, Refs(r.prefix, r.contents[..i + 1])))
  {
    FilesNext(w, r, i);
    var made, files := Refs(r.prefix, r.contents[..i]), FilesAfter(w.files, r.prefix, r.contents, i);
    hide FilesAfter, Refs, Alone, NextInit, InitRef, Step;
    Overwrites(w, id, r, i, n);
    AloneNext(w, id, r, n + 3);
    Finishes(Alone(w, id, r, n + 3), id, r, made, files, RecreateInit(made));
  }

  lemma Passes(w: World, id: nat, r: Request, i: nat, n: nat) returns (n': nat)
    requires r.Create? && i < |r.contents|
    requires Stands(w, Alone(w, id, r, n), id, r, i, CreateInit(Refs(r.prefix, r.contents[..i])))
    ensures Stands(w, Alone(w, id, r, n'), id, r, i + 1, NextInit(r, Refs(r.prefix, r.contents[..i + 1])))
  {
    hide Stands, FilesAfter, Refs, Alone;
    if Mismatch(w, r, i) {
      PassesMismatch(w, id, r, i, n);
      n' := n + 4;
    } else if InitKey(r.prefix, r.contents[i]) in FilesAfter(w.files, r.prefix, r.contents, i) {
      PassesStored(w, id, r, i, n);
      n' := n + 2;
    } else {
      PassesAbsent(w, id, r, i, n);
      n' := n + 1;
    }
  }

  lemma ReadsBack(w: World, id: nat, r: Request, i: nat, n: nat)
    requires r.Create? && i < |r.contents| && InitKey(r.prefix, r.contents[i]) in FilesAfter(w.files, r.prefix, r.contents, i)
    requires Stands(w, Alone(w, id, r, n), id, r, i, CreateInit(Refs(r.prefix, r.contents[..i])))
    ensures Stands(w, Alone(w, id, r, n + 1), id, r, i, GetInit(Refs(r.prefix, r.contents[..i])))
  {
    AloneNext(w, id, r, n);
    hide Alone, FilesAfter;
  }

  /** If the step that deletes content number i keeps the references, none is to its file. */
  lemma LeftNext(w: World, id: nat, r: Request, i: nat)
    requires id !in w.runners && r.Create? && i < |r.contents| && LeavesReferenced(w, r.prefix, r.contents[..i])
    requires KeepsRefs(w, id, r)
    ensures var key := InitKey(r.prefix, r.contents[i]);
            key in w.files && Referenced(w.owners, key) ==> w.files[key] == InitFile(r.contents[i])
  {
    var key := InitKey(r.prefix, r.contents[i]);
    if key in w.files && Referenced(w.owners, key) {
      ReferencedKept(w, r.prefix, r.contents, i, key);
      hide FilesAfter, Alone, Refs, LeavesReferenced;
      var n := Reaches(w, id, r, i);
      var v := Alone(w, id, r, n + 3);
      assert RefsStored(v.owners, v.files);
      assert Mismatch(w, r, i) ==> key !in v.files && v.owners == w.owners;
      var p, j :| p in w.owners && 0 <= j < |w.owners[p].configs| && w.owners[p].configs[j].key == key;
      assert !Mismatch(w, r, i);
    }
  }

  /** If every step keeps the references, the first i contents leave what is referenced. */
  lemma {:induction false} KeptMeansLeft(w: World, id: nat, r: Request, i: nat)
    requires RefsStored(w.owners, w.files) && id !in w.runners && r.Create? && i <= |r.contents|
    requires KeepsRefs(w, id, r)
    ensures LeavesReferenced(w, r.prefix, r.contents[..i])
  {
    if i > 0 {
      KeptMeansLeft(w, id, r, i - 1);
      hide FilesAfter, Alone, Refs, RefsStored;
      var c := r.contents[i - 1];
      LeftNext(w, id, r, i - 1);
      forall x | x in r.contents[..i] ensures x in r.contents[..i - 1] || x == c {
        assert r.contents[..i] == r.contents[..i - 1] + [c];
      }
    }
  }

  lemma KeptMeansOneChecksum(w: World, id: nat, r: Request)
    requires id !in w.runners && r.Create? && r.prefix !in w.owners
    requires KeepsRefs(w, id, r)
    ensures OneChecksum(r.contents)
  {
    var n := Reaches(w, id, r, |r.contents|);
    var v := Alone(w, id, r, n + 1);
    assert v == Step(Alone(w, id, r, n), Advance(id));
    hide FilesAfter, Alone;
    assert r.contents[..|r.contents|] == r.contents;
    var o := Owner(0, Refs(r.prefix, r.contents));
    assert v.owners == w.owners[r.prefix := o];
    assert RefsStored(v.owners, v.files);
    forall i, j | 0 <= i < j < |r.contents| && r.contents[i].fileName == r.contents[j].fileName
      ensures r.contents[i].md5 == r.contents[j].md5
    {
      assert v.owners[r.prefix].configs[i].key == v.owners[r.prefix].configs[j].key;
    }
  }

  /**
   One more creation, from any world whose references are stored: they stay stored at every one of its
   steps, wherever it stops, exactly when no stored file that a reference is to differs from what the
   creation brings, in name, mode or checksum, and the new owner has one checksum for each name.
   */
  lemma OverwriteBreaks(w: World, id: nat, prefix: string, contents: seq<Content>)
    requires RefsStored(w.owners, w.files) && id !in w.runners
    ensures KeepsRefs(w, id, Create(prefix, contents))
            <==> LeavesReferenced(w, prefix, contents) && (prefix in w.owners || OneChecksum(contents))
  {
    var r := Create(prefix, contents);
    if LeavesReferenced(w, prefix, contents) && (prefix in w.owners || OneChecksum(contents)) {
      forall n: nat ensures var v := Alone(w, id, r, n); RefsStored(v.owners, v.files) {
        AloneHasShape(w, id, r, n);
        var v := Alone(w, id, r, n);
        ShapeKeepsRefs(w, r, v.owners, v.files, v.runners[id].phase);
      }
    }
    hide LeavesReferenced, OneChecksum;
    if KeepsRefs(w, id, r) {
      hide KeepsRefs;
      KeptMeansLeft(w, id, r, |contents|);
      assert contents[..|contents|] == contents;
      if prefix !in w.owners { KeptMeansOneChecksum(w, id, r); }
    }
  }

  // ---------------------------------------------------------------- runs that break them

  function Retry(mode: int, md5: string): Request { Create("s", [Content("f", mode, md5)]) }

  const KEY := FileKey("s", "f", 0)

  function Once(a: string): World {
    World(map["s" := Owner(0, [Ref("f", KEY, a)])], map[KEY := File(0, "f", 0, a)], map[0 := Runner(Retry(0, a), Ended)])
  }

  /** Once(a) with one more request at a phase, and with the given files. */
  function Second(a: string, r: Request, files: map<FileKey, File>, p: Phase): World {
    Once(a).(files := files, runners := Once(a).runners[1 := Runner(r, p)])
  }

  function Made(md5: string): seq<Ref> { [Ref("f", KEY, md5)] }

  function StoredAs(mode: int, md5: string): map<FileKey, File> { map[KEY := File(0, "f", mode, md5)] }

  lemma FirstCreation(a: string)
    ensures Alone(EMPTY, 0, Retry(0, a), 3) == Once(a)
  {
    var r := Retry(0, a);
    assert Alone(EMPTY, 0, r, 1) == World(map[], map[], map[0 := Runner(r, CreateInit([]))]) by {
      assert Alone(EMPTY, 0, r, 0) == World(map[], map[], map[0 := Runner(r, Begin)]);
    }
    assert Alone(EMPTY, 0, r, 2) == World(map[], StoredAs(0, a), map[0 := Runner(r, CreateOwner(Made(a)))]) by {
      assert [] + [InitRef("s", Content("f", 0, a))] == Made(a);
    }
  }

  lemma SecondCreation(a: string, mode: int, b: string)
    requires (mode, b) != (0, a)
    ensures Alone(Once(a), 1, Retry(mode, b), 4) == Second(a, Retry(mode, b), map[], RecreateInit([]))
    ensures Alone(Once(a), 1, Retry(mode, b), 5) == Second(a, Retry(mode, b), StoredAs(mode, b), CreateOwner(Made(b)))
  {
    var w, r := Once(a), Retry(mode, b);
    SecondSteps(a, r);
    ThirdSteps(a, r);
    hide Step;
    var v0, v1 := Alone(w, 1, r, 0), Alone(w, 1, r, 1);
    assert v1 == Step(v0, Advance(1));
    assert Alone(w, 1, r, 2) == Step(v1, Advance(1));
    assert Alone(w, 1, r, 3) == Step(Alone(w, 1, r, 2), Advance(1));
    assert Alone(w, 1, r, 4) == Step(Alone(w, 1, r, 3), Advance(1));
  }

  lemma SecondSteps(a: string, r: Request)
    requires r.Create? && |r.contents| == 1 && r == Retry(r.contents[0].fileMode, r.contents[0].md5) && r != Retry(0, a)
    ensures Step(Once(a), Start(1, r)) == Second(a, r, StoredAs(0, a), Begin)
    ensures Step(Second(a, r, StoredAs(0, a), Begin), Advance(1)) == Second(a, r, StoredAs(0, a), CreateInit([]))
    ensures Step(Second(a, r, StoredAs(0, a), CreateInit([])), Advance(1)) == Second(a, r, StoredAs(0, a), GetInit([]))
    ensures Step(Second(a, r, StoredAs(0, a), GetInit([])), Advance(1)) == Second(a, r, StoredAs(0, a), DeleteInit([]))
  {
  }

  lemma ThirdSteps(a: string, r: Request)
    requires r.Create? && |r.contents| == 1 && r == Retry(r.contents[0].fileMode, r.contents[0].md5)
    ensures Step(Second(a, r, StoredAs(0, a), DeleteInit([])), Advance(1)) == Second(a, r, map[], RecreateInit([]))
    ensures var c := r.contents[0];
            Step(Second(a, r, map[], RecreateInit([])), Advance(1)) == Second(a, r, StoredAs(c.fileMode, c.md5), CreateOwner(Made(c.md5)))
  {
    var c := r.contents[0];
    assert [] + [InitRef("s", c)] == Made(c.md5);
  }

  /**
   It happens: a service is created, and created again with another mode or checksum before its file has
   moved to a later version. A stop leaves the reference without a file; the end leaves it with one of
   another checksum, if the checksums differ.
   */
  lemma OtherContentsBreakRefs(a: string, mode: int, b: string)
    requires (mode, b) != (0, a)
    ensures var w := Run(EMPTY, Steps(0, Retry(0, a), 3) + Steps(1, Retry(mode, b), 4)); !RefsStored(w.owners, w.files)
    ensures var w := Run(EMPTY, Steps(0, Retry(0, a), 3) + Steps(1, Retry(mode, b), 5));
            RefsStored(w.owners, w.files) <==> a == b
  {
    AloneIsRun(EMPTY, 0, Retry(0, a), 3);
    FirstCreation(a);
    SecondCreation(a, mode, b);
    forall n: nat
      ensures Run(EMPTY, Steps(0, Retry(0, a), 3) + Steps(1, Retry(mode, b), n)) == Alone(Once(a), 1, Retry(mode, b), n)
    {
      RunInTwo(EMPTY, Steps(0, Retry(0, a), 3), Steps(1, Retry(mode, b), n));
      AloneIsRun(Once(a), 1, Retry(mode, b), n);
    }
    var w4, w5 := Alone(Once(a), 1, Retry(mode, b), 4), Alone(Once(a), 1, Retry(mode, b), 5);
    hide Run, Steps, Alone;
    assert "s" in w4.owners && w4.owners["s"].configs[0].key !in w4.files;
    assert "s" in w5.owners && w5.owners["s"].configs[0].md5 == a && w5.files[KEY].md5 == b;
  }


  // ---------------------------------------------------------------- one more update

  /** The owner refers to a stored file of this name, and nothing else is stored as its next version. */
  ghost predicate CanUpdate(w: World, r: Request)
    requires r.Update?
  {
    && r.prefix in w.owners
    && var o := w.owners[r.prefix];
       var i := IndexOf(o.configs, r.fileName);
       && i.Some? && i.value < |o.configs| && o.configs[i.value].key in w.files
       && var next := NextKey(r, o, i.value);
          next in w.files ==> w.files[next] == NewFile(r, w.files[o.configs[i.value].key])
  }

  /** What an update that runs alone reaches, if it does not end without a change. */
  function SwappedWorld(w: World, id: nat, r: Request): World
    requires r.Update? && CanUpdate(w, r)
  {
    var o := w.owners[r.prefix];
    var i := IndexOf(o.configs, r.fileName).value;
    var key := o.configs[i].key;
    World(w.owners[r.prefix := Swapped(r, o, i)],
          w.files[NextKey(r, o, i) := NewFile(r, w.files[key])] - {key},
          w.runners[id := Runner(r, Ended)])
  }

  ghost predicate SameTables(w: World, v: World) { v.owners == w.owners && v.files == w.files }

  /** An update that runs alone and has not got past the read of its next file. */
  ghost predicate EarlyUpdate(w: World, v: World, id: nat, r: Request)
    requires r.Update?
  {
    && SameTables(w, v) && id in v.runners && v.runners[id].request == r
    && match v.runners[id].phase
       case Begin => true
       case GetOld(o, i) => r.prefix in w.owners && o == w.owners[r.prefix] && IndexOf(o.configs, r.fileName) == Some(i)
       case CreateNew(o, i, prev) =>
         && r.prefix in w.owners && o == w.owners[r.prefix] && IndexOf(o.configs, r.fileName) == Some(i) && i < |o.configs|
         && o.configs[i].key in w.files && prev == w.files[o.configs[i].key]
       case GetNew(o, i, prev) =>
         && r.prefix in w.owners && o == w.owners[r.prefix] && IndexOf(o.configs, r.fileName) == Some(i) && i < |o.configs|
         && o.configs[i].key in w.files && prev == w.files[o.configs[i].key] && NextKey(r, o, i) in w.files
       case Ended => true
       case _ => false
  }

  lemma BlockedStep(w: World, v: World, id: nat, r: Request)
    requires r.Update? && !CanUpdate(w, r) && EarlyUpdate(w, v, id, r)
    ensures EarlyUpdate(w, Step(v, Advance(id)), id, r)
  {
    if r.prefix in w.owners { IndexOfFinds(w.owners[r.prefix].configs, r.fileName); }
    hide IndexOf;
  }

  lemma {:induction false} BlockedChangesNothing(w: World, id: nat, r: Request, n: nat)
    requires id !in w.runners && r.Update? && !CanUpdate(w, r)
    ensures EarlyUpdate(w, Alone(w, id, r, n), id, r)
  {
    hide CanUpdate, IndexOf;
    if n == 0 {
      assert Alone(w, id, r, 0) == Step(w, Start(id, r));
      hide Alone;
    } else {
      BlockedChangesNothing(w, id, r, n - 1);
      AloneNext(w, id, r, n - 1);
      hide Alone, EarlyUpdate;
      BlockedStep(w, Alone(w, id, r, n - 1), id, r);
    }
  }

  /** The world w with one more request at a phase. */
  function With(w: World, id: nat, r: Request, p: Phase): World {
    w.(runners := w.runners[id := Runner(r, p)])
  }

  lemma ReadsFirst(w: World, id: nat, r: Request)
    requires id !in w.runners && r.Update? && CanUpdate(w, r)
    ensures var o := w.owners[r.prefix];
            var i := IndexOf(o.configs, r.fileName).value;
            Alone(w, id, r, 2) == With(w, id, r, CreateNew(o, i, w.files[o.configs[i].key]))
  {
    var o := w.owners[r.prefix];
    var i := IndexOf(o.configs, r.fileName).value;
    assert Alone(w, id, r, 0) == With(w, id, r, Begin);
    assert Alone(w, id, r, 1) == Step(Alone(w, id, r, 0), Advance(id));
    assert Alone(w, id, r, 2) == Step(Alone(w, id, r, 1), Advance(id));
    hide Alone, IndexOf;
    assert Step(With(w, id, r, Begin), Advance(id)) == With(w, id, r, GetOld(o, i));
    assert Step(With(w, id, r, GetOld(o, i)), Advance(id)) == With(w, id, r, CreateNew(o, i, w.files[o.configs[i].key]));
  }

  /** With the new file stored: the swap and the deletion. */
  lemma SwapsThen(w: World, id: nat, r: Request, n: nat)
    requires id !in w.runners && r.Update? && CanUpdate(w, r)
    requires var o := w.owners[r.prefix];
             var i := IndexOf(o.configs, r.fileName).value;
             Alone(w, id, r, n) == With(w.(files := w.files[NextKey(r, o, i) := NewFile(r, w.files[o.configs[i].key])]), id, r, Swap(o, i))
    ensures Alone(w, id, r, n + 2) == SwappedWorld(w, id, r)
  {
    var o := w.owners[r.prefix];
    var i := IndexOf(o.configs, r.fileName).value;
    var key := o.configs[i].key;
    var files := w.files[NextKey(r, o, i) := NewFile(r, w.files[key])];
    var owners := w.owners[r.prefix := Swapped(r, o, i)];
    assert Alone(w, id, r, n + 1) == Step(Alone(w, id, r, n), Advance(id));
    assert Alone(w, id, r, n + 2) == Step(Alone(w, id, r, n + 1), Advance(id));
    hide Alone, IndexOf;
    assert Step(With(w.(files := files), id, r, Swap(o, i)), Advance(id))
           == With(w.(files := files, owners := owners), id, r, DeleteOld(key));
    assert Step(With(w.(files := files, owners := owners), id, r, DeleteOld(key)), Advance(id))
           == With(w.(files := files - {key}, owners := owners), id, r, Ended);
  }

  lemma {:induction false} EndedStays(w: World, id: nat, r: Request, n: nat, m: nat)
    requires n <= m && r.Update?
    requires id in Alone(w, id, r, n).runners && Alone(w, id, r, n).runners[id] == Runner(r, Ended)
    ensures Alone(w, id, r, m) == Alone(w, id, r, n)
  {
    hide Alone;
    if n < m {
      EndedStays(w, id, r, n, m - 1);
      AloneNext(w, id, r, m - 1);
    }
  }

  lemma UpdateSwaps(w: World, id: nat, r: Request, n: nat)
    requires id !in w.runners && r.Update? && CanUpdate(w, r) && n >= 6
    ensures Alone(w, id, r, n) == SwappedWorld(w, id, r)
  {
    ReadsFirst(w, id, r);
    var o := w.owners[r.prefix];
    var i := IndexOf(o.configs, r.fileName).value;
    var next, prev := NextKey(r, o, i), w.files[o.configs[i].key];
    assert Alone(w, id, r, 3) == Step(Alone(w, id, r, 2), Advance(id));
    assert Alone(w, id, r, 4) == Step(Alone(w, id, r, 3), Advance(id));
    hide Alone, IndexOf;
    if next in w.files {
      assert w.files[next := NewFile(r, prev)] == w.files;
      assert Step(With(w, id, r, CreateNew(o, i, prev)), Advance(id)) == With(w, id, r, GetNew(o, i, prev));
      assert Step(With(w, id, r, GetNew(o, i, prev)), Advance(id)) == With(w, id, r, Swap(o, i));
      SwapsThen(w, id, r, 4);
      EndedStays(w, id, r, 6, n);
    } else {
      assert Step(With(w, id, r, CreateNew(o, i, prev)), Advance(id))
             == With(w.(files := w.files[next := NewFile(r, prev)]), id, r, Swap(o, i));
      SwapsThen(w, id, r, 3);
      EndedStays(w, id, r, 5, n);
    }
  }

  /**
   One more update, from any world, by itself: it moves the reference to the next version and deletes the
   old file exactly when nothing else is stored as that version; otherwise it never changes anything.
   */
  lemma UpdateTakesEffect(w: World, id: nat, r: Request)
    requires id !in w.runners && r.Update?
    ensures (exists n: nat :: !SameTables(w, Alone(w, id, r, n))) <==> CanUpdate(w, r)
    ensures CanUpdate(w, r) ==> forall n: nat :: n >= 6 ==> Alone(w, id, r, n) == SwappedWorld(w, id, r)
  {
    if CanUpdate(w, r) {
      forall n: nat | n >= 6 ensures Alone(w, id, r, n) == SwappedWorld(w, id, r) {
        UpdateSwaps(w, id, r, n);
      }
      hide Alone, IndexOf;
      assert !SameTables(w, Alone(w, id, r, 6));
    } else {
      forall n: nat ensures SameTables(w, Alone(w, id, r, n)) {
        BlockedChangesNothing(w, id, r, n);
      }
    }
  }

  /** The request of one more update of the file of Once(a). */
  function Change(md5: string): Request { Update("s", "f", md5) }

  const NEXT := FileKey("s", "f", 1)

  /** An update of Once(a) that stopped between its new file and its swap. */
  function Orphaned(a: string, x: string): World {
    Second(a, Change(x), StoredAs(0, a)[NEXT := File(1, "f", 0, x)], Ended)
  }

  lemma Orphans(a: string, x: string)
    ensures Step(Alone(Once(a), 1, Change(x), 3), Stop(1)) == Orphaned(a, x)
  {
    var w, r, o := Once(a), Change(x), Owner(0, [Ref("f", KEY, a)]);
    assert IndexOf(o.configs, "f") == Some(0);
    assert NextKey(r, o, 0) == NEXT;
    ReadsFirst(w, 1, r);
    assert Alone(w, 1, r, 3) == Step(Alone(w, 1, r, 2), Advance(1));
    hide Alone, IndexOf;
    assert Step(With(w, 1, r, CreateNew(o, 0, w.files[KEY])), Advance(1))
           == With(w.(files := w.files[NEXT := File(1, "f", 0, x)]), 1, r, Swap(o, 0));
  }

  /**
   It happens: a service is created, an update stops between its new file and its swap, and from then on
   an update by itself changes something exactly when it brings the same contents.
   */
  lemma OrphanBlocksUpdate(a: string, x: string, y: string)
    ensures var w := Run(EMPTY, Steps(0, Retry(0, a), 3) + (Steps(1, Change(x), 3) + [Stop(1)]));
            && w.owners == Once(a).owners && RefsStored(w.owners, w.files) && 2 !in w.runners
            && ((exists n: nat :: !SameTables(w, Alone(w, 2, Change(y), n))) <==> x == y)
  {
    RunInTwo(EMPTY, Steps(0, Retry(0, a), 3), Steps(1, Change(x), 3) + [Stop(1)]);
    AloneIsRun(EMPTY, 0, Retry(0, a), 3);
    FirstCreation(a);
    RunInTwo(Once(a), Steps(1, Change(x), 3), [Stop(1)]);
    AloneIsRun(Once(a), 1, Change(x), 3);
    RunOne(Alone(Once(a), 1, Change(x), 3), Stop(1));
    Orphans(a, x);
    var w := Orphaned(a, x);
    UpdateTakesEffect(w, 2, Change(y));
    hide Run, Steps, Alone;
    assert IndexOf(w.owners["s"].configs, "f") == Some(0);
    assert NextKey(Change(y), w.owners["s"], 0) == NEXT;
  }
}
