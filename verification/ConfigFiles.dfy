/**
 The initial config files of an owner, the service or one of its members: createConfigFile
 (pkg/managesvc/utils.go) and checkAndCreateConfigFile (pkg/managesvc/service.go). The checksum
 function is a parameter.
 */
module ConfigFiles {
  import opened Text
  import opened Records
  import opened Store
  import ConfigFileIDs

  function FileID(md5: string -> string, prefix: string, fileName: string): string {
    ConfigFileIDs.GenConfigFileID(prefix, md5(fileName), 0)
  }

  function CreateInitialConfigFile(md5: string -> string, uuid: string, fileID: string, c: ConfigFileContent, now: int): ConfigFile {
    ConfigFile(uuid, fileID, 0, c.fileName, now, c.fileMode, md5(c.content), c.content)
  }

  /** The stored file is the initial one of this content, as the checksum tells. */
  predicate IsInit(md5: string -> string, uuid: string, prefix: string, c: ConfigFileContent, f: ConfigFile) {
    && f.serviceUUID == uuid && f.fileID == FileID(md5, prefix, c.fileName) && f.revision == 0
    && f.fileName == c.fileName && f.fileMode == c.fileMode && f.fileMD5 == md5(c.content)
  }

  /** Every stored file has the checksum of its content. */
  ghost predicate Hashed(md5: string -> string, files: map<Key, ConfigFile>) {
    forall key :: key in files ==> files[key].fileMD5 == md5(files[key].content)
  }

  /** A file of the owner that is not what it was has been stored with the content that was asked for. */
  ghost predicate NewContents(md5: string -> string, uuid: string, prefix: string, cfgs: seq<ConfigFileContent>,
                              before: map<Key, ConfigFile>, after: map<Key, ConfigFile>) {
    forall i :: 0 <= i < |cfgs| ==> NewContent(before, after, (uuid, FileID(md5, prefix, cfgs[i].fileName)), cfgs[i].content)
  }

  predicate NewContent(before: map<Key, ConfigFile>, after: map<Key, ConfigFile>, key: Key, content: string) {
    key in after && (key in before ==> after[key] != before[key]) ==> after[key].content == content
  }

  function IDsOf(md5: string -> string, prefix: string, cfgs: seq<ConfigFileContent>): (ids: seq<ConfigID>)
    ensures |ids| == |cfgs|
  {
    seq(|cfgs|, i requires 0 <= i < |cfgs| => IDOf(md5, prefix, cfgs[i]))
  }

  function IDOf(md5: string -> string, prefix: string, c: ConfigFileContent): ConfigID {
    ConfigID(c.fileName, FileID(md5, prefix, c.fileName), md5(c.content))
  }

  /** The files of one owner have different IDs. */
  ghost predicate DistinctIDs(md5: string -> string, prefix: string, cfgs: seq<ConfigFileContent>) {
    forall i, j :: 0 <= i < j < |cfgs| ==> FileID(md5, prefix, cfgs[i].fileName) != FileID(md5, prefix, cfgs[j].fileName)
  }

  ghost predicate Present(md5: string -> string, uuid: string, prefix: string, cfgs: seq<ConfigFileContent>, files: map<Key, ConfigFile>) {
    forall i :: 0 <= i < |cfgs| ==>
      var key := (uuid, FileID(md5, prefix, cfgs[i].fileName)); key in files && IsInit(md5, uuid, prefix, cfgs[i], files[key])
  }

  /** What is stored under the IDs of the files are those files. */
  ghost predicate Consistent(md5: string -> string, uuid: string, prefix: string, cfgs: seq<ConfigFileContent>,
                             files: map<Key, ConfigFile>) {
    forall i :: 0 <= i < |cfgs| ==>
      var key := (uuid, FileID(md5, prefix, cfgs[i].fileName)); key in files ==> IsInit(md5, uuid, prefix, cfgs[i], files[key])
  }

  ghost predicate IsKey(md5: string -> string, uuid: string, prefix: string, cfgs: seq<ConfigFileContent>, key: Key) {
    exists i :: 0 <= i < |cfgs| && key == (uuid, FileID(md5, prefix, cfgs[i].fileName))
  }

  /** Only files of the owner are written. */
  ghost predicate OnlyOwn(md5: string -> string, uuid: string, prefix: string, cfgs: seq<ConfigFileContent>,
                          before: map<Key, ConfigFile>, after: map<Key, ConfigFile>) {
    forall key :: !IsKey(md5, uuid, prefix, cfgs, key) ==> (key in after <==> key in before) && (key in after ==> after[key] == before[key])
  }

  ghost predicate Grown(before: map<Key, ConfigFile>, after: map<Key, ConfigFile>) {
    forall key :: key in before ==> key in after && after[key] == before[key]
  }

  /** The referred file is stored, with the name and the checksum of the reference. */
  ghost predicate Stored(uuid: string, c: ConfigID, files: map<Key, ConfigFile>) {
    && (uuid, c.fileID) in files
    && files[(uuid, c.fileID)].fileMD5 == c.fileMD5 && files[(uuid, c.fileID)].fileName == c.fileName
  }

  ghost predicate AllStored(uuid: string, configs: seq<ConfigID>, files: map<Key, ConfigFile>) {
    forall i :: 0 <= i < |configs| ==> Stored(uuid, configs[i], files)
  }

  lemma PresentIsStored(md5: string -> string, uuid: string, prefix: string, cfgs: seq<ConfigFileContent>, files: map<Key, ConfigFile>)
    requires Present(md5, uuid, prefix, cfgs, files)
    ensures AllStored(uuid, IDsOf(md5, prefix, cfgs), files)
  {
    hide FileID;
  }

  datatype CreateResult = Created(file: ConfigFile) | ErrConfigMismatch | ErrDB

  /** The file is stored now, or was stored with the same checksum; otherwise nothing is known but that no other file changed. */
  method CreateConfigFile(db: DB, cfg: ConfigFile) returns (r: CreateResult)
    requires db.Valid()
    modifies db
    ensures db.Valid() && db.Contents() == old(db.Contents()).(configs := db.cfgMap)
    ensures var key := (cfg.serviceUUID, cfg.fileID);
            db.cfgMap == old(db.cfgMap) || (key !in old(db.cfgMap) && db.cfgMap == old(db.cfgMap)[key := cfg])
    ensures r.Created? ==>
              var key := (cfg.serviceUUID, cfg.fileID);
              key in db.cfgMap && db.cfgMap[key] == r.file && EqualConfigFile(r.file, cfg)
    ensures r.ErrConfigMismatch? ==>
              var key := (cfg.serviceUUID, cfg.fileID);
              db.cfgMap == old(db.cfgMap) && key in db.cfgMap && !EqualConfigFile(db.cfgMap[key], cfg)
    ensures r.Created? && (cfg.serviceUUID, cfg.fileID) !in old(db.cfgMap) ==> r.file == cfg
    ensures db.reliable ==> !r.ErrDB?
  {
    var err := db.CreateConfigFile(cfg);
    if err.None? {
      return Created(cfg);
    }
    if err != Some(ConditionalCheckFailed) {
      return ErrDB;
    }
    var currcfg := db.GetConfigFile(cfg.serviceUUID, cfg.fileID);
    if currcfg.Error? {
      return ErrDB;
    }
    if !EqualConfigFile(currcfg.value, cfg) {
      return ErrConfigMismatch;
    }
    r := Created(currcfg.value);
  }

  /** One file; one that does not match is deleted and made again. */
  method CheckAndCreateOne(db: DB, md5: string -> string, uuid: string, prefix: string, c: ConfigFileContent, now: int)
    returns (r: Option<ConfigID>)
    requires db.Valid()
    modifies db
    ensures db.Valid() && db.Contents() == old(db.Contents()).(configs := db.cfgMap)
    ensures OnlyOwn(md5, uuid, prefix, [c], old(db.cfgMap), db.cfgMap)
    ensures Consistent(md5, uuid, prefix, [c], old(db.cfgMap)) ==>
              Grown(old(db.cfgMap), db.cfgMap) && Consistent(md5, uuid, prefix, [c], db.cfgMap)
    ensures r.Some? ==> r.value == IDOf(md5, prefix, c) && Present(md5, uuid, prefix, [c], db.cfgMap)
    ensures Hashed(md5, old(db.cfgMap)) ==> Hashed(md5, db.cfgMap)
    ensures NewContents(md5, uuid, prefix, [c], old(db.cfgMap), db.cfgMap)
    ensures db.reliable ==> r.Some?
  {
    hide FileID, IsInit, OnlyOwn, Consistent, Present, Grown, Hashed, NewContents;
    var fileID := FileID(md5, prefix, c.fileName);
    var initcfgfile := CreateInitialConfigFile(md5, uuid, fileID, c, now);
    ghost var key, before := (uuid, fileID), db.cfgMap;
    OneFile(md5, uuid, prefix, c, now, before, before);
    var cfgfile := CreateConfigFile(db, initcfgfile);
    OneFile(md5, uuid, prefix, c, now, before, db.cfgMap);
    if cfgfile.ErrConfigMismatch? {
      var err := db.DeleteConfigFile(uuid, fileID);
      OneFile(md5, uuid, prefix, c, now, before, db.cfgMap);
      if err.Some? {
        return None;
      }
      cfgfile := CreateConfigFile(db, initcfgfile);
      OneFile(md5, uuid, prefix, c, now, before, db.cfgMap);
    }
    if !cfgfile.Created? {
      return None;
    }
    r := Some(ConfigID(c.fileName, fileID, cfgfile.file.fileMD5));
  }

  /** What is stored under the one ID decides about everything. */
  lemma OneFile(md5: string -> string, uuid: string, prefix: string, c: ConfigFileContent, now: int,
                before: map<Key, ConfigFile>, after: map<Key, ConfigFile>)
    requires forall k :: k != (uuid, FileID(md5, prefix, c.fileName)) ==> SameAt(after, before, k)
    requires var key, init := (uuid, FileID(md5, prefix, c.fileName)),
                              CreateInitialConfigFile(md5, uuid, FileID(md5, prefix, c.fileName), c, now);
             key in after ==> (key in before && after[key] == before[key]) || after[key] == init
    ensures OnlyOwn(md5, uuid, prefix, [c], before, after) && NewContents(md5, uuid, prefix, [c], before, after)
    ensures Hashed(md5, before) ==> Hashed(md5, after)
    ensures var key, init := (uuid, FileID(md5, prefix, c.fileName)),
                             CreateInitialConfigFile(md5, uuid, FileID(md5, prefix, c.fileName), c, now);
            && (Consistent(md5, uuid, prefix, [c], before) && key in before ==> EqualConfigFile(before[key], init))
            && (Consistent(md5, uuid, prefix, [c], before) && SameOrNew(before, after, key) ==>
                  Grown(before, after) && Consistent(md5, uuid, prefix, [c], after))
            && (key in after && EqualConfigFile(after[key], init) ==> Present(md5, uuid, prefix, [c], after))
  {
    hide FileID;
    assert [c][0] == c;
    forall k ensures IsKey(md5, uuid, prefix, [c], k) <==> k == (uuid, FileID(md5, prefix, c.fileName)) {}
    forall k | k != (uuid, FileID(md5, prefix, c.fileName))
      ensures (k in after <==> k in before) && (k in after ==> after[k] == before[k])
    {
      assert SameAt(after, before, k);
    }
  }

  predicate SameOrNew(before: map<Key, ConfigFile>, after: map<Key, ConfigFile>, key: Key) {
    key in before ==> key in after && after[key] == before[key]
  }

  /**
   All files of an owner. When what was stored under their IDs matches, files are only added, and
   when the method succeeds all files are stored and its result refers to them.
   */
  method CheckAndCreateConfigFile(db: DB, md5: string -> string, uuid: string, prefix: string, cfgs: seq<ConfigFileContent>)
    returns (r: Option<seq<ConfigID>>)
    requires db.Valid() && DistinctIDs(md5, prefix, cfgs)
    modifies db
    ensures db.Valid() && db.Contents() == old(db.Contents()).(configs := db.cfgMap)
    ensures OnlyOwn(md5, uuid, prefix, cfgs, old(db.cfgMap), db.cfgMap)
    ensures Consistent(md5, uuid, prefix, cfgs, old(db.cfgMap)) ==>
              Grown(old(db.cfgMap), db.cfgMap) && Consistent(md5, uuid, prefix, cfgs, db.cfgMap)
    ensures r.Some? ==> r.value == IDsOf(md5, prefix, cfgs) && Present(md5, uuid, prefix, cfgs, db.cfgMap)
    ensures Hashed(md5, old(db.cfgMap)) ==> Hashed(md5, db.cfgMap)
    ensures NewContents(md5, uuid, prefix, cfgs, old(db.cfgMap), db.cfgMap)
    ensures db.reliable ==> r.Some?
  {
    hide FileID, IsInit, OnlyOwn, Consistent, Present, DistinctIDs, Grown, Hashed, NewContents;
    var configs: seq<ConfigID> := [];
    ghost var before := db.cfgMap;
    NothingYet(md5, uuid, prefix, cfgs, before);
    for i := 0 to |cfgs|
      invariant db.Valid() && db.Contents() == old(db.Contents()).(configs := db.cfgMap)
      invariant OnlyOwn(md5, uuid, prefix, cfgs, before, db.cfgMap)
      invariant Consistent(md5, uuid, prefix, cfgs, before) ==> Grown(before, db.cfgMap) && Consistent(md5, uuid, prefix, cfgs, db.cfgMap)
      invariant configs == IDsOf(md5, prefix, cfgs[..i]) && Present(md5, uuid, prefix, cfgs[..i], db.cfgMap)
      invariant Hashed(md5, before) ==> Hashed(md5, db.cfgMap)
      invariant NewContents(md5, uuid, prefix, cfgs, before, db.cfgMap)
    {
      ghost var files := db.cfgMap;
      var now := *;
      var config := CheckAndCreateOne(db, md5, uuid, prefix, cfgs[i], now);
      OneMore(md5, uuid, prefix, cfgs, i, before, files, db.cfgMap);
      OneMoreContent(md5, uuid, prefix, cfgs, i, before, files, db.cfgMap);
      if config.None? {
        return None;
      }
      OnePresent(md5, uuid, prefix, cfgs, i, files, db.cfgMap);
      configs := configs + [config.value];
      assert configs == IDsOf(md5, prefix, cfgs[..i + 1]);
    }
    assert cfgs[..|cfgs|] == cfgs;
    r := Some(configs);
  }

  lemma NothingYet(md5: string -> string, uuid: string, prefix: string, cfgs: seq<ConfigFileContent>, files: map<Key, ConfigFile>)
    ensures OnlyOwn(md5, uuid, prefix, cfgs, files, files) && Grown(files, files) && Present(md5, uuid, prefix, cfgs[..0], files)
    ensures NewContents(md5, uuid, prefix, cfgs, files, files)
  {
  }

  /** After one more file. */
  lemma OneMore(md5: string -> string, uuid: string, prefix: string, cfgs: seq<ConfigFileContent>, i: nat,
                before: map<Key, ConfigFile>, files: map<Key, ConfigFile>, after: map<Key, ConfigFile>)
    requires i < |cfgs| && DistinctIDs(md5, prefix, cfgs)
    requires OnlyOwn(md5, uuid, prefix, cfgs, before, files) && OnlyOwn(md5, uuid, prefix, [cfgs[i]], files, after)
    requires Consistent(md5, uuid, prefix, [cfgs[i]], files) ==> Grown(files, after) && Consistent(md5, uuid, prefix, [cfgs[i]], after)
    requires Consistent(md5, uuid, prefix, cfgs, before) ==> Grown(before, files) && Consistent(md5, uuid, prefix, cfgs, files)
    ensures OnlyOwn(md5, uuid, prefix, cfgs, before, after)
    ensures Consistent(md5, uuid, prefix, cfgs, before) ==> Grown(before, after) && Consistent(md5, uuid, prefix, cfgs, after)
  {
    hide FileID, IsInit;
    var c := cfgs[i];
    assert [c][0] == c;
    assert forall k :: IsKey(md5, uuid, prefix, [c], k) ==> IsKey(md5, uuid, prefix, cfgs, k);
    if Consistent(md5, uuid, prefix, cfgs, before) {
      assert Consistent(md5, uuid, prefix, [c], files);
      forall j | 0 <= j < |cfgs| && (uuid, FileID(md5, prefix, cfgs[j].fileName)) in after
        ensures IsInit(md5, uuid, prefix, cfgs[j], after[(uuid, FileID(md5, prefix, cfgs[j].fileName))])
      {
        if j != i { assert !IsKey(md5, uuid, prefix, [c], (uuid, FileID(md5, prefix, cfgs[j].fileName))); }
      }
    }
  }

  lemma OneMoreContent(md5: string -> string, uuid: string, prefix: string, cfgs: seq<ConfigFileContent>, i: nat,
                       before: map<Key, ConfigFile>, files: map<Key, ConfigFile>, after: map<Key, ConfigFile>)
    requires i < |cfgs| && DistinctIDs(md5, prefix, cfgs)
    requires NewContents(md5, uuid, prefix, cfgs, before, files) && NewContents(md5, uuid, prefix, [cfgs[i]], files, after)
    requires OnlyOwn(md5, uuid, prefix, [cfgs[i]], files, after)
    ensures NewContents(md5, uuid, prefix, cfgs, before, after)
  {
    hide FileID;
    assert [cfgs[i]][0] == cfgs[i];
    forall j | 0 <= j < |cfgs| && j != i
      ensures !IsKey(md5, uuid, prefix, [cfgs[i]], (uuid, FileID(md5, prefix, cfgs[j].fileName)))
    {
      assert FileID(md5, prefix, cfgs[j].fileName) != FileID(md5, prefix, cfgs[i].fileName);
    }
  }

  lemma OnePresent(md5: string -> string, uuid: string, prefix: string, cfgs: seq<ConfigFileContent>, i: nat,
                   files: map<Key, ConfigFile>, after: map<Key, ConfigFile>)
    requires i < |cfgs| && DistinctIDs(md5, prefix, cfgs)
    requires OnlyOwn(md5, uuid, prefix, [cfgs[i]], files, after)
    requires Present(md5, uuid, prefix, cfgs[..i], files) && Present(md5, uuid, prefix, [cfgs[i]], after)
    ensures Present(md5, uuid, prefix, cfgs[..i + 1], after)
  {
    hide FileID, IsInit;
    assert [cfgs[i]][0] == cfgs[i];
    forall j | 0 <= j < i
      ensures var key := (uuid, FileID(md5, prefix, cfgs[j].fileName)); key in after && IsInit(md5, uuid, prefix, cfgs[j], after[key])
    {
      assert cfgs[..i][j] == cfgs[j];
      assert !IsKey(md5, uuid, prefix, [cfgs[i]], (uuid, FileID(md5, prefix, cfgs[j].fileName)));
    }
  }
}
