/**
 The service.conf text of the Redis catalog service: printing it, updating it in place by
 first-substring replacement, and parsing it (catalog/redis/rediscatalog.go).
 */
module RedisConfig {
  import opened Text

  datatype Options = Options(
    shards: int,
    replicasPerShard: int,
    memoryCacheMB: int,
    disableAOF: bool,
    authPass: string,
    replTimeoutSecs: int,
    maxMemPolicy: string,
    configCmdName: string)

  const ZERO := Options(0, 0, 0, false, "", 0, "", "")

  /** A requested change: 0, the empty string and None mean "no change". */
  datatype Update = Update(
    memoryCacheMB: int,
    authPass: string,
    replTimeoutSecs: int,
    maxMemPolicy: string,
    configCmdName: Option<string>)

  datatype ParseError = BadNumber | BadBool | IndexOutOfRange

  datatype Result<+T> = Ok(value: T) | Err(error: ParseError)

  const MIN_CLUSTER_SHARDS := 3

  predicate IsClusterMode(shards: int) { shards >= MIN_CLUSTER_SHARDS }

  // ---------------------------------------------------------------- printing

  /** One KEY=value line. */
  datatype Setting = Setting(key: string, value: string) {
    function Line(): string { key + "=" + value }
  }

  function FormatBool(b: bool): string { if b then "true" else "false" }

  function Settings(platform: string, o: Options): (ss: seq<Setting>)
    ensures |ss| == 10
  {
    [Setting("PLATFORM", platform),
     Setting("SHARDS", FormatInt(o.shards)),
     Setting("REPLICAS_PERSHARD", FormatInt(o.replicasPerShard)),
     Setting("MEMORY_CACHE_MB", FormatInt(o.memoryCacheMB)),
     Setting("DISABLE_AOF", FormatBool(o.disableAOF)),
     Setting("AUTH_PASS", o.authPass),
     Setting("ENABLE_AUTH", if IsClusterMode(o.shards) then "false" else "true"),
     Setting("REPL_TIMEOUT_SECS", FormatInt(o.replTimeoutSecs)),
     Setting("MAX_MEMORY_POLICY", o.maxMemPolicy),
     Setting("CONFIG_CMD_NAME", o.configCmdName)]
  }

  function Lines(ss: seq<Setting>): (lines: seq<string>)
    ensures |lines| == |ss|
  {
    if ss == [] then [] else [ss[0].Line()] + Lines(ss[1..])
  }

  /** The content of service.conf: the template starts and ends with a line break. */
  function GenServiceConf(platform: string, o: Options): string {
    Join([""] + Lines(Settings(platform, o)) + [""], '\n')
  }

  // ---------------------------------------------------------------- updating

  /** The keys that the switch statements of updating and parsing recognise. */
  datatype Key =
    | Shards | ReplicasPerShard | MemoryCacheMB | DisableAOF | AuthPass
    | ReplTimeoutSecs | MaxMemPolicy | ConfigCmdName | Other

  function KeyOf(key: string): Key {
    if key == "SHARDS" then Shards
    else if key == "REPLICAS_PERSHARD" then ReplicasPerShard
    else if key == "MEMORY_CACHE_MB" then MemoryCacheMB
    else if key == "DISABLE_AOF" then DisableAOF
    else if key == "AUTH_PASS" then AuthPass
    else if key == "REPL_TIMEOUT_SECS" then ReplTimeoutSecs
    else if key == "MAX_MEMORY_POLICY" then MaxMemPolicy
    else if key == "CONFIG_CMD_NAME" then ConfigCmdName
    else Other
  }

  function NewValue(key: Key, u: Update): Option<string> {
    match key
    case AuthPass => if u.authPass != "" then Some(u.authPass) else None
    case MemoryCacheMB => if u.memoryCacheMB != 0 then Some(FormatInt(u.memoryCacheMB)) else None
    case ReplTimeoutSecs => if u.replTimeoutSecs != 0 then Some(FormatInt(u.replTimeoutSecs)) else None
    case MaxMemPolicy => if u.maxMemPolicy != "" then Some(u.maxMemPolicy) else None
    case ConfigCmdName => u.configCmdName
    case _ => None
  }

  /** Replacing, in the order of lines, each line that the update changes. */
  function ReplaceLines(content: string, lines: seq<string>, u: Update): string
    decreases |lines|
  {
    if lines == [] then content
    else
      var key := Split(lines[0], '=')[0];
      var next := match NewValue(KeyOf(key), u)
        case Some(v) => ReplaceFirst(content, lines[0], key + "=" + v)
        case None => content;
      ReplaceLines(next, lines[1..], u)
  }

  method UpdateServiceConfigs(oldContent: string, u: Update) returns (content: string)
    ensures content == ReplaceLines(oldContent, Split(oldContent, '\n'), u)
  {
    content := oldContent;
    var lines := Split(oldContent, '\n');
    for i := 0 to |lines|
      invariant ReplaceLines(content, lines[i..], u) == ReplaceLines(oldContent, lines, u)
    {
      var line := lines[i];
      var key := Split(line, '=')[0];
      assert lines[i..][0] == line && lines[i..][1..] == lines[i + 1..];
      match KeyOf(key) {
        case AuthPass =>
          if u.authPass != "" {
            content := ReplaceFirst(content, line, key + "=" + u.authPass);
          }
        case MemoryCacheMB =>
          if u.memoryCacheMB != 0 {
            content := ReplaceFirst(content, line, key + "=" + FormatInt(u.memoryCacheMB));
          }
        case ReplTimeoutSecs =>
          if u.replTimeoutSecs != 0 {
            content := ReplaceFirst(content, line, key + "=" + FormatInt(u.replTimeoutSecs));
          }
        case MaxMemPolicy =>
          if u.maxMemPolicy != "" {
            content := ReplaceFirst(content, line, key + "=" + u.maxMemPolicy);
          }
        case ConfigCmdName =>
          if u.configCmdName.Some? {
            content := ReplaceFirst(content, line, key + "=" + u.configCmdName.value);
          }
        case _ =>
      }
    }
    assert lines[|lines|..] == [];
  }

  // ---------------------------------------------------------------- parsing

  /** strconv.ParseBool */
  function ParseBool(s: string): Option<bool> {
    if s in ["1", "t", "T", "TRUE", "true", "True"] then Some(true)
    else if s in ["0", "f", "F", "FALSE", "false", "False"] then Some(false)
    else None
  }

  function SetNumber(key: Key, n: int, o: Options): Options {
    match key
    case Shards => o.(shards := n)
    case ReplicasPerShard => o.(replicasPerShard := n)
    case MemoryCacheMB => o.(memoryCacheMB := n)
    case _ => o.(replTimeoutSecs := n)
  }

  /** The value of a recognised key. */
  function ParseValue(key: Key, value: string, o: Options): Result<Options> {
    match key
    case Other => Ok(o)
    case AuthPass => Ok(o.(authPass := value))
    case MaxMemPolicy => Ok(o.(maxMemPolicy := value))
    case ConfigCmdName => Ok(o.(configCmdName := value))
    case DisableAOF => (match ParseBool(value)
                        case Some(b) => Ok(o.(disableAOF := b))
                        case None => Err(BadBool))
    case _ => (match ParseInt(value)
               case Some(n) => Ok(SetNumber(key, n, o))
               case None => Err(BadNumber))
  }

  /** One line; reading the second field of a recognised line without '=' is an index error. */
  function ParseLine(line: string, o: Options): Result<Options> {
    var fields := Split(line, '=');
    var key := KeyOf(fields[0]);
    if key == Other then Ok(o)
    else if |fields| < 2 then Err(IndexOutOfRange)
    else ParseValue(key, fields[1], o)
  }

  function ParseLines(lines: seq<string>, o: Options): Result<Options> {
    if lines == [] then Ok(o)
    else match ParseLine(lines[0], o)
      case Ok(o') => ParseLines(lines[1..], o')
      case Err(e) => Err(e)
  }

  function Parsed(content: string): Result<Options> { ParseLines(Split(content, '\n'), ZERO) }

  method ParseServiceConfigs(content: string) returns (r: Result<Options>)
    ensures r == Parsed(content)
  {
    var opts := ZERO;
    var lines := Split(content, '\n');
    for i := 0 to |lines|
      invariant ParseLines(lines[i..], opts) == Parsed(content)
    {
      var line := lines[i];
      assert lines[i..][0] == line && lines[i..][1..] == lines[i + 1..];
      var step := ParseLine(line, opts);
      match step {
        case Ok(o) => opts := o;
        case Err(e) => return Err(e);
      }
    }
    assert lines[|lines|..] == [];
    r := Ok(opts);
  }

  // ---------------------------------------------------------------- the triangle

  ghost predicate CleanText(s: string) { '=' !in s && '\n' !in s }

  /** The text options carry neither '=' nor a line break. */
  ghost predicate Clean(o: Options) {
    CleanText(o.authPass) && CleanText(o.maxMemPolicy) && CleanText(o.configCmdName)
  }

  ghost predicate CleanUpdate(u: Update) {
    CleanText(u.authPass) && CleanText(u.maxMemPolicy) && (u.configCmdName.Some? ==> CleanText(u.configCmdName.value))
  }

  ghost predicate Int64(n: int) { MIN_INT64 <= n <= MAX_INT64 }

  ghost predicate InRange(o: Options) {
    Int64(o.shards) && Int64(o.replicasPerShard) && Int64(o.memoryCacheMB) && Int64(o.replTimeoutSecs)
  }

  ghost function Override(o: Options, u: Update): Options {
    o.(memoryCacheMB := if u.memoryCacheMB != 0 then u.memoryCacheMB else o.memoryCacheMB,
       authPass := if u.authPass != "" then u.authPass else o.authPass,
       replTimeoutSecs := if u.replTimeoutSecs != 0 then u.replTimeoutSecs else o.replTimeoutSecs,
       maxMemPolicy := if u.maxMemPolicy != "" then u.maxMemPolicy else o.maxMemPolicy,
       configCmdName := if u.configCmdName.Some? then u.configCmdName.value else o.configCmdName)
  }

  ghost predicate CleanSetting(s: Setting) {
    CleanText(s.key) && CleanText(s.value)
  }

  /** No key ends with another key. */
  ghost predicate SuffixFree(a: string, b: string) {
    |b| <= |a| ==> a[|a| - |b|..] != b
  }

  lemma SettingFields(s: Setting)
    requires CleanSetting(s)
    ensures Split(s.Line(), '=') == [s.key, s.value]
  {
    SplitJoin([s.key, s.value], '=');
    assert Join([s.key, s.value], '=') == s.Line();
  }

  /** An occurrence lines up the two '=' signs. */
  lemma OccurrenceIsSuffix(a: Setting, b: Setting, p: nat)
    requires CleanSetting(a) && CleanSetting(b)
    requires OccursAt(a.Line(), b.Line(), p)
    ensures !SuffixFree(a.key, b.key)
  {
    var la, lb := a.Line(), b.Line();
    assert forall k :: 0 <= k < |la| && k != |a.key| ==> la[k] != '=';
    var w := la[p..p + |lb|];
    assert w == lb && lb[|b.key|] == '=';
    assert la[p + |b.key|] == w[|b.key|];
    assert p + |b.key| == |a.key|;
    assert a.key[p..] == la[p..|a.key|] == w[..|b.key|];
    assert lb[..|b.key|] == b.key;
  }

  /** The line of one setting does not occur inside the line of a setting with another key. */
  lemma NoForeignOccurrence(a: Setting, b: Setting)
    requires CleanSetting(a) && CleanSetting(b)
    requires SuffixFree(a.key, b.key)
    ensures !Occurs(a.Line(), b.Line())
  {
    forall p: nat ensures !OccursAt(a.Line(), b.Line(), p) {
      if OccursAt(a.Line(), b.Line(), p) {
        OccurrenceIsSuffix(a, b, p);
        assert false;
      }
    }
  }

  /** Clean settings, no key of which ends with a later one. */
  ghost predicate WellFormed(ss: seq<Setting>) {
    ss != [] ==>
      && CleanSetting(ss[0])
      && (forall j :: 1 <= j < |ss| ==> SuffixFree(ss[0].key, ss[j].key))
      && WellFormed(ss[1..])
  }

  ghost function UpdateSetting(s: Setting, u: Update): Setting {
    match NewValue(KeyOf(s.key), u)
    case Some(v) => Setting(s.key, v)
    case None => s
  }

  ghost function UpdateSettings(ss: seq<Setting>, u: Update): seq<Setting> {
    if ss == [] then [] else [UpdateSetting(ss[0], u)] + UpdateSettings(ss[1..], u)
  }

  lemma UpdatedIsClean(s: Setting, u: Update)
    requires CleanSetting(s) && CleanUpdate(u)
    ensures CleanSetting(UpdateSetting(s, u))
  {
    DecimalChars(u.memoryCacheMB, '=');
    DecimalChars(u.memoryCacheMB, '\n');
    DecimalChars(u.replTimeoutSecs, '=');
    DecimalChars(u.replTimeoutSecs, '\n');
  }

  lemma {:induction false} LinesAreFree(ss: seq<Setting>)
    requires WellFormed(ss)
    ensures Free(Lines(ss), '\n')
  {
    if ss != [] { LinesAreFree(ss[1..]); }
  }

  ghost predicate NoneOccurs(done: seq<string>, line: string) {
    forall d :: 0 <= d < |done| ==> !Occurs(done[d], line)
  }

  /** The lines before the current one are done and none of them contains a line still to come. */
  lemma {:induction false} UpdateFrom(done: seq<string>, ss: seq<Setting>, u: Update)
    requires WellFormed(ss) && CleanUpdate(u)
    requires forall j :: 0 <= j < |ss| ==> NoneOccurs(done, ss[j].Line())
    ensures ReplaceLines(Join(done + Lines(ss) + [""], '\n'), Lines(ss) + [""], u)
            == Join(done + Lines(UpdateSettings(ss, u)) + [""], '\n')
    decreases |ss|
  {
    if ss == [] {
      assert Split("", '=') == [""];
      var last: seq<string> := [""];
      assert last[1..] == [];
      assert Lines(ss) + [""] == last;
      assert done + Lines(ss) + [""] == done + Lines(UpdateSettings(ss, u)) + [""];
    } else {
      var s, more := ss[0], ss[1..];
      var l' := UpdateSetting(s, u).Line();
      var rest := Lines(more) + [""];
      UpdateOne(done, s, rest, u);
      StillNoneOccurs(done, ss, u);
      UpdateFrom(done + [l'], more, u);
      Shape(done, s.Line(), Lines(more));
      Shape(done, l', Lines(more));
      Shape(done, l', Lines(UpdateSettings(more, u)));
      ReplaceLinesStep(Join(done + [s.Line()] + rest, '\n'), s, rest, u);
    }
  }

  lemma Shape(done: seq<string>, line: string, lines: seq<string>)
    ensures [line] + lines + [""] == [line] + (lines + [""])
    ensures done + ([line] + lines) + [""] == done + [line] + (lines + [""]) == (done + [line]) + lines + [""]
  {
  }

  lemma ReplaceLinesStep(content: string, s: Setting, rest: seq<string>, u: Update)
    requires CleanSetting(s)
    ensures ReplaceLines(content, [s.Line()] + rest, u) ==
            ReplaceLines(match NewValue(KeyOf(s.key), u)
                         case Some(v) => ReplaceFirst(content, s.Line(), s.key + "=" + v)
                         case None => content,
                         rest, u)
  {
    SettingFields(s);
    assert ([s.Line()] + rest)[1..] == rest;
  }

  lemma UpdateOne(done: seq<string>, s: Setting, rest: seq<string>, u: Update)
    requires CleanSetting(s) && NoneOccurs(done, s.Line())
    ensures (match NewValue(KeyOf(s.key), u)
             case Some(v) => ReplaceFirst(Join(done + [s.Line()] + rest, '\n'), s.Line(), s.key + "=" + v)
             case None => Join(done + [s.Line()] + rest, '\n'))
            == Join(done + [UpdateSetting(s, u).Line()] + rest, '\n')
  {
    var lines := done + [s.Line()] + rest;
    var new_ := UpdateSetting(s, u).Line();
    if NewValue(KeyOf(s.key), u).Some? {
      assert forall i :: 0 <= i < |done| ==> lines[i] == done[i];
      ReplaceLine(lines, |done|, '\n', new_);
      assert lines[|done| := new_] == done + [new_] + rest;
    }
  }

  lemma StillNoneOccurs(done: seq<string>, ss: seq<Setting>, u: Update)
    requires WellFormed(ss) && CleanUpdate(u) && ss != []
    requires forall j :: 0 <= j < |ss| ==> NoneOccurs(done, ss[j].Line())
    ensures var rest := ss[1..];
            forall j :: 0 <= j < |rest| ==> NoneOccurs(done + [UpdateSetting(ss[0], u).Line()], rest[j].Line())
  {
    var rest, s' := ss[1..], UpdateSetting(ss[0], u);
    assert s'.key == ss[0].key;
    hide Occurs, CleanText, SuffixFree, KeyOf, NewValue, UpdateSetting;
    UpdatedIsClean(ss[0], u);
    forall j | 0 <= j < |rest| ensures NoneOccurs(done + [s'.Line()], rest[j].Line()) {
      assert rest[j] == ss[j + 1];
      assert NoneOccurs(done, ss[j + 1].Line());
      CleanAt(ss, j + 1);
      NoForeignOccurrence(s', ss[j + 1]);
    }
  }

  lemma {:induction false} CleanAt(ss: seq<Setting>, j: nat)
    requires WellFormed(ss) && j < |ss|
    ensures CleanSetting(ss[j])
  {
    if j > 0 { CleanAt(ss[1..], j - 1); }
  }

  /** The text of the settings, between the two line breaks of the template. */
  ghost function Text_(ss: seq<Setting>): string {
    Join([""] + Lines(ss) + [""], '\n')
  }

  lemma SplitText(ss: seq<Setting>)
    requires WellFormed(ss)
    ensures Split(Text_(ss), '\n') == [""] + (Lines(ss) + [""])
  {
    LinesAreFree(ss);
    SplitJoin([""] + Lines(ss) + [""], '\n');
  }

  /** Updating the printed settings in place is printing the updated settings. */
  lemma UpdateIsPointwise(ss: seq<Setting>, u: Update)
    requires WellFormed(ss) && CleanUpdate(u)
    ensures ReplaceLines(Text_(ss), Split(Text_(ss), '\n'), u) == Text_(UpdateSettings(ss, u))
  {
    SplitText(ss);
    var tail := Lines(ss) + [""];
    assert Split("", '=') == [""];
    assert ([""] + tail)[1..] == tail;
    forall j | 0 <= j < |ss| ensures NoneOccurs([""], ss[j].Line()) {
      assert forall p: nat :: !OccursAt("", ss[j].Line(), p);
    }
    UpdateFrom([""], ss, u);
  }

  ghost function Tail(s: string): (char, char)
    requires |s| >= 2
  {
    (s[|s| - 2], s[|s| - 1])
  }

  lemma OtherTail(a: string, b: string)
    requires |a| >= 2 && |b| >= 2 && Tail(a) != Tail(b)
    ensures SuffixFree(a, b)
  {
    assert |b| <= |a| ==> Tail(a[|a| - |b|..]) == Tail(a);
  }

  ghost function KeyTail(i: nat): (char, char) {
    if i == 0 then ('R', 'M') else if i == 1 then ('D', 'S') else if i == 2 then ('R', 'D')
    else if i == 3 then ('M', 'B') else if i == 4 then ('O', 'F') else if i == 5 then ('S', 'S')
    else if i == 6 then ('T', 'H') else if i == 7 then ('C', 'S') else if i == 8 then ('C', 'Y') else ('M', 'E')
  }

  lemma TailOfKey(platform: string, o: Options, i: nat)
    requires i < 10
    ensures var key := Settings(platform, o)[i].key; |key| >= 2 && Tail(key) == KeyTail(i)
  {
  }

  lemma KeysAreSuffixFree(platform: string, o: Options)
    ensures var ss := Settings(platform, o);
            forall i, j :: 0 <= i < j < |ss| ==> SuffixFree(ss[i].key, ss[j].key)
  {
    var ss := Settings(platform, o);
    forall i, j | 0 <= i < j < 10 ensures SuffixFree(ss[i].key, ss[j].key) {
      TailOfKey(platform, o, i);
      TailOfKey(platform, o, j);
      OtherTail(ss[i].key, ss[j].key);
    }
  }

  lemma {:induction false} WellFormedFrom(ss: seq<Setting>, k: nat)
    requires k <= |ss|
    requires forall i :: 0 <= i < |ss| ==> CleanSetting(ss[i])
    requires forall i, j :: 0 <= i < j < |ss| ==> SuffixFree(ss[i].key, ss[j].key)
    ensures WellFormed(ss[k..])
    decreases |ss| - k
  {
    if k < |ss| {
      WellFormedFrom(ss, k + 1);
      assert ss[k..][1..] == ss[k + 1..];
    }
  }

  lemma FirstKeyLiterals()
    ensures CleanText("PLATFORM")
    ensures CleanText("SHARDS")
    ensures CleanText("REPLICAS_PERSHARD")
  {
  }

  lemma MiddleKeyLiterals()
    ensures CleanText("MEMORY_CACHE_MB")
    ensures CleanText("DISABLE_AOF")
    ensures CleanText("AUTH_PASS")
    ensures CleanText("ENABLE_AUTH")
  {
  }

  lemma LastKeyLiterals()
    ensures CleanText("REPL_TIMEOUT_SECS")
    ensures CleanText("MAX_MEMORY_POLICY")
    ensures CleanText("CONFIG_CMD_NAME")
  {
  }

  lemma KeyIsClean(platform: string, o: Options, i: nat)
    requires i < 10
    ensures CleanText(Settings(platform, o)[i].key)
  {
    FirstKeyLiterals();
    MiddleKeyLiterals();
    LastKeyLiterals();
  }

  lemma NumberIsClean(n: int)
    ensures CleanText(FormatInt(n))
  {
    DecimalChars(n, '=');
    DecimalChars(n, '\n');
  }

  lemma ValueIsClean(platform: string, o: Options, i: nat)
    requires Clean(o) && CleanText(platform) && i < 10
    ensures CleanText(Settings(platform, o)[i].value)
  {
    NumberIsClean(o.shards);
    NumberIsClean(o.replicasPerShard);
    NumberIsClean(o.memoryCacheMB);
    NumberIsClean(o.replTimeoutSecs);
  }

  lemma SettingsAreWellFormed(platform: string, o: Options)
    requires Clean(o) && CleanText(platform)
    ensures WellFormed(Settings(platform, o))
  {
    var ss := Settings(platform, o);
    forall i | 0 <= i < 10 ensures CleanSetting(ss[i]) {
      KeyIsClean(platform, o, i);
      ValueIsClean(platform, o, i);
    }
    KeysAreSuffixFree(platform, o);
    WellFormedFrom(ss, 0);
    assert ss[0..] == ss;
  }

  /** Each printed setting is read back by one parsing step. */
  lemma ParseSettingLine(s: Setting, o: Options)
    requires CleanSetting(s)
    ensures ParseLine(s.Line(), o) == ParseValue(KeyOf(s.key), s.value, o)
  {
    SettingFields(s);
  }

  /** Parsing settings one by one, as ParseLines does on their lines. */
  ghost function ParseSettings(ss: seq<Setting>, o: Options): Result<Options> {
    if ss == [] then Ok(o)
    else match ParseValue(KeyOf(ss[0].key), ss[0].value, o)
      case Ok(o') => ParseSettings(ss[1..], o')
      case Err(e) => Err(e)
  }

  lemma {:induction false} ParseEachLine(ss: seq<Setting>, o: Options)
    requires WellFormed(ss)
    ensures ParseLines(Lines(ss) + [""], o) == ParseSettings(ss, o)
  {
    var lines := Lines(ss) + [""];
    if ss == [] {
      assert Split("", '=') == [""];
      assert lines[1..] == [];
    } else {
      assert lines[0] == ss[0].Line() && lines[1..] == Lines(ss[1..]) + [""];
      ParseSettingLine(ss[0], o);
      match ParseLine(lines[0], o)
      case Ok(o') => ParseEachLine(ss[1..], o');
      case Err(_) =>
    }
  }

  lemma ParsePrinted(ss: seq<Setting>)
    requires WellFormed(ss)
    ensures Parsed(Text_(ss)) == ParseSettings(ss, ZERO)
  {
    SplitText(ss);
    var tail := Lines(ss) + [""];
    assert Split("", '=') == [""];
    assert ([""] + tail)[1..] == tail;
    ParseEachLine(ss, ZERO);
  }

  ghost function KeyAt(i: nat): Key {
    if i == 1 then Shards else if i == 2 then ReplicasPerShard else if i == 3 then MemoryCacheMB
    else if i == 4 then DisableAOF else if i == 5 then AuthPass else if i == 7 then ReplTimeoutSecs
    else if i == 8 then MaxMemPolicy else if i == 9 then ConfigCmdName else Other
  }

  lemma KeyOfSetting(platform: string, o: Options, i: nat)
    requires i < 10
    ensures KeyOf(Settings(platform, o)[i].key) == KeyAt(i)
  {
  }

  /** The options known after the first i settings. */
  ghost function Upto(o: Options, i: nat): Options {
    Options(if i > 1 then o.shards else 0,
            if i > 2 then o.replicasPerShard else 0,
            if i > 3 then o.memoryCacheMB else 0,
            if i > 4 then o.disableAOF else false,
            if i > 5 then o.authPass else "",
            if i > 7 then o.replTimeoutSecs else 0,
            if i > 8 then o.maxMemPolicy else "",
            if i > 9 then o.configCmdName else "")
  }

  lemma ParseNumberBack(key: Key, n: int, o: Options)
    requires Int64(n) && key in {Shards, ReplicasPerShard, MemoryCacheMB, ReplTimeoutSecs}
    ensures ParseValue(key, FormatInt(n), o) == Ok(SetNumber(key, n, o))
  {
    ParseFormat(n);
  }

  lemma ParseBoolBack(b: bool, o: Options)
    ensures ParseValue(DisableAOF, FormatBool(b), o) == Ok(o.(disableAOF := b))
  {
  }

  ghost function ValueAt(platform: string, o: Options, i: nat): string {
    if i == 0 then platform else if i == 1 then FormatInt(o.shards)
    else if i == 2 then FormatInt(o.replicasPerShard) else if i == 3 then FormatInt(o.memoryCacheMB)
    else if i == 4 then FormatBool(o.disableAOF) else if i == 5 then o.authPass
    else if i == 6 then (if IsClusterMode(o.shards) then "false" else "true")
    else if i == 7 then FormatInt(o.replTimeoutSecs) else if i == 8 then o.maxMemPolicy else o.configCmdName
  }

  lemma ValueOfSetting(platform: string, o: Options, i: nat)
    requires i < 10
    ensures Settings(platform, o)[i].value == ValueAt(platform, o, i)
  {
  }

  lemma ParseStep(platform: string, o: Options, i: nat)
    requires i < 10 && InRange(o)
    ensures ParseValue(KeyAt(i), ValueAt(platform, o, i), Upto(o, i)) == Ok(Upto(o, i + 1))
  {
    var p := Upto(o, i);
    if i == 1 { ParseNumberBack(Shards, o.shards, p); }
    else if i == 2 { ParseNumberBack(ReplicasPerShard, o.replicasPerShard, p); }
    else if i == 3 { ParseNumberBack(MemoryCacheMB, o.memoryCacheMB, p); }
    else if i == 4 { ParseBoolBack(o.disableAOF, p); }
    else if i == 7 { ParseNumberBack(ReplTimeoutSecs, o.replTimeoutSecs, p); }
  }

  lemma {:induction false} ParseSettingsFrom(platform: string, o: Options, i: nat)
    requires i <= 10 && InRange(o)
    ensures ParseSettings(Settings(platform, o)[i..], Upto(o, i)) == Ok(o)
    decreases 10 - i
  {
    var ss := Settings(platform, o);
    if i == 10 {
      assert ss[10..] == [];
    } else {
      KeyOfSetting(platform, o, i);
      ValueOfSetting(platform, o, i);
      ParseStep(platform, o, i);
      ParseSettingsFrom(platform, o, i + 1);
      assert ss[i..][0] == ss[i] && ss[i..][1..] == ss[i + 1..];
    }
  }

  // A parsed text option has neither '=' nor a line break: it is a field of a line.

  lemma ParseValueKeepsClean(key: Key, value: string, o: Options)
    requires Clean(o) && CleanText(value)
    ensures var r := ParseValue(key, value, o); r.Ok? ==> Clean(r.value)
  {
  }

  lemma PieceOfPiece(s: string, c: char, d: char)
    requires d !in s
    ensures Free(Split(s, c), d)
  {
    forall i, j | 0 <= i < |Split(s, c)| && 0 <= j < |Split(s, c)[i]| ensures Split(s, c)[i][j] in s {
      PieceCharsOf(s, c, i, j);
    }
  }

  lemma {:induction false} PieceCharsOf(s: string, c: char, i: nat, j: nat)
    requires i < |Split(s, c)| && j < |Split(s, c)[i]|
    ensures Split(s, c)[i][j] in s
    decreases |s|
  {
    var k := Find(s, c);
    if k < |s| && i > 0 {
      PieceCharsOf(s[k + 1..], c, i - 1, j);
    }
  }

  lemma {:induction false} ParsedIsClean(lines: seq<string>, o: Options)
    requires Free(lines, '\n') && Clean(o)
    ensures var r := ParseLines(lines, o); r.Ok? ==> Clean(r.value)
  {
    if lines != [] {
      var fields := Split(lines[0], '=');
      SplitPieces(lines[0], '=');
      PieceOfPiece(lines[0], '=', '\n');
      if |fields| >= 2 { ParseValueKeepsClean(KeyOf(fields[0]), fields[1], o); }
      match ParseLine(lines[0], o)
      case Ok(o') => ParsedIsClean(lines[1..], o');
      case Err(_) =>
    }
  }

  // ---------------------------------------------------------------- results

  /** Printing and parsing back gives the options again exactly when the text options are clean. */
  lemma PrintParse(platform: string, o: Options)
    requires CleanText(platform) && InRange(o)
    ensures Parsed(GenServiceConf(platform, o)) == Ok(o) <==> Clean(o)
  {
    var content := GenServiceConf(platform, o);
    SplitPieces(content, '\n');
    ParsedIsClean(Split(content, '\n'), ZERO);
    if Clean(o) {
      var ss := Settings(platform, o);
      SettingsAreWellFormed(platform, o);
      ParsePrinted(ss);
      ParseSettingsFrom(platform, o, 0);
      assert ss[0..] == ss;
    }
  }

  lemma {:induction false} UpdatedSettingsAt(ss: seq<Setting>, u: Update, i: nat)
    requires i < |ss|
    ensures |UpdateSettings(ss, u)| == |ss| && UpdateSettings(ss, u)[i] == UpdateSetting(ss[i], u)
  {
    if i > 0 { UpdatedSettingsAt(ss[1..], u, i - 1); }
    else if |ss| > 1 { UpdatedSettingsAt(ss[1..], u, 0); }
  }

  lemma OverrideAt(platform: string, o: Options, u: Update, i: nat)
    requires i < 10
    ensures ValueAt(platform, Override(o, u), i)
            == match NewValue(KeyAt(i), u) case Some(v) => v case None => ValueAt(platform, o, i)
  {
  }

  lemma KeysDoNotDepend(platform: string, o: Options, o': Options, i: nat)
    requires i < 10
    ensures Settings(platform, o)[i].key == Settings(platform, o')[i].key
  {
  }

  lemma OverrideSetting(platform: string, o: Options, u: Update, i: nat)
    requires i < 10
    ensures UpdateSetting(Settings(platform, o)[i], u) == Settings(platform, Override(o, u))[i]
  {
    KeyOfSetting(platform, o, i);
    KeysDoNotDepend(platform, o, Override(o, u), i);
    ValueOfSetting(platform, o, i);
    ValueOfSetting(platform, Override(o, u), i);
    OverrideAt(platform, o, u, i);
  }

  /** Updating the settings one by one is printing the overridden options. */
  lemma OverrideIsPointwise(platform: string, o: Options, u: Update)
    ensures UpdateSettings(Settings(platform, o), u) == Settings(platform, Override(o, u))
  {
    var ss, ss' := Settings(platform, o), Settings(platform, Override(o, u));
    UpdatedSettingsAt(ss, u, 0);
    forall i | 0 <= i < 10 ensures UpdateSettings(ss, u)[i] == ss'[i] {
      UpdatedSettingsAt(ss, u, i);
      OverrideSetting(platform, o, u, i);
    }
  }

  /**
   The triangle: for clean options, updating the printed text in place and parsing it gives the
   options overridden by exactly the fields the update sets, if and only if the update is clean.
   */
  lemma UpdateParse(platform: string, o: Options, u: Update)
    requires CleanText(platform) && Clean(o)
    requires InRange(o) && InRange(Override(o, u))
    ensures var content := GenServiceConf(platform, o);
            Parsed(ReplaceLines(content, Split(content, '\n'), u)) == Ok(Override(o, u)) <==> CleanUpdate(u)
  {
    var content, ss := GenServiceConf(platform, o), Settings(platform, o);
    var updated := ReplaceLines(content, Split(content, '\n'), u);
    SplitPieces(updated, '\n');
    ParsedIsClean(Split(updated, '\n'), ZERO);
    if CleanUpdate(u) {
      SettingsAreWellFormed(platform, o);
      UpdateIsPointwise(ss, u);
      OverrideIsPointwise(platform, o, u);
      PrintParse(platform, Override(o, u));
      assert updated == GenServiceConf(platform, Override(o, u));
    }
  }

  // ---------------------------------------------------------------- what the container reads

  /** The value of the first line of the key. */
  function ValueIn(lines: seq<string>, key: string): Option<string> {
    if lines == [] then None
    else
      var fields := Split(lines[0], '=');
      if |fields| == 2 && fields[0] == key then Some(fields[1]) else ValueIn(lines[1..], key)
  }

  function ValueOf(content: string, key: string): Option<string> { ValueIn(Split(content, '\n'), key) }

  /** EnableRedisAuth: strings.Replace of the one line. */
  function EnableRedisAuth(content: string): string { ReplaceFirst(content, "ENABLE_AUTH=false", "ENABLE_AUTH=true") }

  lemma {:induction false} ValueInLines(ss: seq<Setting>, i: nat)
    requires WellFormed(ss) && i < |ss| && ss[i].key != "" && forall a, b :: 0 <= a < b < |ss| ==> ss[a].key != ss[b].key
    ensures ValueIn(Lines(ss) + [""], ss[i].key) == Some(ss[i].value)
  {
    var lines := Lines(ss) + [""];
    SettingFields(ss[0]);
    assert lines[0] == ss[0].Line() && lines[1..] == Lines(ss[1..]) + [""];
    if i > 0 { ValueInLines(ss[1..], i - 1); }
  }

  lemma ValueOfText(ss: seq<Setting>, i: nat)
    requires WellFormed(ss) && i < |ss| && ss[i].key != "" && forall a, b :: 0 <= a < b < |ss| ==> ss[a].key != ss[b].key
    ensures ValueOf(Text_(ss), ss[i].key) == Some(ss[i].value)
  {
    SplitText(ss);
    var tail := Lines(ss) + [""];
    assert Split("", '=') == [""];
    assert ([""] + tail)[1..] == tail;
    ValueInLines(ss, i);
  }

  lemma {:induction false} ParseSame(ss: seq<Setting>, ss': seq<Setting>, o: Options)
    requires |ss'| == |ss|
    requires forall i :: 0 <= i < |ss| ==> ss'[i].key == ss[i].key && (ss'[i].value == ss[i].value || KeyOf(ss[i].key) == Other)
    ensures ParseSettings(ss', o) == ParseSettings(ss, o)
  {
    if ss != [] {
      match ParseValue(KeyOf(ss[0].key), ss[0].value, o)
      case Ok(o') => ParseSame(ss[1..], ss'[1..], o');
      case Err(_) =>
    }
  }

  /** The settings with the authentication switched on. */
  ghost function Enabled(platform: string, o: Options): seq<Setting> { Settings(platform, o)[6 := Setting("ENABLE_AUTH", "true")] }

  lemma EnabledIsWellFormed(platform: string, o: Options)
    requires Clean(o) && CleanText(platform)
    ensures WellFormed(Enabled(platform, o))
    ensures forall a, b :: 0 <= a < b < 10 ==> Enabled(platform, o)[a].key != Enabled(platform, o)[b].key
  {
    var ss, on := Settings(platform, o), Enabled(platform, o);
    forall i | 0 <= i < 10 ensures CleanSetting(on[i]) && on[i].key == ss[i].key {
      KeyIsClean(platform, o, i);
      ValueIsClean(platform, o, i);
    }
    KeysAreSuffixFree(platform, o);
    hide Settings;
    forall i, j | 0 <= i < j < 10 ensures SuffixFree(on[i].key, on[j].key) { assert SuffixFree(ss[i].key, ss[j].key); }
    WellFormedFrom(on, 0);
    assert on[0..] == on;
  }

  lemma {:induction false} LinesAt(ss: seq<Setting>, i: nat)
    requires i < |ss|
    ensures Lines(ss)[i] == ss[i].Line()
  {
    if i > 0 { LinesAt(ss[1..], i - 1); }
  }

  /** No other line has the one that is replaced. */
  lemma OnlyAuthLine(platform: string, o: Options, i: nat)
    requires Clean(o) && CleanText(platform) && i < 10 && i != 6
    ensures !Occurs(Settings(platform, o)[i].Line(), "ENABLE_AUTH=false")
  {
    var s, auth := Settings(platform, o)[i], Setting("ENABLE_AUTH", "false");
    assert Settings(platform, o)[6].key == auth.key;
    hide Settings, CleanText, SuffixFree, Tail, KeyTail;
    KeyIsClean(platform, o, i);
    ValueIsClean(platform, o, i);
    TailOfKey(platform, o, i);
    TailOfKey(platform, o, 6);
    MiddleKeyLiterals();
    FalseIsClean();
    AuthLines();
    assert KeyTail(i) != KeyTail(6) by { TailsDiffer(i); }
    OtherTail(s.key, auth.key);
    NoForeignOccurrence(s, auth);
  }

  lemma FalseIsClean()
    ensures CleanText("false")
  {
  }

  lemma TailsDiffer(i: nat)
    requires i < 10 && i != 6
    ensures KeyTail(i) != KeyTail(6)
  {
  }

  lemma EnabledSettings(platform: string, o: Options)
    ensures var ss, on := Settings(platform, o), Enabled(platform, o);
            && ss[0] == on[0] == Setting("PLATFORM", platform) && GenServiceConf(platform, o) == Text_(ss)
            && ss[6] == Setting("ENABLE_AUTH", if o.shards >= 3 then "false" else "true") && on[6] == Setting("ENABLE_AUTH", "true")
            && forall i :: 0 <= i < 10 ==> on[i].key == ss[i].key && (on[i].value == ss[i].value || KeyOf(ss[i].key) == Other)
  {
    assert KeyOf("ENABLE_AUTH") == Other;
  }

  /** Switching the authentication on in the text is printing it switched on, and changes no option. */
  lemma EnableAuth(platform: string, o: Options)
    requires CleanText(platform) && Clean(o) && InRange(o)
    ensures var content := GenServiceConf(platform, o);
            && ValueOf(content, "ENABLE_AUTH") == Some(if o.shards >= 3 then "false" else "true")
            && ValueOf(EnableRedisAuth(content), "ENABLE_AUTH") == Some("true")
            && ValueOf(content, "PLATFORM") == Some(platform) && ValueOf(EnableRedisAuth(content), "PLATFORM") == Some(platform)
            && Parsed(EnableRedisAuth(content)) == Ok(o)
  {
    var ss, on := Settings(platform, o), Enabled(platform, o);
    ReplaceAuth(platform, o);
    SettingsAreWellFormed(platform, o);
    EnabledIsWellFormed(platform, o);
    EnabledSettings(platform, o);
    hide Settings, Enabled, WellFormed, Text_, EnableRedisAuth, ValueOf, Clean, InRange, KeyOf, Lines;
    forall a, b | 0 <= a < b < 10 ensures ss[a].key != ss[b].key { assert on[a].key != on[b].key; }
    ValueOfText(ss, 0);
    ValueOfText(ss, 6);
    ValueOfText(on, 0);
    ValueOfText(on, 6);
    ParsePrinted(on);
    ParseSame(ss, on, ZERO);
    ParseSettingsFrom(platform, o, 0);
    assert ss[0..] == ss;
  }

  lemma AuthLines()
    ensures Setting("ENABLE_AUTH", "false").Line() == "ENABLE_AUTH=false" && '\n' !in "ENABLE_AUTH=false"
    ensures Setting("ENABLE_AUTH", "true").Line() == "ENABLE_AUTH=true" && !Occurs("ENABLE_AUTH=true", "ENABLE_AUTH=false")
  {
    var on, off := "ENABLE_AUTH=true", "ENABLE_AUTH=false";
    assert |on| < |off|;
    forall p: nat ensures !OccursAt(on, off, p) {}
  }

  lemma NotInEmpty(s: string)
    requires s != ""
    ensures !Occurs("", s)
  {
    forall p: nat ensures !OccursAt("", s, p) {}
  }

  ghost function TextLinesOf(ss: seq<Setting>): (lines: seq<string>)
    ensures |lines| == |ss| + 2
  {
    [""] + Lines(ss) + [""]
  }

  lemma NotInOtherLine(platform: string, o: Options, k: nat)
    requires CleanText(platform) && Clean(o) && k < 12 && k != 7
    ensures !Occurs(TextLinesOf(Settings(platform, o))[k], "ENABLE_AUTH=false")
  {
    var ss := Settings(platform, o);
    if k == 0 || k == 11 {
      NotInEmpty("ENABLE_AUTH=false");
    } else {
      OnlyAuthLine(platform, o, k - 1);
      hide Settings;
      LinesAt(ss, k - 1);
    }
  }

  lemma AuthSetting(platform: string, o: Options)
    ensures Settings(platform, o)[6] == Setting("ENABLE_AUTH", if IsClusterMode(o.shards) then "false" else "true")
    ensures TextLinesOf(Settings(platform, o))[7] == if IsClusterMode(o.shards) then "ENABLE_AUTH=false" else "ENABLE_AUTH=true"
  {
    AuthLines();
    LinesAt(Settings(platform, o), 6);
  }

  lemma EnabledLines(platform: string, o: Options)
    ensures TextLinesOf(Enabled(platform, o)) == TextLinesOf(Settings(platform, o))[7 := "ENABLE_AUTH=true"]
  {
    var ss, on := Settings(platform, o), Enabled(platform, o);
    AuthLines();
    assert on[6] == Setting("ENABLE_AUTH", "true") && forall i :: 0 <= i < 10 && i != 6 ==> on[i] == ss[i];
    hide Settings, Enabled;
    forall i | 0 <= i < 10 ensures Lines(ss)[i] == ss[i].Line() && Lines(on)[i] == on[i].Line() {
      LinesAt(ss, i);
      LinesAt(on, i);
    }
  }

  lemma ReplaceAuth(platform: string, o: Options)
    requires CleanText(platform) && Clean(o)
    ensures EnableRedisAuth(Text_(Settings(platform, o))) == Text_(Enabled(platform, o))
  {
    var lines := TextLinesOf(Settings(platform, o));
    AuthLines();
    AuthSetting(platform, o);
    EnabledLines(platform, o);
    forall k | 0 <= k < 12 && k != 7 ensures !Occurs(lines[k], "ENABLE_AUTH=false") { NotInOtherLine(platform, o, k); }
    hide Settings, Enabled, Occurs, Lines;
    if IsClusterMode(o.shards) {
      ReplaceLine(lines, 7, '\n', "ENABLE_AUTH=true");
    } else {
      ReplaceInNoLine(lines, '\n', "ENABLE_AUTH=false", "ENABLE_AUTH=true");
      assert lines[7 := "ENABLE_AUTH=true"] == lines;
    }
  }
}
