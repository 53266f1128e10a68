/** The upgrade migration: configuration files, a database and worktrees copied from the old
    places to the new ones, retried until verified and safe against edits in between. */
module Migration {
  import opened Wrappers

  type Bytes = string

  datatype Item = Item(task: string, repo: string)

  datatype File = File(name: string, data: Bytes)

  datatype Worktree = Worktree(item: Item, data: Bytes)

  /** What git says about a worktree. */
  datatype Marker = Marker(head: string, status: string)

  datatype Conflict = ConfigConflict(name: string) | StoreConflict | FleetConflict(item: Item)

  datatype Mismatch =
    | ConfigDiffers(name: string) | ConfigUnlisted | ConfigInvisible(name: string)
    | StoreUncounted | RunsDiffer | PhasesDiffer | GitFails(item: Item) | GitDiffers(item: Item)

  /** An empty hash means the database was never produced here. */
  datatype Sentinel = Sentinel(verified: bool, conflicts: seq<Conflict>, mismatches: seq<Mismatch>,
                               storeHash: string, fleet: map<Item, Marker>)

  /** The sources as their directories list them, and the destinations by name. */
  datatype Disk = Disk(
    oldConfig: seq<File>, oldDb: Option<Bytes>, oldFleet: Option<seq<Worktree>>,
    newConfig: map<string, Bytes>, newDb: Option<Bytes>, newFleet: map<Item, Bytes>,
    sentinel: Option<Sentinel>)

  /** A copy that breaks leaves nothing, or something partial. */
  datatype Copy = Whole | Broken(left: Option<Bytes>)

  datatype Rows = Rows(runs: nat, phases: nat)

  /** What the outside answers during one run: file and SQLite operations, git, hashing. An
      open brings a database's schema up to date, or fails and leaves it as it then is. */
  datatype Env = Env(
    starts: bool,
    readable: string -> bool,
    copies: string -> Copy,
    hash: Bytes -> string,
    hashes: bool,
    vacuum: Bytes -> Option<Bytes>,
    moves: bool,
    opens: bool,
    upgraded: Bytes -> Bytes,
    rows: Bytes -> Option<Rows>,
    lists: string -> bool,
    trees: Item -> Copy,
    git: Bytes -> Option<Marker>,
    projects: bool,
    visible: string -> bool,
    saves: bool)

  const GLOBAL_CONFIG := "config.yaml"

  datatype ConfigResult = ConfigResult(migrated: seq<string>, conflicts: seq<Conflict>)

  datatype StoreResult = StoreResult(migrated: bool, conflict: bool, source: Rows, hash: string)

  datatype FleetResult = FleetResult(migrated: seq<Item>, conflicts: seq<Conflict>, state: map<Item, Marker>)

  const NO_STORE := StoreResult(false, false, Rows(0, 0), "")

  const STORE_CONFLICT := StoreResult(false, true, Rows(0, 0), "")

  /** A step of a run: the destinations after it, and its result unless it failed. */
  datatype Did<T> = Did(disk: Disk, result: Option<T>)

  // ---- the three copies

  function PutConfig(d: Disk, name: string, data: Bytes): Disk {
    d.(newConfig := d.newConfig[name := data])
  }

  function MigrateConfig(d: Disk, todo: seq<File>, env: Env, done: ConfigResult): Did<ConfigResult>
    decreases |todo|
  {
    if todo == [] then Did(d, Some(done))
    else
      var f := todo[0];
      if !env.readable(f.name) then Did(d, None)
      else if f.name in d.newConfig then
        MigrateConfig(d, todo[1..], env,
          if d.newConfig[f.name] == f.data then done.(migrated := done.migrated + [f.name])
          else done.(conflicts := done.conflicts + [ConfigConflict(f.name)]))
      else match env.copies(f.name)
        case Whole => MigrateConfig(PutConfig(d, f.name, f.data), todo[1..], env, done.(migrated := done.migrated + [f.name]))
        case Broken(left) => Did(if left.Some? then PutConfig(d, f.name, left.value) else d, None)
  }

  function Counted(d: Disk, source: Option<Rows>, hash: string): Did<StoreResult> {
    match source
    case None => Did(d, None)
    case Some(rows) => Did(d, Some(StoreResult(true, false, rows, hash)))
  }

  function MigrateStore(d: Disk, env: Env): Did<StoreResult> {
    if d.oldDb.None? then Did(d, Some(NO_STORE))
    else if d.newDb.Some? then Did(d, Some(STORE_CONFLICT))
    else
      var snapshot := env.vacuum(d.oldDb.value);
      if snapshot.None? || env.rows(snapshot.value).None? || !env.moves then Did(d, None)
      else
        var final := env.upgraded(snapshot.value);
        var d' := d.(newDb := Some(final));
        if !env.opens || !env.hashes then Did(d', None)
        else Did(d', Some(StoreResult(true, false, env.rows(snapshot.value).value, env.hash(final))))
  }

  function MigrateStoreRetryAware(d: Disk, prior: Option<Sentinel>, env: Env): Did<StoreResult> {
    if prior.Some? && prior.value.storeHash != "" && d.newDb.Some? then
      var current := env.hash(d.newDb.value);
      if !env.hashes then Did(d, None)
      else if current != prior.value.storeHash then Did(d, Some(STORE_CONFLICT))
      else if d.oldDb.None? then Counted(d, env.rows(d.newDb.value), current)
      else
        var snapshot := env.vacuum(d.oldDb.value);
        Counted(d, if snapshot.None? then None else env.rows(snapshot.value), current)
    else MigrateStore(d, env)
  }

  function MigrateFleet(d: Disk, todo: seq<Worktree>, prior: map<Item, Marker>, env: Env, done: FleetResult): Did<FleetResult>
    decreases |todo|
  {
    if todo == [] then Did(d, Some(done))
    else
      var w, rest := todo[0], todo[1..];
      if !env.lists(w.item.task) then Did(d, None)
      else if w.item in d.newFleet then
        if w.item in prior && env.git(d.newFleet[w.item]) == Some(prior[w.item]) then
          MigrateFleet(d, rest, prior, env,
            done.(migrated := done.migrated + [w.item], state := done.state[w.item := prior[w.item]]))
        else
          MigrateFleet(d, rest, prior, env,
            done.(conflicts := done.conflicts + [FleetConflict(w.item)], state := done.state - {w.item}))
      else match env.trees(w.item)
        case Broken(left) =>
          Did(if left.Some? then d.(newFleet := d.newFleet[w.item := left.value]) else d, None)
        case Whole =>
          var d' := d.(newFleet := d.newFleet[w.item := w.data]);
          match env.git(w.data)
          case None => Did(d', None)
          case Some(marker) =>
            MigrateFleet(d', rest, prior, env,
              done.(migrated := done.migrated + [w.item], state := done.state[w.item := marker]))
  }

  function PriorState(prior: Option<Sentinel>): map<Item, Marker> {
    if prior.Some? then prior.value.fleet else map[]
  }

  function MigrateFleetRetryAware(d: Disk, prior: Option<Sentinel>, env: Env): Did<FleetResult> {
    var state := PriorState(prior);
    match d.oldFleet
    case None => Did(d, Some(FleetResult([], [], state)))
    case Some(todo) => MigrateFleet(d, todo, state, env, FleetResult([], [], state))
  }

  // ---- verification, which reads everything again

  function SourceOf(files: seq<File>, name: string): Option<Bytes> {
    if files == [] then None
    else if files[0].name == name then Some(files[0].data)
    else SourceOf(files[1..], name)
  }

  function TreeOf(trees: seq<Worktree>, item: Item): Option<Bytes> {
    if trees == [] then None
    else if trees[0].item == item then Some(trees[0].data)
    else TreeOf(trees[1..], item)
  }

  predicate ConfigSame(d: Disk, name: string) {
    SourceOf(d.oldConfig, name).Some? && name in d.newConfig && d.newConfig[name] == SourceOf(d.oldConfig, name).value
  }

  function ConfigMismatches(d: Disk, migrated: seq<string>): seq<Mismatch> {
    if migrated == [] then []
    else (if ConfigSame(d, migrated[0]) then [] else [ConfigDiffers(migrated[0])]) + ConfigMismatches(d, migrated[1..])
  }

  function Invisible(migrated: seq<string>, env: Env): seq<Mismatch> {
    if migrated == [] then []
    else (if migrated[0] == GLOBAL_CONFIG || env.visible(migrated[0]) then [] else [ConfigInvisible(migrated[0])])
         + Invisible(migrated[1..], env)
  }

  function VerifyConfig(d: Disk, migrated: seq<string>, env: Env): seq<Mismatch> {
    if migrated == [] then []
    else ConfigMismatches(d, migrated) + if env.projects then Invisible(migrated, env) else [ConfigUnlisted]
  }

  function VerifyStore(d: Disk, r: StoreResult, env: Env): seq<Mismatch> {
    if !r.migrated then []
    else if d.newDb.None? || env.rows(d.newDb.value).None? then [StoreUncounted]
    else
      var rows := env.rows(d.newDb.value).value;
      (if rows.runs != r.source.runs then [RunsDiffer] else [])
      + (if rows.phases != r.source.phases then [PhasesDiffer] else [])
  }

  function TreeState(d: Disk, item: Item, env: Env): Option<Marker> {
    if d.oldFleet.None? then None
    else
      var tree := TreeOf(d.oldFleet.value, item);
      if tree.None? then None else env.git(tree.value)
  }

  function CopyState(d: Disk, item: Item, env: Env): Option<Marker> {
    if item in d.newFleet then env.git(d.newFleet[item]) else None
  }

  function FleetMismatch(d: Disk, item: Item, env: Env): seq<Mismatch> {
    var source, copy := TreeState(d, item, env), CopyState(d, item, env);
    if source.None? || copy.None? then [GitFails(item)]
    else if source != copy then [GitDiffers(item)] else []
  }

  function VerifyFleet(d: Disk, migrated: seq<Item>, env: Env): seq<Mismatch> {
    if migrated == [] then [] else FleetMismatch(d, migrated[0], env) + VerifyFleet(d, migrated[1..], env)
  }

  // ---- a run

  datatype Answer = Returned(sentinel: Option<Sentinel>) | Errored

  datatype Ran = Ran(disk: Disk, answer: Answer, ours: seq<Item>)

  predicate Detected(d: Disk) {
    d.oldConfig != [] || d.oldDb.Some? || d.oldFleet.Some?
  }

  function Concluded(d: Disk, c: ConfigResult, s: StoreResult, f: FleetResult, env: Env): Sentinel {
    var mismatches := VerifyConfig(d, c.migrated, env) + VerifyStore(d, s, env) + VerifyFleet(d, f.migrated, env);
    Sentinel(mismatches == [], c.conflicts + (if s.conflict then [StoreConflict] else []) + f.conflicts,
             mismatches, s.hash, f.state)
  }

  function RunMigration(d: Disk, prior: Option<Sentinel>, env: Env): Ran {
    var c := MigrateConfig(d, d.oldConfig, env, ConfigResult([], []));
    if c.result.None? then Ran(c.disk, Errored, [])
    else
      var s := MigrateStoreRetryAware(c.disk, prior, env);
      if s.result.None? then Ran(s.disk, Errored, [])
      else
        var f := MigrateFleetRetryAware(s.disk, prior, env);
        if f.result.None? then Ran(f.disk, Errored, [])
        else
          var sentinel := Concluded(f.disk, c.result.value, s.result.value, f.result.value, env);
          if !env.saves then Ran(f.disk, Errored, f.result.value.migrated)
          else Ran(f.disk.(sentinel := Some(sentinel)), Returned(Some(sentinel)), f.result.value.migrated)
  }

  /** `ours` are the worktrees the run treated as its own. */
  function Run(d: Disk, env: Env): Ran {
    if !env.starts then Ran(d, Errored, [])
    else if d.sentinel.Some? && d.sentinel.value.verified then Ran(d, Returned(d.sentinel), [])
    else if !Detected(d) then Ran(d, Returned(d.sentinel), [])
    else RunMigration(d, d.sentinel, env)
  }

  // ---- what one run may change

  /** Nothing that exists at a destination changes, and no source does. */
  ghost predicate Untouched(d: Disk, d': Disk) {
    && d'.oldConfig == d.oldConfig && d'.oldDb == d.oldDb && d'.oldFleet == d.oldFleet
    && (forall name :: name in d.newConfig ==> name in d'.newConfig && d'.newConfig[name] == d.newConfig[name])
    && (d.newDb.Some? ==> d'.newDb == d.newDb)
    && (forall item :: item in d.newFleet ==> item in d'.newFleet && d'.newFleet[item] == d.newFleet[item])
  }

  /** Every new file has its source's bytes, or its own copy broke and the run failed. */
  ghost predicate ConfigCopied(d: Disk, d': Disk, files: seq<File>, env: Env, failed: bool) {
    forall name :: name in d'.newConfig && name !in d.newConfig ==>
      || File(name, d'.newConfig[name]) in files
      || (failed && env.copies(name).Broken?)
  }

  ghost predicate FleetCopied(d: Disk, d': Disk, trees: seq<Worktree>, env: Env, failed: bool) {
    forall item :: item in d'.newFleet && item !in d.newFleet ==>
      || Worktree(item, d'.newFleet[item]) in trees
      || (failed && env.trees(item).Broken?)
  }

  /** A new database is the upgraded snapshot of the source. */
  ghost predicate StoreCopied(d: Disk, d': Disk, env: Env) {
    d.newDb.None? && d'.newDb.Some? ==>
      d.oldDb.Some? && env.vacuum(d.oldDb.value).Some? && d'.newDb.value == env.upgraded(env.vacuum(d.oldDb.value).value)
  }

  lemma {:induction false} ConfigKeeps(d: Disk, todo: seq<File>, env: Env, done: ConfigResult)
    ensures var did := MigrateConfig(d, todo, env, done);
      && did.disk == d.(newConfig := did.disk.newConfig)
      && Untouched(d, did.disk) && ConfigCopied(d, did.disk, todo, env, did.result.None?)
    decreases |todo|
  {
    if todo != [] {
      var f := todo[0];
      assert todo == [f] + todo[1..];
      if env.readable(f.name) && f.name in d.newConfig {
        ConfigKeeps(d, todo[1..], env, if d.newConfig[f.name] == f.data then done.(migrated := done.migrated + [f.name])
          else done.(conflicts := done.conflicts + [ConfigConflict(f.name)]));
      } else if env.readable(f.name) && env.copies(f.name).Whole? {
        ConfigKeeps(PutConfig(d, f.name, f.data), todo[1..], env, done.(migrated := done.migrated + [f.name]));
      }
    }
  }

  lemma {:induction false} FleetKeeps(d: Disk, todo: seq<Worktree>, prior: map<Item, Marker>, env: Env, done: FleetResult)
    ensures var did := MigrateFleet(d, todo, prior, env, done);
      && did.disk == d.(newFleet := did.disk.newFleet)
      && Untouched(d, did.disk) && FleetCopied(d, did.disk, todo, env, did.result.None?)
    decreases |todo|
  {
    if todo != [] {
      var w, rest := todo[0], todo[1..];
      assert todo == [w] + rest;
      if env.lists(w.item.task) {
        if w.item in d.newFleet {
          if w.item in prior && env.git(d.newFleet[w.item]) == Some(prior[w.item]) {
            FleetKeeps(d, rest, prior, env,
              done.(migrated := done.migrated + [w.item], state := done.state[w.item := prior[w.item]]));
          } else {
            FleetKeeps(d, rest, prior, env,
              done.(conflicts := done.conflicts + [FleetConflict(w.item)], state := done.state - {w.item}));
          }
        } else if env.trees(w.item).Whole? && env.git(w.data).Some? {
          FleetKeeps(d.(newFleet := d.newFleet[w.item := w.data]), rest, prior, env,
            done.(migrated := done.migrated + [w.item], state := done.state[w.item := env.git(w.data).value]));
        }
      }
    }
  }

  lemma StoreKeeps(d: Disk, prior: Option<Sentinel>, env: Env)
    ensures var did := MigrateStoreRetryAware(d, prior, env);
      && did.disk == d.(newDb := did.disk.newDb)
      && Untouched(d, did.disk) && StoreCopied(d, did.disk, env)
  {
  }

  /** The three copies touch three different parts of the destinations. */
  lemma StagesKeep(d: Disk, prior: Option<Sentinel>, env: Env, c: Did<ConfigResult>, s: Did<StoreResult>, f: Did<FleetResult>)
    requires c == MigrateConfig(d, d.oldConfig, env, ConfigResult([], []))
    requires s == MigrateStoreRetryAware(c.disk, prior, env) && f == MigrateFleetRetryAware(s.disk, prior, env)
    ensures c.disk == d.(newConfig := c.disk.newConfig) && s.disk == c.disk.(newDb := s.disk.newDb)
    ensures f.disk == s.disk.(newFleet := f.disk.newFleet)
    ensures Untouched(d, c.disk) && Untouched(d, s.disk) && Untouched(d, f.disk)
    ensures ConfigCopied(d, c.disk, d.oldConfig, env, c.result.None?) && StoreCopied(d, s.disk, env)
    ensures FleetCopied(d, f.disk, if d.oldFleet.Some? then d.oldFleet.value else [], env, f.result.None?)
  {
    ConfigKeeps(d, d.oldConfig, env, ConfigResult([], []));
    StoreKeeps(c.disk, prior, env);
    if d.oldFleet.Some? {
      FleetKeeps(s.disk, d.oldFleet.value, PriorState(prior), env, FleetResult([], [], PriorState(prior)));
    }
  }

  lemma MigrationKeeps(d: Disk, prior: Option<Sentinel>, env: Env)
    ensures var r := RunMigration(d, prior, env);
      && Untouched(d, r.disk) && StoreCopied(d, r.disk, env)
      && ConfigCopied(d, r.disk, d.oldConfig, env, r.answer.Errored?)
      && FleetCopied(d, r.disk, if d.oldFleet.Some? then d.oldFleet.value else [], env, r.answer.Errored?)
  {
    var c := MigrateConfig(d, d.oldConfig, env, ConfigResult([], []));
    var s := MigrateStoreRetryAware(c.disk, prior, env);
    var f := MigrateFleetRetryAware(s.disk, prior, env);
    StagesKeep(d, prior, env, c, s, f);
  }

  /** No run ever changes an existing destination file, database or worktree, or any source;
      and whatever is new equals its source, unless its own copy broke and the run failed. */
  lemma RunNeverOverwrites(d: Disk, env: Env)
    ensures var r := Run(d, env);
      && Untouched(d, r.disk) && StoreCopied(d, r.disk, env)
      && ConfigCopied(d, r.disk, d.oldConfig, env, r.answer.Errored?)
      && FleetCopied(d, r.disk, if d.oldFleet.Some? then d.oldFleet.value else [], env, r.answer.Errored?)
  {
    MigrationKeeps(d, d.sentinel, env);
  }

  // ---- runs and operator edits in any order

  /** An edit may do anything to sources and destinations; only runs write the sentinel. */
  datatype Step = Edit(disk: Disk) | Migrate(env: Env)

  function Next(d: Disk, step: Step): Disk {
    match step
    case Edit(disk) => disk.(sentinel := d.sentinel)
    case Migrate(env) => Run(d, env).disk
  }

  function RunAll(d: Disk, steps: seq<Step>): Disk {
    if steps == [] then d else Next(RunAll(d, steps[..|steps| - 1]), steps[|steps| - 1])
  }

  /** A verified sentinel makes every later run the identity, whatever was edited. */
  lemma {:induction false} VerifiedIsForGood(d: Disk, steps: seq<Step>, env: Env)
    requires d.sentinel.Some? && d.sentinel.value.verified
    ensures var d' := RunAll(d, steps);
      && d'.sentinel == d.sentinel
      && Run(d', env).disk == d' && Run(d', env).ours == []
      && (env.starts ==> Run(d', env).answer == Returned(d.sentinel))
  {
    if steps != [] {
      var last := steps[|steps| - 1];
      VerifiedIsForGood(d, steps[..|steps| - 1], if last.Migrate? then last.env else env);
    }
  }

  // ---- a worktree that is not ours

  predicate Known(d: Disk, item: Item) {
    d.sentinel.Some? && item in d.sentinel.value.fleet
  }

  /** Present at the destination and not in the state this package left it in. */
  predicate Disowned(d: Disk, prior: map<Item, Marker>, env: Env, item: Item) {
    item in d.newFleet && !(item in prior && env.git(d.newFleet[item]) == Some(prior[item]))
  }

  lemma {:induction false} DisownedStaysOut(d: Disk, todo: seq<Worktree>, prior: map<Item, Marker>, env: Env,
                                            done: FleetResult, item: Item)
    requires Disowned(d, prior, env, item) && item !in done.state && item !in done.migrated
    ensures var r := MigrateFleet(d, todo, prior, env, done).result;
      r.Some? ==> item !in r.value.state && item !in r.value.migrated
    decreases |todo|
  {
    if todo != [] {
      var w, rest := todo[0], todo[1..];
      if env.lists(w.item.task) {
        if w.item in d.newFleet {
          if w.item in prior && env.git(d.newFleet[w.item]) == Some(prior[w.item]) {
            DisownedStaysOut(d, rest, prior, env,
              done.(migrated := done.migrated + [w.item], state := done.state[w.item := prior[w.item]]), item);
          } else {
            DisownedStaysOut(d, rest, prior, env,
              done.(conflicts := done.conflicts + [FleetConflict(w.item)], state := done.state - {w.item}), item);
          }
        } else if env.trees(w.item).Whole? && env.git(w.data).Some? {
          DisownedStaysOut(d.(newFleet := d.newFleet[w.item := w.data]), rest, prior, env,
            done.(migrated := done.migrated + [w.item], state := done.state[w.item := env.git(w.data).value]), item);
        }
      }
    }
  }

  /** A worktree reported as a conflict is one whose marker is dropped. */
  lemma {:induction false} ConflictForgets(d: Disk, todo: seq<Worktree>, prior: map<Item, Marker>, env: Env,
                                           done: FleetResult, item: Item)
    requires FleetConflict(item) !in done.conflicts
    ensures var r := MigrateFleet(d, todo, prior, env, done).result;
      r.Some? && FleetConflict(item) in r.value.conflicts ==> item !in r.value.state
    decreases |todo|
  {
    if todo != [] {
      var w, rest := todo[0], todo[1..];
      if env.lists(w.item.task) {
        if w.item in d.newFleet {
          if w.item in prior && env.git(d.newFleet[w.item]) == Some(prior[w.item]) {
            ConflictForgets(d, rest, prior, env,
              done.(migrated := done.migrated + [w.item], state := done.state[w.item := prior[w.item]]), item);
          } else if w.item == item {
            ForgottenStays(d, rest, prior, env,
              done.(conflicts := done.conflicts + [FleetConflict(w.item)], state := done.state - {w.item}), item);
          } else {
            ConflictForgets(d, rest, prior, env,
              done.(conflicts := done.conflicts + [FleetConflict(w.item)], state := done.state - {w.item}), item);
          }
        } else if env.trees(w.item).Whole? && env.git(w.data).Some? {
          ConflictForgets(d.(newFleet := d.newFleet[w.item := w.data]), rest, prior, env,
            done.(migrated := done.migrated + [w.item], state := done.state[w.item := env.git(w.data).value]), item);
        }
      }
    }
  }

  lemma {:induction false} ForgottenStays(d: Disk, todo: seq<Worktree>, prior: map<Item, Marker>, env: Env,
                                          done: FleetResult, item: Item)
    requires Disowned(d, prior, env, item) && item !in done.state
    ensures var r := MigrateFleet(d, todo, prior, env, done).result;
      r.Some? ==> item !in r.value.state
    decreases |todo|
  {
    if todo != [] {
      var w, rest := todo[0], todo[1..];
      if env.lists(w.item.task) {
        if w.item in d.newFleet {
          if w.item in prior && env.git(d.newFleet[w.item]) == Some(prior[w.item]) {
            ForgottenStays(d, rest, prior, env,
              done.(migrated := done.migrated + [w.item], state := done.state[w.item := prior[w.item]]), item);
          } else {
            ForgottenStays(d, rest, prior, env,
              done.(conflicts := done.conflicts + [FleetConflict(w.item)], state := done.state - {w.item}), item);
          }
        } else if env.trees(w.item).Whole? && env.git(w.data).Some? {
          ForgottenStays(d.(newFleet := d.newFleet[w.item := w.data]), rest, prior, env,
            done.(migrated := done.migrated + [w.item], state := done.state[w.item := env.git(w.data).value]), item);
        }
      }
    }
  }

  /** One run does not take over a worktree it has no marker for. */
  lemma UnknownStaysUnknown(d: Disk, env: Env, item: Item)
    requires item in d.newFleet && !Known(d, item)
    ensures item !in Run(d, env).ours && !Known(Run(d, env).disk, item)
  {
    if env.starts && !(d.sentinel.Some? && d.sentinel.value.verified) && Detected(d) {
      var prior := PriorState(d.sentinel);
      ConfigKeeps(d, d.oldConfig, env, ConfigResult([], []));
      var c := MigrateConfig(d, d.oldConfig, env, ConfigResult([], []));
      var s := MigrateStoreRetryAware(c.disk, d.sentinel, env);
      StoreKeeps(c.disk, d.sentinel, env);
      if d.oldFleet.Some? {
        DisownedStaysOut(s.disk, d.oldFleet.value, prior, env, FleetResult([], [], prior), item);
        FleetKeeps(s.disk, d.oldFleet.value, prior, env, FleetResult([], [], prior));
      }
    }
  }

  /** A run that reports a worktree as diverged keeps no marker for it. */
  lemma ReportedIsUnknown(d: Disk, env: Env, item: Item)
    requires !(d.sentinel.Some? && d.sentinel.value.verified) && Detected(d)
    requires var a := Run(d, env).answer; a.Returned? && a.sentinel.Some? && FleetConflict(item) in a.sentinel.value.conflicts
    ensures !Known(Run(d, env).disk, item)
  {
    var prior := PriorState(d.sentinel);
    ConfigKeeps(d, d.oldConfig, env, ConfigResult([], []));
    OnlyConfigConflicts(d, d.oldConfig, env, ConfigResult([], []), item);
    var c := MigrateConfig(d, d.oldConfig, env, ConfigResult([], []));
    var s := MigrateStoreRetryAware(c.disk, d.sentinel, env);
    StoreKeeps(c.disk, d.sentinel, env);
    if d.oldFleet.Some? {
      ConflictForgets(s.disk, d.oldFleet.value, prior, env, FleetResult([], [], prior), item);
    }
  }

  lemma {:induction false} OnlyConfigConflicts(d: Disk, todo: seq<File>, env: Env, done: ConfigResult, item: Item)
    requires FleetConflict(item) !in done.conflicts
    ensures var r := MigrateConfig(d, todo, env, done).result;
      r.Some? ==> FleetConflict(item) !in r.value.conflicts
    decreases |todo|
  {
    if todo != [] {
      var f := todo[0];
      if env.readable(f.name) && f.name in d.newConfig {
        OnlyConfigConflicts(d, todo[1..], env, if d.newConfig[f.name] == f.data then done.(migrated := done.migrated + [f.name])
          else done.(conflicts := done.conflicts + [ConfigConflict(f.name)]), item);
      } else if env.readable(f.name) && env.copies(f.name).Whole? {
        OnlyConfigConflicts(PutConfig(d, f.name, f.data), todo[1..], env, done.(migrated := done.migrated + [f.name]), item);
      }
    }
  }

  /** A worktree once reported as diverged is never again treated as ours while it exists:
      not by any run among any edits, until a run after the destination was taken away. */
  lemma {:induction false} DivergedIsNeverOurs(d: Disk, env: Env, steps: seq<Step>, later: Env, item: Item)
    requires !(d.sentinel.Some? && d.sentinel.value.verified) && Detected(d)
    requires var a := Run(d, env).answer; a.Returned? && a.sentinel.Some? && FleetConflict(item) in a.sentinel.value.conflicts
    requires forall k :: 0 <= k <= |steps| ==> item in RunAll(Run(d, env).disk, steps[..k]).newFleet
    ensures !Known(RunAll(Run(d, env).disk, steps), item)
    ensures item !in Run(RunAll(Run(d, env).disk, steps), later).ours
  {
    var start := Run(d, env).disk;
    assert steps[..|steps|] == steps;
    if steps == [] {
      ReportedIsUnknown(d, env, item);
    } else {
      var init, last := steps[..|steps| - 1], steps[|steps| - 1];
      forall k | 0 <= k <= |init| ensures item in RunAll(start, init[..k]).newFleet {
        assert init[..k] == steps[..k];
      }
      DivergedIsNeverOurs(d, env, init, later, item);
      if last.Migrate? {
        assert init[..|init|] == init;
        UnknownStaysUnknown(RunAll(start, init), last.env, item);
      }
    }
    UnknownStaysUnknown(RunAll(start, steps), later, item);
  }

  // ---- what a finished run is worth

  lemma {:induction false} ConfigAccounted(d: Disk, todo: seq<File>, env: Env, done: ConfigResult)
    ensures var did := MigrateConfig(d, todo, env, done);
      did.result.Some? ==>
        && done.conflicts <= did.result.value.conflicts
        && forall f :: f in todo ==>
          f.name in did.disk.newConfig
          && (ConfigConflict(f.name) in did.result.value.conflicts || did.disk.newConfig[f.name] == f.data)
    decreases |todo|
  {
    if todo != [] {
      var f := todo[0];
      assert todo == [f] + todo[1..];
      if env.readable(f.name) {
        if f.name in d.newConfig {
          var done' := if d.newConfig[f.name] == f.data then done.(migrated := done.migrated + [f.name])
            else done.(conflicts := done.conflicts + [ConfigConflict(f.name)]);
          ConfigAccounted(d, todo[1..], env, done');
          ConfigKeeps(d, todo[1..], env, done');
          PrefixHolds(done'.conflicts, d, todo[1..], env, done');
        } else if env.copies(f.name).Whole? {
          var d' := PutConfig(d, f.name, f.data);
          ConfigAccounted(d', todo[1..], env, done.(migrated := done.migrated + [f.name]));
          ConfigKeeps(d', todo[1..], env, done.(migrated := done.migrated + [f.name]));
        }
      }
    }
  }

  lemma PrefixHolds(conflicts: seq<Conflict>, d: Disk, todo: seq<File>, env: Env, done: ConfigResult)
    requires var r := MigrateConfig(d, todo, env, done).result; r.Some? ==> conflicts <= r.value.conflicts
    ensures var r := MigrateConfig(d, todo, env, done).result;
      r.Some? ==> forall c :: c in conflicts ==> c in r.value.conflicts
  {
  }

  lemma {:induction false} FleetAccounted(d: Disk, todo: seq<Worktree>, prior: map<Item, Marker>, env: Env, done: FleetResult)
    ensures var did := MigrateFleet(d, todo, prior, env, done);
      did.result.Some? ==>
        && (forall c :: c in done.conflicts ==> c in did.result.value.conflicts)
        && (forall i :: i in done.migrated ==> i in did.result.value.migrated)
        && forall w :: w in todo ==>
          w.item in did.disk.newFleet
          && (FleetConflict(w.item) in did.result.value.conflicts || w.item in did.result.value.migrated)
    decreases |todo|
  {
    if todo != [] {
      var w, rest := todo[0], todo[1..];
      assert todo == [w] + rest;
      if env.lists(w.item.task) {
        if w.item in d.newFleet {
          var done' := if w.item in prior && env.git(d.newFleet[w.item]) == Some(prior[w.item])
            then done.(migrated := done.migrated + [w.item], state := done.state[w.item := prior[w.item]])
            else done.(conflicts := done.conflicts + [FleetConflict(w.item)], state := done.state - {w.item});
          FleetAccounted(d, rest, prior, env, done');
          FleetKeeps(d, rest, prior, env, done');
        } else if env.trees(w.item).Whole? && env.git(w.data).Some? {
          var d' := d.(newFleet := d.newFleet[w.item := w.data]);
          var done' := done.(migrated := done.migrated + [w.item], state := done.state[w.item := env.git(w.data).value]);
          FleetAccounted(d', rest, prior, env, done');
          FleetKeeps(d', rest, prior, env, done');
        }
      }
    }
  }

  lemma {:induction false} NoFleetMismatch(d: Disk, migrated: seq<Item>, env: Env, item: Item)
    requires VerifyFleet(d, migrated, env) == [] && item in migrated
    ensures TreeState(d, item, env) == CopyState(d, item, env) && TreeState(d, item, env).Some?
  {
    if migrated[0] != item {
      assert item in migrated[1..];
      NoFleetMismatch(d, migrated[1..], env, item);
    }
  }

  ghost predicate ConfigVouched(d: Disk, d': Disk, conflicts: seq<Conflict>) {
    forall f :: f in d.oldConfig ==>
      ConfigConflict(f.name) in conflicts || (f.name in d'.newConfig && d'.newConfig[f.name] == f.data)
  }

  ghost predicate FleetVouched(d: Disk, d': Disk, conflicts: seq<Conflict>, env: Env) {
    d.oldFleet.Some? ==> forall w :: w in d.oldFleet.value ==>
      || FleetConflict(w.item) in conflicts
      || (TreeState(d', w.item, env) == CopyState(d', w.item, env) && CopyState(d', w.item, env).Some?)
  }

  ghost predicate StoreVouched(d: Disk, d': Disk, conflicts: seq<Conflict>, env: Env) {
    d.oldDb.Some? ==>
      || StoreConflict in conflicts
      || (d'.newDb.Some? && env.vacuum(d.oldDb.value).Some? && env.rows(d'.newDb.value).Some?
          && env.rows(d'.newDb.value) == env.rows(env.vacuum(d.oldDb.value).value))
  }

  lemma StoreIsVouched(d: Disk, prior: Option<Sentinel>, d': Disk, env: Env)
    requires var s := MigrateStoreRetryAware(d, prior, env);
      s.result.Some? && d'.newDb == s.disk.newDb && VerifyStore(d', s.result.value, env) == []
    ensures var s := MigrateStoreRetryAware(d, prior, env);
      StoreVouched(d, d', if s.result.value.conflict then [StoreConflict] else [], env)
  {
  }

  lemma FleetIsVouched(d: Disk, prior: Option<Sentinel>, env: Env)
    requires var f := MigrateFleetRetryAware(d, prior, env);
      f.result.Some? && VerifyFleet(f.disk, f.result.value.migrated, env) == []
    ensures var f := MigrateFleetRetryAware(d, prior, env);
      FleetVouched(d, f.disk, f.result.value.conflicts, env)
  {
    var state := PriorState(prior);
    var f := MigrateFleetRetryAware(d, prior, env);
    if d.oldFleet.Some? {
      FleetAccounted(d, d.oldFleet.value, state, env, FleetResult([], [], state));
      forall w | w in d.oldFleet.value && FleetConflict(w.item) !in f.result.value.conflicts
        ensures TreeState(f.disk, w.item, env) == CopyState(f.disk, w.item, env) && CopyState(f.disk, w.item, env).Some?
      {
        NoFleetMismatch(f.disk, f.result.value.migrated, env, w.item);
      }
    }
  }

  lemma FleetFrame(d: Disk, prior: Option<Sentinel>, env: Env)
    ensures var f := MigrateFleetRetryAware(d, prior, env);
      f.disk == d.(newFleet := f.disk.newFleet)
  {
    if d.oldFleet.Some? {
      FleetKeeps(d, d.oldFleet.value, PriorState(prior), env, FleetResult([], [], PriorState(prior)));
    }
  }

  /** A run that ends verified has every source file equal at its destination or reported,
      every worktree in the same git state or reported, and the database's rows as many as
      the source snapshot's, or reported. */
  lemma VerifiedMeans(d: Disk, env: Env)
    requires env.starts && !(d.sentinel.Some? && d.sentinel.value.verified) && Detected(d)
    requires Run(d, env).answer.Returned?
    ensures var d' := Run(d, env).disk;
      d'.sentinel.Some? && (d'.sentinel.value.verified ==>
        && ConfigVouched(d, d', d'.sentinel.value.conflicts)
        && StoreVouched(d, d', d'.sentinel.value.conflicts, env)
        && FleetVouched(d, d', d'.sentinel.value.conflicts, env))
  {
    var c := MigrateConfig(d, d.oldConfig, env, ConfigResult([], []));
    ConfigAccounted(d, d.oldConfig, env, ConfigResult([], []));
    ConfigKeeps(d, d.oldConfig, env, ConfigResult([], []));
    var s := MigrateStoreRetryAware(c.disk, d.sentinel, env);
    StoreKeeps(c.disk, d.sentinel, env);
    var f := MigrateFleetRetryAware(s.disk, d.sentinel, env);
    FleetFrame(s.disk, d.sentinel, env);
    var sentinel := Concluded(f.disk, c.result.value, s.result.value, f.result.value, env);
    if sentinel.verified {
      NoParts(VerifyConfig(f.disk, c.result.value.migrated, env), VerifyStore(f.disk, s.result.value, env),
              VerifyFleet(f.disk, f.result.value.migrated, env));
      StoreIsVouched(c.disk, d.sentinel, f.disk, env);
      FleetIsVouched(s.disk, d.sentinel, env);
      var d' := Run(d, env).disk;
      assert d' == f.disk.(sentinel := Some(sentinel));
      assert forall x :: x in c.result.value.conflicts || x in f.result.value.conflicts ==> x in sentinel.conflicts;
      assert forall item :: TreeState(d', item, env) == TreeState(f.disk, item, env);
      assert forall item :: CopyState(d', item, env) == CopyState(f.disk, item, env);
    }
  }

  lemma NoParts<T>(a: seq<T>, b: seq<T>, c: seq<T>)
    requires a + b + c == []
    ensures a == [] && b == [] && c == []
  {
    assert |a + b + c| == |a| + |b| + |c|;
  }

  // ---- retrying

  lemma {:induction false} NothingToCopy(d: Disk, todo: seq<File>, env: Env, done: ConfigResult)
    requires forall f :: f in todo ==> f.name in d.newConfig
    ensures MigrateConfig(d, todo, env, done).disk == d
    decreases |todo|
  {
    if todo != [] {
      assert todo[0] in todo;
      NothingToCopy(d, todo[1..], env, if d.newConfig[todo[0].name] == todo[0].data then done.(migrated := done.migrated + [todo[0].name])
          else done.(conflicts := done.conflicts + [ConfigConflict(todo[0].name)]));
    }
  }

  lemma {:induction false} NoTreeToCopy(d: Disk, todo: seq<Worktree>, prior: map<Item, Marker>, env: Env, done: FleetResult)
    requires forall w :: w in todo ==> w.item in d.newFleet
    ensures MigrateFleet(d, todo, prior, env, done).disk == d
    decreases |todo|
  {
    if todo != [] {
      var w := todo[0];
      assert w in todo;
      NoTreeToCopy(d, todo[1..], prior, env,
        if w.item in prior && env.git(d.newFleet[w.item]) == Some(prior[w.item])
        then done.(migrated := done.migrated + [w.item], state := done.state[w.item := prior[w.item]])
        else done.(conflicts := done.conflicts + [FleetConflict(w.item)], state := done.state - {w.item}));
    }
  }

  /** After a run that did not fail, running again without edits copies nothing: whatever
      its answers, only the sentinel can change. */
  lemma RetryCopiesNothing(d: Disk, env: Env, again: Env)
    requires Run(d, env).answer.Returned?
    ensures var d' := Run(d, env).disk;
      Run(d', again).disk == d'.(sentinel := Run(d', again).disk.sentinel)
  {
    var d' := Run(d, env).disk;
    if !(d.sentinel.Some? && d.sentinel.value.verified) && Detected(d) {
      ConfigAccounted(d, d.oldConfig, env, ConfigResult([], []));
      ConfigKeeps(d, d.oldConfig, env, ConfigResult([], []));
      var c := MigrateConfig(d, d.oldConfig, env, ConfigResult([], []));
      StoreKeeps(c.disk, d.sentinel, env);
      var s := MigrateStoreRetryAware(c.disk, d.sentinel, env);
      if d.oldFleet.Some? {
        FleetAccounted(s.disk, d.oldFleet.value, PriorState(d.sentinel), env, FleetResult([], [], PriorState(d.sentinel)));
        FleetKeeps(s.disk, d.oldFleet.value, PriorState(d.sentinel), env, FleetResult([], [], PriorState(d.sentinel)));
      }
      AllPresent(d', again);
    }
  }

  lemma NoStoreToCopy(d: Disk, prior: Option<Sentinel>, env: Env)
    requires d.oldDb.Some? ==> d.newDb.Some?
    ensures MigrateStoreRetryAware(d, prior, env).disk == d
  {
  }

  lemma NoFleetToCopy(d: Disk, prior: Option<Sentinel>, env: Env)
    requires d.oldFleet.Some? ==> forall w :: w in d.oldFleet.value ==> w.item in d.newFleet
    ensures MigrateFleetRetryAware(d, prior, env).disk == d
  {
    if d.oldFleet.Some? {
      NoTreeToCopy(d, d.oldFleet.value, PriorState(prior), env, FleetResult([], [], PriorState(prior)));
    }
  }

  lemma AllPresent(d: Disk, env: Env)
    requires forall f :: f in d.oldConfig ==> f.name in d.newConfig
    requires d.oldFleet.Some? ==> forall w :: w in d.oldFleet.value ==> w.item in d.newFleet
    requires d.oldDb.Some? ==> d.newDb.Some?
    ensures Run(d, env).disk == d.(sentinel := Run(d, env).disk.sentinel)
  {
    NothingToCopy(d, d.oldConfig, env, ConfigResult([], []));
    NoStoreToCopy(d, d.sentinel, env);
    NoFleetToCopy(d, d.sentinel, env);
  }
}
