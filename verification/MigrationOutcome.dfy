/** What one run of the migration comes to, item by item, over what was at the sources and the
    destinations before it. Listings name no file and no worktree twice. */
module MigrationOutcome {
  import opened Wrappers
  import opened Migration

  ghost predicate DistinctNames(files: seq<File>) {
    forall i, j :: 0 <= i < j < |files| ==> files[i].name != files[j].name
  }

  ghost predicate DistinctItems(trees: seq<Worktree>) {
    forall i, j :: 0 <= i < j < |trees| ==> trees[i].item != trees[j].item
  }

  // ---- configuration files

  /** The file is missing at the destination or is there with the same bytes. */
  ghost predicate MissingOrSame(f: File, dest: map<string, Bytes>) {
    f.name in dest ==> dest[f.name] == f.data
  }

  ghost predicate FileWorks(f: File, dest: map<string, Bytes>, env: Env) {
    env.readable(f.name) && (f.name !in dest ==> env.copies(f.name).Whole?)
  }

  ghost predicate ConfigOutcome(todo: seq<File>, dest: map<string, Bytes>, done: ConfigResult, r: ConfigResult) {
    && (forall name :: name in r.migrated <==>
      name in done.migrated || exists f :: f in todo && f.name == name && MissingOrSame(f, dest))
    && (forall c :: c in r.conflicts <==>
      c in done.conflicts || exists f :: f in todo && c == ConfigConflict(f.name) && !MissingOrSame(f, dest))
  }

  lemma {:induction false} ConfigMeans(d: Disk, todo: seq<File>, env: Env, done: ConfigResult)
    requires DistinctNames(todo)
    ensures var did := MigrateConfig(d, todo, env, done);
      && (did.result.Some? <==> forall f :: f in todo ==> FileWorks(f, d.newConfig, env))
      && (did.result.Some? ==> ConfigOutcome(todo, d.newConfig, done, did.result.value))
    decreases |todo|
  {
    if todo != [] {
      var f, rest := todo[0], todo[1..];
      assert todo == [f] + rest;
      if FileWorks(f, d.newConfig, env) {
        var d' := if f.name in d.newConfig then d else PutConfig(d, f.name, f.data);
        var done' := if MissingOrSame(f, d.newConfig) then done.(migrated := done.migrated + [f.name])
          else done.(conflicts := done.conflicts + [ConfigConflict(f.name)]);
        assert MigrateConfig(d, todo, env, done) == MigrateConfig(d', rest, env, done');
        ConfigMeans(d', rest, env, done');
        forall g | g in rest
          ensures MissingOrSame(g, d'.newConfig) == MissingOrSame(g, d.newConfig)
          ensures FileWorks(g, d'.newConfig, env) == FileWorks(g, d.newConfig, env)
        {
        }
        var did := MigrateConfig(d, todo, env, done);
        if did.result.Some? {
          FirstFile(f, rest, d.newConfig, d'.newConfig, done, done', did.result.value);
        }
      }
    }
  }

  lemma FirstFile(f: File, rest: seq<File>, dest: map<string, Bytes>, dest': map<string, Bytes>,
                  done: ConfigResult, done': ConfigResult, r: ConfigResult)
    requires done' == if MissingOrSame(f, dest) then done.(migrated := done.migrated + [f.name])
      else done.(conflicts := done.conflicts + [ConfigConflict(f.name)])
    requires forall g :: g in rest ==> MissingOrSame(g, dest') == MissingOrSame(g, dest)
    requires ConfigOutcome(rest, dest', done', r)
    ensures ConfigOutcome([f] + rest, dest, done, r)
  {
    var todo := [f] + rest;
    forall name ensures name in r.migrated <==>
      name in done.migrated || exists g :: g in todo && g.name == name && MissingOrSame(g, dest)
    {
      if name in r.migrated && name !in done'.migrated {
        var g :| g in rest && g.name == name && MissingOrSame(g, dest');
        assert g in todo;
      }
      if name in done'.migrated && name !in done.migrated {
        assert f in todo;
      }
    }
    forall c ensures c in r.conflicts <==>
      c in done.conflicts || exists g :: g in todo && c == ConfigConflict(g.name) && !MissingOrSame(g, dest)
    {
      if c in r.conflicts && c !in done'.conflicts {
        var g :| g in rest && c == ConfigConflict(g.name) && !MissingOrSame(g, dest');
        assert g in todo;
      }
      if c in done'.conflicts && c !in done.conflicts {
        assert f in todo;
      }
    }
  }

  // ---- the database

  /** The database at the destination is one this migration recorded, and is unchanged since. */
  ghost predicate StoreIsOurs(d: Disk, env: Env) {
    && d.newDb.Some? && d.sentinel.Some? && d.sentinel.value.storeHash != ""
    && env.hash(d.newDb.value) == d.sentinel.value.storeHash
  }

  ghost predicate StoreRecorded(d: Disk) {
    d.newDb.Some? && d.sentinel.Some? && d.sentinel.value.storeHash != ""
  }

  /** What the store step stands for comes from a snapshot of the source, or from the
      destination itself when the source is gone. */
  function CountedFrom(d: Disk, env: Env): Option<Rows> {
    if d.oldDb.Some? then
      var snapshot := env.vacuum(d.oldDb.value);
      if snapshot.Some? then env.rows(snapshot.value) else None
    else if d.newDb.Some? then env.rows(d.newDb.value) else None
  }

  /** The store step neither copies nor counts: there is nothing to do or it conflicts. */
  ghost predicate StoreStands(d: Disk, env: Env) {
    if StoreRecorded(d) then !StoreIsOurs(d, env) else d.oldDb.None? || d.newDb.Some?
  }

  ghost predicate StoreWorks(d: Disk, env: Env) {
    && (StoreRecorded(d) ==> env.hashes)
    && (StoreStands(d, env) || (CountedFrom(d, env).Some? && (d.newDb.None? ==> env.moves && env.opens && env.hashes)))
  }

  lemma StoreMeans(d: Disk, env: Env)
    ensures var did := MigrateStoreRetryAware(d, d.sentinel, env);
      && (did.result.Some? <==> StoreWorks(d, env))
      && (did.result.Some? ==>
        && (did.result.value.conflict <==> d.newDb.Some? && (d.oldDb.Some? || StoreRecorded(d)) && !StoreIsOurs(d, env))
        && (did.result.value.migrated <==> StoreIsOurs(d, env) || (d.newDb.None? && d.oldDb.Some?))
        && (if did.result.value.migrated
            then Some(did.result.value.source) == CountedFrom(d, env)
              && did.disk.newDb.Some? && did.result.value.hash == env.hash(did.disk.newDb.value)
            else did.result.value.hash == "")
        && did.disk.newDb == if d.newDb.None? && d.oldDb.Some? then Some(env.upgraded(env.vacuum(d.oldDb.value).value)) else d.newDb)
  {
  }

  // ---- worktrees

  /** The worktree is missing at the destination, or git says of it what was recorded. */
  ghost predicate MissingOrOurs(w: Worktree, dest: map<Item, Bytes>, prior: map<Item, Marker>, env: Env) {
    w.item in dest ==> w.item in prior && env.git(dest[w.item]) == Some(prior[w.item])
  }

  ghost predicate TreeWorks(w: Worktree, dest: map<Item, Bytes>, env: Env) {
    env.lists(w.item.task) && (w.item !in dest ==> env.trees(w.item).Whole? && env.git(w.data).Some?)
  }

  /** What is remembered of a worktree after a run that came to it. */
  function Remembered(w: Worktree, dest: map<Item, Bytes>, env: Env): Option<Marker> {
    if w.item in dest then env.git(dest[w.item]) else env.git(w.data)
  }

  ghost predicate FleetOutcome(todo: seq<Worktree>, dest: map<Item, Bytes>, prior: map<Item, Marker>, env: Env,
                               done: FleetResult, r: FleetResult) {
    && (forall item :: item in r.migrated <==>
      item in done.migrated || exists w :: w in todo && w.item == item && MissingOrOurs(w, dest, prior, env))
    && (forall c :: c in r.conflicts <==>
      c in done.conflicts || exists w :: w in todo && c == FleetConflict(w.item) && !MissingOrOurs(w, dest, prior, env))
    && (forall w :: w in todo ==>
      if MissingOrOurs(w, dest, prior, env) then w.item in r.state && Some(r.state[w.item]) == Remembered(w, dest, env)
      else w.item !in r.state)
    && (forall item :: (forall w :: w in todo ==> w.item != item) ==>
      (item in r.state <==> item in done.state) && (item in r.state ==> r.state[item] == done.state[item]))
  }

  lemma {:induction false} FleetMeans(d: Disk, todo: seq<Worktree>, prior: map<Item, Marker>, env: Env, done: FleetResult)
    requires DistinctItems(todo)
    ensures var did := MigrateFleet(d, todo, prior, env, done);
      && (did.result.Some? <==> forall w :: w in todo ==> TreeWorks(w, d.newFleet, env))
      && (did.result.Some? ==> FleetOutcome(todo, d.newFleet, prior, env, done, did.result.value))
    decreases |todo|
  {
    if todo != [] {
      var w, rest := todo[0], todo[1..];
      assert todo == [w] + rest;
      if TreeWorks(w, d.newFleet, env) {
        var d' := WithTree(d, w);
        var done' := AfterTree(w, d.newFleet, prior, env, done);
        TreeStep(d, todo, prior, env, done);
        FleetMeans(d', rest, prior, env, done');
        assert forall v :: v in rest ==> v.item != w.item;
        OthersSee(d.newFleet, d'.newFleet, w, rest, prior, env);
        var did := MigrateFleet(d', rest, prior, env, done');
        if did.result.Some? {
          FirstTree(w, rest, d.newFleet, d'.newFleet, prior, env, done, did.result.value);
        }
      }
    }
  }

  function WithTree(d: Disk, w: Worktree): Disk {
    if w.item in d.newFleet then d else d.(newFleet := d.newFleet[w.item := w.data])
  }

  lemma TreeStep(d: Disk, todo: seq<Worktree>, prior: map<Item, Marker>, env: Env, done: FleetResult)
    requires todo != [] && TreeWorks(todo[0], d.newFleet, env)
    ensures MigrateFleet(d, todo, prior, env, done)
         == MigrateFleet(WithTree(d, todo[0]), todo[1..], prior, env, AfterTree(todo[0], d.newFleet, prior, env, done))
  {
  }

  lemma OthersSee(dest: map<Item, Bytes>, dest': map<Item, Bytes>, w: Worktree, rest: seq<Worktree>,
                  prior: map<Item, Marker>, env: Env)
    requires dest' == (if w.item in dest then dest else dest[w.item := w.data]) && forall v :: v in rest ==> v.item != w.item
    ensures forall v :: v in rest ==>
      && MissingOrOurs(v, dest', prior, env) == MissingOrOurs(v, dest, prior, env)
      && TreeWorks(v, dest', env) == TreeWorks(v, dest, env)
      && Remembered(v, dest', env) == Remembered(v, dest, env)
  {
  }

  ghost function AfterTree(w: Worktree, dest: map<Item, Bytes>, prior: map<Item, Marker>, env: Env, done: FleetResult): FleetResult
    requires TreeWorks(w, dest, env)
  {
    if MissingOrOurs(w, dest, prior, env)
    then done.(migrated := done.migrated + [w.item], state := done.state[w.item := Remembered(w, dest, env).value])
    else done.(conflicts := done.conflicts + [FleetConflict(w.item)], state := done.state - {w.item})
  }

  lemma FirstTree(w: Worktree, rest: seq<Worktree>, dest: map<Item, Bytes>, dest': map<Item, Bytes>,
                  prior: map<Item, Marker>, env: Env, done: FleetResult, r: FleetResult)
    requires TreeWorks(w, dest, env) && forall v :: v in rest ==> v.item != w.item
    requires forall v :: v in rest ==> MissingOrOurs(v, dest', prior, env) == MissingOrOurs(v, dest, prior, env)
    requires forall v :: v in rest ==> Remembered(v, dest', env) == Remembered(v, dest, env)
    requires FleetOutcome(rest, dest', prior, env, AfterTree(w, dest, prior, env, done), r)
    ensures FleetOutcome([w] + rest, dest, prior, env, done, r)
  {
    var todo, done' := [w] + rest, AfterTree(w, dest, prior, env, done);
    assert forall v :: v in todo <==> v == w || v in rest;
    forall item ensures item in r.migrated <==>
      item in done.migrated || exists v :: v in todo && v.item == item && MissingOrOurs(v, dest, prior, env)
    {
      if item in r.migrated && item !in done'.migrated {
        var v :| v in rest && v.item == item && MissingOrOurs(v, dest', prior, env);
        assert v in todo;
      }
      if item in done'.migrated && item !in done.migrated {
        assert w in todo;
      }
    }
    forall c ensures c in r.conflicts <==>
      c in done.conflicts || exists v :: v in todo && c == FleetConflict(v.item) && !MissingOrOurs(v, dest, prior, env)
    {
      if c in r.conflicts && c !in done'.conflicts {
        var v :| v in rest && c == FleetConflict(v.item) && !MissingOrOurs(v, dest', prior, env);
        assert v in todo;
      }
      if c in done'.conflicts && c !in done.conflicts {
        assert w in todo;
      }
    }
    forall item | forall v :: v in todo ==> v.item != item
      ensures (item in r.state <==> item in done.state) && (item in r.state ==> r.state[item] == done.state[item])
    {
      assert w in todo && forall v :: v in rest ==> v in todo;
    }
  }

  // ---- verification

  lemma {:induction false} SourceOfMeans(files: seq<File>, name: string)
    requires DistinctNames(files)
    ensures forall data :: SourceOf(files, name) == Some(data) <==> File(name, data) in files
  {
    if files != [] {
      SourceOfMeans(files[1..], name);
      assert files == [files[0]] + files[1..];
    }
  }

  lemma {:induction false} TreeOfMeans(trees: seq<Worktree>, item: Item)
    requires DistinctItems(trees)
    ensures forall data :: TreeOf(trees, item) == Some(data) <==> Worktree(item, data) in trees
  {
    if trees != [] {
      TreeOfMeans(trees[1..], item);
      assert trees == [trees[0]] + trees[1..];
    }
  }

  /** A migrated file is reported when its bytes are no longer the source's, and, project files
      only, when listing the projects does not show it or fails as a whole. */
  lemma {:induction false} ConfigMismatchesMean(d: Disk, migrated: seq<string>, env: Env)
    requires DistinctNames(d.oldConfig)
    ensures ConfigMismatches(d, migrated) == [] <==>
      forall name :: name in migrated ==> name in d.newConfig && File(name, d.newConfig[name]) in d.oldConfig
  {
    if migrated != [] {
      var name := migrated[0];
      ConfigMismatchesMean(d, migrated[1..], env);
      assert ConfigSame(d, name) <==> name in d.newConfig && File(name, d.newConfig[name]) in d.oldConfig by {
        SourceOfMeans(d.oldConfig, name);
      }
      assert migrated == [migrated[0]] + migrated[1..];
    }
  }

  lemma {:induction false} InvisibleMeans(migrated: seq<string>, env: Env)
    ensures Invisible(migrated, env) == [] <==> forall name :: name in migrated ==> name == "config.yaml" || env.visible(name)
  {
    if migrated != [] {
      InvisibleMeans(migrated[1..], env);
      assert migrated == [migrated[0]] + migrated[1..];
    }
  }

  lemma VerifyConfigMeans(d: Disk, migrated: seq<string>, env: Env)
    requires DistinctNames(d.oldConfig)
    ensures VerifyConfig(d, migrated, env) == [] <==>
      && (migrated != [] ==> env.projects)
      && forall name :: name in migrated ==>
        && name in d.newConfig && File(name, d.newConfig[name]) in d.oldConfig
        && (name == "config.yaml" || env.visible(name))
  {
    ConfigMismatchesMean(d, migrated, env);
    InvisibleMeans(migrated, env);
  }

  lemma VerifyStoreMeans(d: Disk, r: StoreResult, env: Env)
    ensures VerifyStore(d, r, env) == [] <==> r.migrated ==> d.newDb.Some? && env.rows(d.newDb.value) == Some(r.source)
  {
  }

  /** The source and the copy of a worktree are in one and the same git state. */
  ghost predicate InOneState(d: Disk, item: Item, env: Env) {
    && d.oldFleet.Some? && item in d.newFleet && env.git(d.newFleet[item]).Some?
    && exists w :: w in d.oldFleet.value && w.item == item && env.git(w.data) == env.git(d.newFleet[item])
  }

  lemma {:induction false} VerifyFleetMeans(d: Disk, migrated: seq<Item>, env: Env)
    requires d.oldFleet.Some? ==> DistinctItems(d.oldFleet.value)
    ensures VerifyFleet(d, migrated, env) == [] <==> forall item :: item in migrated ==> InOneState(d, item, env)
  {
    if migrated != [] {
      VerifyFleetMeans(d, migrated[1..], env);
      TreeStateMeans(d, migrated[0], env);
      assert migrated == [migrated[0]] + migrated[1..];
    }
  }

  lemma TreeStateMeans(d: Disk, item: Item, env: Env)
    requires d.oldFleet.Some? ==> DistinctItems(d.oldFleet.value)
    ensures FleetMismatch(d, item, env) == [] <==> InOneState(d, item, env)
  {
    if d.oldFleet.Some? {
      TreeOfMeans(d.oldFleet.value, item);
      var tree := TreeOf(d.oldFleet.value, item);
      if tree.Some? {
        assert Worktree(item, tree.value) in d.oldFleet.value;
      }
      if InOneState(d, item, env) {
        var w :| w in d.oldFleet.value && w.item == item && env.git(w.data) == env.git(d.newFleet[item]);
        assert w == Worktree(item, w.data);
      }
    }
  }

  // ---- a run

  /** There is work: no verified sentinel, and a source of at least one of the three kinds. */
  ghost predicate HasWork(d: Disk) {
    && !(d.sentinel.Some? && d.sentinel.value.verified)
    && (d.oldConfig != [] || d.oldDb.Some? || d.oldFleet.Some?)
  }

  /** Without work a run answers the sentinel it found and touches nothing. */
  lemma WithoutWork(d: Disk, env: Env)
    ensures !env.starts ==> Run(d, env) == Ran(d, Errored, [])
    ensures env.starts && !HasWork(d) ==> Run(d, env) == Ran(d, Returned(d.sentinel), [])
  {
  }

  function Trees(d: Disk): seq<Worktree> {
    if d.oldFleet.Some? then d.oldFleet.value else []
  }

  ghost predicate Listed(d: Disk) {
    DistinctNames(d.oldConfig) && DistinctItems(Trees(d))
  }

  function PriorMarkers(d: Disk): map<Item, Marker> {
    if d.sentinel.Some? then d.sentinel.value.fleet else map[]
  }

  /** Everything a run needs from the outside goes well. */
  ghost predicate AllWorks(d: Disk, env: Env) {
    && (forall f :: f in d.oldConfig ==> FileWorks(f, d.newConfig, env))
    && StoreWorks(d, env)
    && (forall w :: w in Trees(d) ==> TreeWorks(w, d.newFleet, env))
    && env.saves
  }

  /** What is reported: the files that are there and differ, a database that is there and not
      ours, and the worktrees that are there and not in the state recorded for them. */
  ghost predicate Reports(d: Disk, env: Env, c: Conflict) {
    match c
    case ConfigConflict(name) => exists f :: f in d.oldConfig && f.name == name && !MissingOrSame(f, d.newConfig)
    case StoreConflict => d.newDb.Some? && (d.oldDb.Some? || StoreRecorded(d)) && !StoreIsOurs(d, env)
    case FleetConflict(item) =>
      exists w :: w in Trees(d) && w.item == item && !MissingOrOurs(w, d.newFleet, PriorMarkers(d), env)
  }

  /** The projects can be listed and show every project file that is now at its destination. */
  ghost predicate ConfigProves(d: Disk, env: Env) {
    (exists f :: f in d.oldConfig && MissingOrSame(f, d.newConfig)) ==>
      && env.projects
      && forall f :: f in d.oldConfig && MissingOrSame(f, d.newConfig) ==> f.name == "config.yaml" || env.visible(f.name)
  }

  /** The database at the destination counts the rows of what it stands for. */
  ghost predicate StoreProves(d: Disk, env: Env) {
    if StoreIsOurs(d, env) then env.rows(d.newDb.value) == CountedFrom(d, env)
    else if d.newDb.None? && d.oldDb.Some? then
      var snapshot := env.vacuum(d.oldDb.value);
      snapshot.Some? && env.rows(env.upgraded(snapshot.value)) == env.rows(snapshot.value)
    else true
  }

  /** A worktree taken as already migrated has its source still in the state recorded for it. */
  ghost predicate FleetProves(d: Disk, env: Env) {
    forall w :: w in Trees(d) && w.item in d.newFleet && MissingOrOurs(w, d.newFleet, PriorMarkers(d), env) ==>
      env.git(w.data) == Some(PriorMarkers(d)[w.item])
  }

  lemma SameName(files: seq<File>, f: File, g: File)
    requires DistinctNames(files) && f in files && g in files && f.name == g.name
    ensures f == g
  {
    var i :| 0 <= i < |files| && files[i] == f;
    var j :| 0 <= j < |files| && files[j] == g;
  }

  lemma SameItem(trees: seq<Worktree>, v: Worktree, w: Worktree)
    requires DistinctItems(trees) && v in trees && w in trees && v.item == w.item
    ensures v == w
  {
    var i :| 0 <= i < |trees| && trees[i] == v;
    var j :| 0 <= j < |trees| && trees[j] == w;
  }

  const NO_CONFIG := ConfigResult([], [])

  lemma ConfigStep(d: Disk, env: Env)
    requires DistinctNames(d.oldConfig)
    ensures var did := MigrateConfig(d, d.oldConfig, env, NO_CONFIG);
      && did.disk == d.(newConfig := did.disk.newConfig)
      && (did.result.Some? <==> forall f :: f in d.oldConfig ==> FileWorks(f, d.newConfig, env))
      && (did.result.Some? ==>
        && ConfigOutcome(d.oldConfig, d.newConfig, NO_CONFIG, did.result.value)
        && forall f :: f in d.oldConfig && MissingOrSame(f, d.newConfig) ==>
          f.name in did.disk.newConfig && did.disk.newConfig[f.name] == f.data)
  {
    var did := MigrateConfig(d, d.oldConfig, env, NO_CONFIG);
    ConfigKeeps(d, d.oldConfig, env, NO_CONFIG);
    ConfigMeans(d, d.oldConfig, env, NO_CONFIG);
    ConfigAccounted(d, d.oldConfig, env, NO_CONFIG);
    if did.result.Some? {
      forall f | f in d.oldConfig && MissingOrSame(f, d.newConfig)
        ensures ConfigConflict(f.name) !in did.result.value.conflicts
      {
        forall g | g in d.oldConfig && g.name == f.name ensures g == f {
          SameName(d.oldConfig, f, g);
        }
      }
    }
  }

  lemma ConfigIsProved(d: Disk, d': Disk, r: ConfigResult, env: Env)
    requires DistinctNames(d.oldConfig) && d'.oldConfig == d.oldConfig
    requires ConfigOutcome(d.oldConfig, d.newConfig, NO_CONFIG, r)
    requires forall f :: f in d.oldConfig && MissingOrSame(f, d.newConfig) ==>
      f.name in d'.newConfig && d'.newConfig[f.name] == f.data
    ensures VerifyConfig(d', r.migrated, env) == [] <==> ConfigProves(d, env)
  {
    VerifyConfigMeans(d', r.migrated, env);
    forall name | name in r.migrated ensures name in d'.newConfig && File(name, d'.newConfig[name]) in d.oldConfig {
      var f :| f in d.oldConfig && f.name == name && MissingOrSame(f, d.newConfig);
      assert f == File(name, d'.newConfig[name]);
    }
    assert r.migrated != [] <==> exists f :: f in d.oldConfig && MissingOrSame(f, d.newConfig) by {
      if r.migrated != [] {
        assert r.migrated[0] in r.migrated;
      }
      if f :| f in d.oldConfig && MissingOrSame(f, d.newConfig) {
        assert f.name in r.migrated;
      }
    }
  }

  function FleetStart(prior: map<Item, Marker>): FleetResult {
    FleetResult([], [], prior)
  }

  lemma FleetStep(d: Disk, env: Env)
    requires DistinctItems(Trees(d))
    ensures var did, prior := MigrateFleetRetryAware(d, d.sentinel, env), PriorMarkers(d);
      && did.disk == d.(newFleet := did.disk.newFleet)
      && (did.result.Some? <==> forall w :: w in Trees(d) ==> TreeWorks(w, d.newFleet, env))
      && (did.result.Some? ==>
        && FleetOutcome(Trees(d), d.newFleet, prior, env, FleetStart(prior), did.result.value)
        && forall w :: w in Trees(d) ==>
          w.item in did.disk.newFleet && did.disk.newFleet[w.item] == if w.item in d.newFleet then d.newFleet[w.item] else w.data)
  {
    var did, prior := MigrateFleetRetryAware(d, d.sentinel, env), PriorMarkers(d);
    if d.oldFleet.Some? {
      var todo := d.oldFleet.value;
      FleetMeans(d, todo, prior, env, FleetStart(prior));
      FleetKeeps(d, todo, prior, env, FleetStart(prior));
      FleetAccounted(d, todo, prior, env, FleetStart(prior));
      if did.result.Some? {
        forall w | w in todo && w.item !in d.newFleet ensures did.disk.newFleet[w.item] == w.data {
          SameItem(todo, w, Worktree(w.item, did.disk.newFleet[w.item]));
        }
      }
    }
  }

  lemma FleetIsProved(d: Disk, d': Disk, r: FleetResult, env: Env)
    requires DistinctItems(Trees(d)) && d'.oldFleet == d.oldFleet
    requires forall w :: w in Trees(d) ==> TreeWorks(w, d.newFleet, env)
    requires FleetOutcome(Trees(d), d.newFleet, PriorMarkers(d), env, FleetStart(PriorMarkers(d)), r)
    requires forall w :: w in Trees(d) ==>
      w.item in d'.newFleet && d'.newFleet[w.item] == if w.item in d.newFleet then d.newFleet[w.item] else w.data
    ensures VerifyFleet(d', r.migrated, env) == [] <==> FleetProves(d, env)
  {
    VerifyFleetMeans(d', r.migrated, env);
    var prior := PriorMarkers(d);
    forall w | w in Trees(d) && MissingOrOurs(w, d.newFleet, prior, env)
      ensures InOneState(d', w.item, env) <==> w.item in d.newFleet ==> env.git(w.data) == Some(prior[w.item])
      ensures w.item in r.migrated
    {
      if InOneState(d', w.item, env) {
        var v :| v in d.oldFleet.value && v.item == w.item && env.git(v.data) == env.git(d'.newFleet[w.item]);
        SameItem(Trees(d), v, w);
      }
    }
  }

  /** Every source file is at its destination, with its bytes where there was none. */
  ghost predicate LeavesConfig(d: Disk, d': Disk) {
    forall f :: f in d.oldConfig ==>
      f.name in d'.newConfig && (f.name !in d.newConfig ==> d'.newConfig[f.name] == f.data)
  }

  /** The database is there, upgraded where it is new, and a hash is kept while it is ours. */
  ghost predicate LeavesStore(d: Disk, d': Disk, hash: string, env: Env) {
    && d'.newDb == (if d.newDb.None? && d.oldDb.Some? && env.vacuum(d.oldDb.value).Some?
                    then Some(env.upgraded(env.vacuum(d.oldDb.value).value)) else d.newDb)
    && hash == (if d'.newDb.Some? && (d.newDb.None? || StoreIsOurs(d, env)) then env.hash(d'.newDb.value) else "")
  }

  /** Every worktree is there, and of those that are ours what git says is kept; worktrees
      without a source are remembered as before. */
  ghost predicate LeavesFleet(d: Disk, d': Disk, state: map<Item, Marker>, env: Env) {
    && (forall w :: w in Trees(d) ==>
      && w.item in d'.newFleet && (w.item !in d.newFleet ==> d'.newFleet[w.item] == w.data)
      && if MissingOrOurs(w, d.newFleet, PriorMarkers(d), env)
         then w.item in state && env.git(d'.newFleet[w.item]) == Some(state[w.item])
         else w.item !in state)
    && (forall item :: (forall w :: w in Trees(d) ==> w.item != item) ==>
      && (item in state <==> item in PriorMarkers(d))
      && (item in state ==> state[item] == PriorMarkers(d)[item]))
  }

  lemma FleetIsLeft(d: Disk, d': Disk, r: FleetResult, env: Env)
    requires forall w :: w in Trees(d) ==> TreeWorks(w, d.newFleet, env)
    requires FleetOutcome(Trees(d), d.newFleet, PriorMarkers(d), env, FleetStart(PriorMarkers(d)), r)
    requires forall w :: w in Trees(d) ==>
      w.item in d'.newFleet && d'.newFleet[w.item] == if w.item in d.newFleet then d.newFleet[w.item] else w.data
    ensures LeavesFleet(d, d', r.state, env)
  {
  }

  /** The store step of a run, after the configuration was written. */
  lemma StorePart(d: Disk, before: Disk, env: Env)
    requires before == d.(newConfig := before.newConfig)
    ensures var s := MigrateStoreRetryAware(before, d.sentinel, env);
      && s.disk == before.(newDb := s.disk.newDb)
      && (s.result.Some? <==> StoreWorks(d, env))
      && (s.result.Some? ==>
        && (s.result.value.conflict <==> Reports(d, env, StoreConflict))
        && LeavesStore(d, s.disk, s.result.value.hash, env))
  {
    StoreKeeps(before, d.sentinel, env);
    StoreMeans(before, env);
  }

  lemma StoreProof(d: Disk, before: Disk, after: Disk, env: Env)
    requires before == d.(newConfig := before.newConfig)
    requires var s := MigrateStoreRetryAware(before, d.sentinel, env); s.result.Some? && after.newDb == s.disk.newDb
    ensures VerifyStore(after, MigrateStoreRetryAware(before, d.sentinel, env).result.value, env) == [] <==> StoreProves(d, env)
  {
    StoreMeans(before, env);
    VerifyStoreMeans(after, MigrateStoreRetryAware(before, d.sentinel, env).result.value, env);
  }

  /** The fleet step of a run, after the configuration and the database were written. */
  lemma FleetPart(d: Disk, before: Disk, env: Env)
    requires DistinctItems(Trees(d)) && before == d.(newConfig := before.newConfig, newDb := before.newDb)
    ensures var f := MigrateFleetRetryAware(before, d.sentinel, env);
      && f.disk == before.(newFleet := f.disk.newFleet)
      && (f.result.Some? <==> forall w :: w in Trees(d) ==> TreeWorks(w, d.newFleet, env))
      && (f.result.Some? ==>
        && FleetOutcome(Trees(d), d.newFleet, PriorMarkers(d), env, FleetStart(PriorMarkers(d)), f.result.value)
        && (VerifyFleet(f.disk, f.result.value.migrated, env) == [] <==> FleetProves(d, env))
        && LeavesFleet(d, f.disk, f.result.value.state, env))
  {
    FleetStep(before, env);
    var f := MigrateFleetRetryAware(before, d.sentinel, env);
    if f.result.Some? {
      FleetIsProved(d, f.disk, f.result.value, env);
      FleetIsLeft(d, f.disk, f.result.value, env);
    }
  }

  /** The configuration step of a run, and what its files prove at the end. */
  lemma ConfigPart(d: Disk, after: Disk, env: Env)
    requires DistinctNames(d.oldConfig) && after.oldConfig == d.oldConfig
    requires var c := MigrateConfig(d, d.oldConfig, env, NO_CONFIG); c.result.Some? && after.newConfig == c.disk.newConfig
    ensures var c := MigrateConfig(d, d.oldConfig, env, NO_CONFIG);
      && ConfigOutcome(d.oldConfig, d.newConfig, NO_CONFIG, c.result.value)
      && (VerifyConfig(after, c.result.value.migrated, env) == [] <==> ConfigProves(d, env))
      && LeavesConfig(d, after)
  {
    ConfigStep(d, env);
    ConfigAccounted(d, d.oldConfig, env, NO_CONFIG);
    ConfigIsProved(d, after, MigrateConfig(d, d.oldConfig, env, NO_CONFIG).result.value, env);
  }

  /** A run with work ends well exactly when everything it needs from the outside does. It then
      reports exactly what is there and not ours, calls its own exactly the worktrees that were
      missing or in their recorded state, and is verified exactly when what it copied or took
      over proves itself: a condition on what was there before the run. */
  lemma RunMeans(d: Disk, env: Env)
    requires env.starts && HasWork(d) && Listed(d)
    ensures Run(d, env).answer.Returned? <==> AllWorks(d, env)
    ensures AllWorks(d, env) ==>
      var r := Run(d, env);
      && r.disk.sentinel.Some? && r.answer == Returned(r.disk.sentinel)
      && LeavesConfig(d, r.disk)
      && LeavesStore(d, r.disk, r.disk.sentinel.value.storeHash, env)
      && LeavesFleet(d, r.disk, r.disk.sentinel.value.fleet, env)
      && (forall c :: c in r.disk.sentinel.value.conflicts <==> Reports(d, env, c))
      && (r.disk.sentinel.value.verified <==> r.disk.sentinel.value.mismatches == [])
      && (r.disk.sentinel.value.verified <==> ConfigProves(d, env) && StoreProves(d, env) && FleetProves(d, env))
      && (forall item :: item in r.ours <==>
        exists w :: w in Trees(d) && w.item == item && MissingOrOurs(w, d.newFleet, PriorMarkers(d), env))
  {
    var c := MigrateConfig(d, d.oldConfig, env, NO_CONFIG);
    var s := MigrateStoreRetryAware(c.disk, d.sentinel, env);
    var f := MigrateFleetRetryAware(s.disk, d.sentinel, env);
    ConfigStep(d, env);
    StorePart(d, c.disk, env);
    FleetPart(d, s.disk, env);
    if AllWorks(d, env) {
      ConfigPart(d, f.disk, env);
      StoreProof(d, c.disk, f.disk, env);
      var sentinel := Concluded(f.disk, c.result.value, s.result.value, f.result.value, env);
      assert Run(d, env) == Ran(f.disk.(sentinel := Some(sentinel)), Returned(Some(sentinel)), f.result.value.migrated);
      ConflictsMean(c.result.value, s.result.value, f.result.value, d, env);
    }
  }

  lemma ConflictsMean(c: ConfigResult, s: StoreResult, f: FleetResult, d: Disk, env: Env)
    requires ConfigOutcome(d.oldConfig, d.newConfig, NO_CONFIG, c)
    requires FleetOutcome(Trees(d), d.newFleet, PriorMarkers(d), env, FleetStart(PriorMarkers(d)), f)
    requires s.conflict <==> Reports(d, env, StoreConflict)
    ensures forall x :: x in c.conflicts + (if s.conflict then [StoreConflict] else []) + f.conflicts <==> Reports(d, env, x)
  {
  }
}
