/** The migration's own loops over the file system, each proved against its specification. */
module Migrator {
  import opened Wrappers
  import M = Migration

  class FileSystem {
    var oldConfig: seq<M.File>
    var oldDb: Option<M.Bytes>
    var oldFleet: Option<seq<M.Worktree>>
    var newConfig: map<string, M.Bytes>
    var newDb: Option<M.Bytes>
    var newFleet: map<M.Item, M.Bytes>
    var sentinel: Option<M.Sentinel>

    constructor (disk: M.Disk)
      ensures Contents() == disk
    {
      oldConfig, oldDb, oldFleet := disk.oldConfig, disk.oldDb, disk.oldFleet;
      newConfig, newDb, newFleet := disk.newConfig, disk.newDb, disk.newFleet;
      sentinel := disk.sentinel;
    }

    function Contents(): M.Disk
      reads this
    {
      M.Disk(oldConfig, oldDb, oldFleet, newConfig, newDb, newFleet, sentinel)
    }

    /** Copies what is missing, takes what is identical, and reports what differs. */
    method MigrateConfig(env: M.Env) returns (result: Option<M.ConfigResult>)
      modifies this`newConfig
      ensures M.Did(Contents(), result)
           == M.MigrateConfig(old(Contents()), oldConfig, env, M.ConfigResult([], []))
    {
      var done := M.ConfigResult([], []);
      assert oldConfig[0..] == oldConfig;
      for i := 0 to |oldConfig|
        invariant M.MigrateConfig(old(Contents()), oldConfig, env, M.ConfigResult([], []))
               == M.MigrateConfig(Contents(), oldConfig[i..], env, done)
      {
        assert oldConfig[i..][1..] == oldConfig[i + 1..];
        var name, data := oldConfig[i].name, oldConfig[i].data;
        if !env.readable(name) {
          return None;
        }
        if name !in newConfig {
          var copy := env.copies(name);
          if copy.Broken? {
            if copy.left.Some? {
              newConfig := newConfig[name := copy.left.value];
            }
            return None;
          }
          newConfig := newConfig[name := data];
          done := done.(migrated := done.migrated + [name]);
        } else if newConfig[name] == data {
          done := done.(migrated := done.migrated + [name]);
        } else {
          done := done.(conflicts := done.conflicts + [M.ConfigConflict(name)]);
        }
      }
      return Some(done);
    }

    method MigrateStore(env: M.Env) returns (result: Option<M.StoreResult>)
      modifies this`newDb
      ensures M.Did(Contents(), result) == M.MigrateStore(old(Contents()), env)
    {
      if oldDb.None? {
        return Some(M.NO_STORE);
      }
      if newDb.Some? {
        return Some(M.STORE_CONFLICT);
      }
      var snapshot := env.vacuum(oldDb.value);
      if snapshot.None? {
        return None;
      }
      var counts := env.rows(snapshot.value);
      if counts.None? || !env.moves {
        return None;
      }
      newDb := Some(env.upgraded(snapshot.value));
      if !env.opens || !env.hashes {
        return None;
      }
      return Some(M.StoreResult(true, false, counts.value, env.hash(newDb.value)));
    }

    /** An existing database is ours only while its hash is the one recorded for it. */
    method MigrateStoreRetryAware(prior: Option<M.Sentinel>, env: M.Env) returns (result: Option<M.StoreResult>)
      modifies this`newDb
      ensures M.Did(Contents(), result) == M.MigrateStoreRetryAware(old(Contents()), prior, env)
    {
      if prior.Some? && prior.value.storeHash != "" && newDb.Some? {
        if !env.hashes {
          return None;
        }
        var current := env.hash(newDb.value);
        if current != prior.value.storeHash {
          return Some(M.STORE_CONFLICT);
        }
        var counted := newDb;
        if oldDb.Some? {
          counted := env.vacuum(oldDb.value);
        }
        if counted.None? {
          return None;
        }
        var counts := env.rows(counted.value);
        if counts.None? {
          return None;
        }
        return Some(M.StoreResult(true, false, counts.value, current));
      }
      result := MigrateStore(env);
    }

    /** An existing worktree is ours only while git says what it said after the copy. */
    method MigrateFleetRetryAware(prior: Option<M.Sentinel>, env: M.Env) returns (result: Option<M.FleetResult>)
      modifies this`newFleet
      ensures M.Did(Contents(), result) == M.MigrateFleetRetryAware(old(Contents()), prior, env)
    {
      var priorState := if prior.Some? then prior.value.fleet else map[];
      if oldFleet.None? {
        return Some(M.FleetResult([], [], priorState));
      }
      var done := M.FleetResult([], [], priorState);
      var todo := oldFleet.value;
      assert todo[0..] == todo;
      for i := 0 to |todo|
        invariant M.MigrateFleetRetryAware(old(Contents()), prior, env)
               == M.MigrateFleet(Contents(), todo[i..], priorState, env, done)
      {
        assert todo[i..][1..] == todo[i + 1..];
        var item := todo[i].item;
        if !env.lists(item.task) {
          return None;
        }
        if item in newFleet {
          if item in priorState {
            var current := env.git(newFleet[item]);
            if current.Some? && current.value == priorState[item] {
              done := done.(migrated := done.migrated + [item], state := done.state[item := priorState[item]]);
              continue;
            }
          }
          done := done.(conflicts := done.conflicts + [M.FleetConflict(item)], state := done.state - {item});
          continue;
        }
        var copy := env.trees(item);
        if copy.Broken? {
          if copy.left.Some? {
            newFleet := newFleet[item := copy.left.value];
          }
          return None;
        }
        newFleet := newFleet[item := todo[i].data];
        var marker := env.git(todo[i].data);
        if marker.None? {
          return None;
        }
        done := done.(migrated := done.migrated + [item], state := done.state[item := marker.value]);
      }
      return Some(done);
    }

    method VerifyFleet(migrated: seq<M.Item>, env: M.Env) returns (mismatches: seq<M.Mismatch>)
      ensures mismatches == M.VerifyFleet(Contents(), migrated, env)
    {
      var disk := Contents();
      mismatches := [];
      assert migrated[0..] == migrated;
      for i := 0 to |migrated|
        invariant M.VerifyFleet(disk, migrated, env) == mismatches + M.VerifyFleet(disk, migrated[i..], env)
      {
        assert migrated[i..][1..] == migrated[i + 1..];
        var found := M.FleetMismatch(disk, migrated[i], env);
        ghost var rest := M.VerifyFleet(disk, migrated[i + 1..], env);
        assert mismatches + (found + rest) == (mismatches + found) + rest;
        mismatches := mismatches + found;
      }
    }

    /** Safe to call on every start: verified is a hard skip, nothing old is nothing to do. */
    method Run(env: M.Env) returns (answer: M.Answer)
      modifies this
      ensures Contents() == M.Run(old(Contents()), env).disk && answer == M.Run(old(Contents()), env).answer
    {
      if !env.starts {
        return M.Errored;
      }
      if sentinel.Some? && sentinel.value.verified {
        return M.Returned(sentinel);
      }
      if !M.Detected(Contents()) {
        return M.Returned(sentinel);
      }
      answer := RunMigration(sentinel, env);
    }

    /** The sentinel is written last, and only when nothing before it failed. */
    method RunMigration(prior: Option<M.Sentinel>, env: M.Env) returns (answer: M.Answer)
      modifies this
      ensures var r := M.RunMigration(old(Contents()), prior, env);
        Contents() == r.disk && answer == r.answer
    {
      var c := MigrateConfig(env);
      if c.None? {
        return M.Errored;
      }
      var s := MigrateStoreRetryAware(prior, env);
      if s.None? {
        return M.Errored;
      }
      var f := MigrateFleetRetryAware(prior, env);
      if f.None? {
        return M.Errored;
      }
      var mismatches := M.VerifyConfig(Contents(), c.value.migrated, env) + M.VerifyStore(Contents(), s.value, env);
      var trees := VerifyFleet(f.value.migrated, env);
      mismatches := mismatches + trees;
      var conflicts := c.value.conflicts + (if s.value.conflict then [M.StoreConflict] else []) + f.value.conflicts;
      if !env.saves {
        return M.Errored;
      }
      sentinel := Some(M.Sentinel(mismatches == [], conflicts, mismatches, s.value.hash, f.value.state));
      return M.Returned(sentinel);
    }
  }
}
