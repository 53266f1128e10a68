/** The store's side of rotation: its tables, and the methods that fold and delete. A SELECT
    or a DELETE is one step of the tables; the loops around them are the store's own. */
module RetentionStore {
  import opened Counts
  import opened Analytics
  import opened Rotation

  class Store {
    var runs: seq<Run>
    var phases: seq<Phase>
    var envelopes: seq<Envelope>
    var deliveries: seq<DeliveryRow>
    var bullets: seq<Bullet>
    var intents: seq<Intent>
    var rollups: seq<Rollup>

    constructor ()
      ensures Contents() == Db([], [], [], [], [], [], [])
    {
      runs, phases, envelopes, deliveries := [], [], [], [];
      bullets, intents, rollups := [], [], [];
    }

    function Contents(): Db
      reads this
    {
      Db(runs, phases, envelopes, deliveries, bullets, intents, rollups)
    }

    method AllBulletsMerged(intent: string) returns (merged: bool)
      ensures merged == IntentFullyMerged(bullets, intent)
    {
      if intent == "" {
        return true;
      }
      for i := 0 to |bullets|
        invariant forall k :: 0 <= k < i && bullets[k].intent == intent ==> bullets[k].status == "merged"
      {
        if bullets[i].intent == intent && bullets[i].status != "merged" {
          return false;
        }
      }
      return true;
    }

    method TallyBullets(intent: string) returns (total: nat, merged: nat)
      ensures total == Tally(bullets, intent, false) && merged == Tally(bullets, intent, true)
    {
      total, merged := 0, 0;
      assert bullets[..|bullets|] == bullets;
      for i := 0 to |bullets|
        invariant total == Tally(bullets[..i], intent, false) && merged == Tally(bullets[..i], intent, true)
      {
        assert bullets[..i + 1][..i] == bullets[..i];
        if bullets[i].intent == intent {
          total := total + 1;
          if bullets[i].status == "merged" {
            merged := merged + 1;
          }
        }
      }
    }

    method FoldRunIntoRollup(run: Run, who: Provenance)
      modifies this`rollups
      ensures rollups == Folded(old(rollups), run, who, bullets)
    {
      var at, found := GetRetentionRollup(rollups, run.project);
      var start := if found then rollups[at] else EmptyRollup(run.project);
      var current := CountStatus(start.(runs := start.runs + 1), run.status);
      current := current.(byWorkType := Bump(current.byWorkType, run.workType),
                          byAgent := Bump(current.byAgent, who.agent),
                          byModel := Bump(current.byModel, who.model),
                          byProvider := Bump(current.byProvider, who.provider));
      if run.intent != "" {
        var total, merged := TallyBullets(run.intent);
        current := current.(bulletTotal := current.bulletTotal + total, bulletMerged := current.bulletMerged + merged);
      }
      assert current == Increased(start, run, who, bullets);
      rollups := if found then rollups[at := current] else rollups + [current];
    }

    /** Folds first, so that the provenance is read before the phases that carry it go. */
    method RotateOneRun(run: Run)
      modifies this
      ensures Contents() == WithoutRun(old(Contents()), run)
    {
      var who := ProvenanceForRun(phases, run.id);
      FoldRunIntoRollup(run, who);
      deliveries := DeliveriesWithout(deliveries, envelopes, run.id);
      envelopes := EnvelopesWithout(envelopes, run.id);
      phases := PhasesWithout(phases, run.id);
      runs := RunsWithout(runs, run.id);
    }

    method RotateProject(project: string, cutoff: int) returns (rotated: nat)
      modifies this
      ensures Contents() == Rotate(old(Contents()), project, cutoff)
      ensures rotated == RotateCount(old(bullets), Candidates(old(runs), project, cutoff))
      ensures old(Valid(Contents())) ==> |runs| + rotated == |old(runs)|
      ensures old(Valid(Contents())) ==> forall r :: r in runs <==>
        && r in old(runs)
        && !(&& r.project == project
             && r.status in {"passed", "failed", "cancelled", "interrupted"}
             && r.created < cutoff
             && (r.intent == "" || forall b :: b in old(bullets) && b.intent == r.intent ==> b.status == "merged"))
    {
      if Valid(Contents()) {
        RotationTakes(Contents(), project, cutoff);
      }
      var candidates := Candidates(runs, project, cutoff);
      rotated := 0;
      assert candidates[0..] == candidates;
      for i := 0 to |candidates|
        invariant bullets == old(bullets)
        invariant RotateAll(old(Contents()), candidates) == RotateAll(Contents(), candidates[i..])
        invariant RotateCount(bullets, candidates) == rotated + RotateCount(bullets, candidates[i..])
      {
        assert candidates[i..][1..] == candidates[i + 1..];
        var eligible := AllBulletsMerged(candidates[i].intent);
        if !eligible {
          continue;
        }
        RotateOneRun(candidates[i]);
        rotated := rotated + 1;
      }
    }

    /** Rotating and asking again gives every answer that was given before. */
    method RotateThenCompute(project: string, cutoff: int, query: string) returns (before: WorkAnalytics, after: WorkAnalytics)
      requires Valid(Contents())
      modifies this
      ensures Valid(Contents())
      ensures forall key :: Said(before, key) == Said(after, key)
      ensures before.bulletsTotal == after.bulletsTotal && before.bulletsMerged == after.bulletsMerged
    {
      ghost var db := Contents();
      before := ComputeWorkAnalytics(Contents(), query);
      var rotated := RotateProject(project, cutoff);
      forall key ensures Count(Contents(), query, key) == Count(db, query, key) {
        CandidatesPend(db, project, cutoff);
        RotateAllConserves(db, Candidates(db.runs, project, cutoff), query, key);
      }
      RotationIsExact(db, project, cutoff);
      after := ComputeWorkAnalytics(Contents(), query);
    }
  }

  method CountStatus(r: Rollup, status: string) returns (r': Rollup)
    ensures r' == r.(passed := r.passed + if status == "passed" then 1 else 0,
                     failed := r.failed + if status == "failed" then 1 else 0,
                     cancelled := r.cancelled + if status == "cancelled" then 1 else 0,
                     interrupted := r.interrupted + if status == "interrupted" then 1 else 0)
  {
    r' := r;
    if status == "passed" {
      r' := r.(passed := r.passed + 1);
    } else if status == "failed" {
      r' := r.(failed := r.failed + 1);
    } else if status == "cancelled" {
      r' := r.(cancelled := r.cancelled + 1);
    } else if status == "interrupted" {
      r' := r.(interrupted := r.interrupted + 1);
    }
  }
}
