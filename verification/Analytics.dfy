/** Work analytics: counts over the live rows of a project, or of all of them, plus what
    rotation has already folded into rollups. */
module Analytics {
  import opened Wrappers
  import opened Counts

  datatype Run = Run(id: string, project: string, status: string, workType: string, intent: string, created: int)

  /** What a phase payload says about who did the work; an empty agent says nothing. */
  datatype Provenance = Provenance(agent: string, model: string, provider: string)

  datatype Phase = Phase(id: string, run: string, provenance: Provenance)

  datatype Envelope = Envelope(id: string, run: string)

  datatype DeliveryRow = DeliveryRow(id: string, envelope: string)

  datatype Bullet = Bullet(id: string, intent: string, status: string)

  datatype Intent = Intent(id: string, project: string)

  datatype Rollup = Rollup(
    project: string, runs: nat, passed: nat, failed: nat, cancelled: nat, interrupted: nat,
    bulletTotal: nat, bulletMerged: nat,
    byWorkType: Counters, byAgent: Counters, byModel: Counters, byProvider: Counters)

  datatype Db = Db(
    runs: seq<Run>, phases: seq<Phase>, envelopes: seq<Envelope>, deliveries: seq<DeliveryRow>,
    bullets: seq<Bullet>, intents: seq<Intent>, rollups: seq<Rollup>)

  /** Everything analytics counts runs by. */
  datatype Key =
    | AllRuns
    | ByStatus(status: string)
    | ByType(workType: string)
    | ByAgent(agent: string)
    | ByModel(model: string)
    | ByProvider(provider: string)

  datatype WorkAnalytics = WorkAnalytics(
    totalRuns: nat, byStatus: Counters, byType: Counters,
    byAgent: Counters, byModel: Counters, byProvider: Counters,
    bulletsTotal: nat, bulletsMerged: nat)

  const UNKNOWN := Provenance("", "", "")

  const NO_ANALYTICS := WorkAnalytics(0, map[], map[], map[], map[], map[], 0, 0)

  predicate InQuery(project: string, query: string) {
    query == "" || query == "all" || project == query
  }

  /** The provenance on the first phase of a run that names an agent. */
  function ProvenanceOf(phases: seq<Phase>, run: string): Provenance {
    if phases == [] then UNKNOWN
    else if phases[0].run == run && phases[0].provenance.agent != "" then phases[0].provenance
    else ProvenanceOf(phases[1..], run)
  }

  predicate Falls(run: Run, who: Provenance, key: Key) {
    match key
    case AllRuns => true
    case ByStatus(status) => run.status == status
    case ByType(workType) => run.workType == workType
    case ByAgent(agent) => who.agent == agent
    case ByModel(model) => who.model == model
    case ByProvider(provider) => who.provider == provider
  }

  function Of(run: Run, phases: seq<Phase>, query: string, key: Key): nat {
    if InQuery(run.project, query) && Falls(run, ProvenanceOf(phases, run.id), key) then 1 else 0
  }

  /** How many live runs a query counts under a key. */
  function Live(runs: seq<Run>, phases: seq<Phase>, query: string, key: Key): nat {
    if runs == [] then 0
    else Live(runs[..|runs| - 1], phases, query, key) + Of(runs[|runs| - 1], phases, query, key)
  }

  function InRollup(r: Rollup, key: Key): nat {
    match key
    case AllRuns => r.runs
    case ByStatus(status) =>
      if status == "passed" then r.passed
      else if status == "failed" then r.failed
      else if status == "cancelled" then r.cancelled
      else if status == "interrupted" then r.interrupted
      else 0
    case ByType(workType) => Get(r.byWorkType, workType)
    case ByAgent(agent) => Get(r.byAgent, agent)
    case ByModel(model) => Get(r.byModel, model)
    case ByProvider(provider) => Get(r.byProvider, provider)
  }

  /** How many rotated runs a query counts under a key. */
  function Rotated(rollups: seq<Rollup>, query: string, key: Key): nat {
    if rollups == [] then 0
    else
      var last := rollups[|rollups| - 1];
      Rotated(rollups[..|rollups| - 1], query, key) + if InQuery(last.project, query) then InRollup(last, key) else 0
  }

  function Count(db: Db, query: string, key: Key): nat {
    Live(db.runs, db.phases, query, key) + Rotated(db.rollups, query, key)
  }

  predicate BulletInQuery(b: Bullet, intents: seq<Intent>, query: string) {
    exists i :: 0 <= i < |intents| && intents[i].id == b.intent && InQuery(intents[i].project, query)
  }

  function Bullets(bullets: seq<Bullet>, intents: seq<Intent>, query: string, mergedOnly: bool): nat {
    if bullets == [] then 0
    else
      var last := bullets[|bullets| - 1];
      Bullets(bullets[..|bullets| - 1], intents, query, mergedOnly)
      + if BulletInQuery(last, intents, query) && (mergedOnly ==> last.status == "merged") then 1 else 0
  }

  /** What an answer of ComputeWorkAnalytics says under a key. */
  function Said(wa: WorkAnalytics, key: Key): nat {
    match key
    case AllRuns => wa.totalRuns
    case ByStatus(status) => Get(wa.byStatus, status)
    case ByType(workType) => Get(wa.byType, workType)
    case ByAgent(agent) => Get(wa.byAgent, agent)
    case ByModel(model) => Get(wa.byModel, model)
    case ByProvider(provider) => Get(wa.byProvider, provider)
  }

  // ---- what is counted

  /** Who a run's work is put down to: the first of its phases that names an agent, or nobody. */
  ghost predicate DoneBy(phases: seq<Phase>, run: string, who: Provenance) {
    if exists j :: FirstNaming(phases, run, j) then exists j :: FirstNaming(phases, run, j) && who == phases[j].provenance
    else who == Provenance("", "", "")
  }

  ghost predicate FirstNaming(phases: seq<Phase>, run: string, j: int) {
    && 0 <= j < |phases| && phases[j].run == run && phases[j].provenance.agent != ""
    && forall k :: 0 <= k < j && phases[k].run == run ==> phases[k].provenance.agent == ""
  }

  lemma {:induction false} ProvenanceMeans(phases: seq<Phase>, run: string)
    ensures DoneBy(phases, run, ProvenanceOf(phases, run))
    ensures forall who :: DoneBy(phases, run, who) ==> who == ProvenanceOf(phases, run)
  {
    if phases != [] {
      ProvenanceMeans(phases[1..], run);
      if phases[0].run == run && phases[0].provenance.agent != "" {
        assert FirstNaming(phases, run, 0);
      } else {
        forall j: int ensures FirstNaming(phases, run, j) <==> FirstNaming(phases[1..], run, j - 1) {
          assert forall k :: 0 <= k < |phases[1..]| ==> phases[1..][k] == phases[k + 1];
          if FirstNaming(phases[1..], run, j - 1) {
            assert forall k :: 0 < k < j ==> phases[k] == phases[1..][k - 1];
          }
        }
        if i :| FirstNaming(phases[1..], run, i) {
          assert FirstNaming(phases, run, i + 1);
        }
      }
    }
  }

  /** A run counts for a query of its own project or of all, under each of its own values. */
  ghost predicate Falling(run: Run, phases: seq<Phase>, query: string, key: Key) {
    && (query == "" || query == "all" || query == run.project)
    && match key
       case AllRuns => true
       case ByStatus(status) => status == run.status
       case ByType(workType) => workType == run.workType
       case ByAgent(agent) => exists who :: DoneBy(phases, run.id, who) && who.agent == agent
       case ByModel(model) => exists who :: DoneBy(phases, run.id, who) && who.model == model
       case ByProvider(provider) => exists who :: DoneBy(phases, run.id, who) && who.provider == provider
  }

  lemma OfMeans(run: Run, phases: seq<Phase>, query: string, key: Key)
    ensures Of(run, phases, query, key) == if Falling(run, phases, query, key) then 1 else 0
  {
    ProvenanceMeans(phases, run.id);
  }

  /** Each live run adds one exactly to the counts it falls under. */
  lemma LiveMeans(runs: seq<Run>, run: Run, phases: seq<Phase>, query: string, key: Key)
    ensures Live([], phases, query, key) == 0
    ensures Live(runs + [run], phases, query, key) == Live(runs, phases, query, key) + if Falling(run, phases, query, key) then 1 else 0
  {
    assert (runs + [run])[..|runs|] == runs;
    OfMeans(run, phases, query, key);
  }

  /** Each bullet adds one exactly for the queries of a project that its intent is of. */
  lemma BulletsMean(bullets: seq<Bullet>, b: Bullet, intents: seq<Intent>, query: string, mergedOnly: bool)
    ensures Bullets([], intents, query, mergedOnly) == 0
    ensures Bullets(bullets + [b], intents, query, mergedOnly) == Bullets(bullets, intents, query, mergedOnly)
      + if (mergedOnly ==> b.status == "merged")
           && (exists i :: 0 <= i < |intents| && intents[i].id == b.intent
                 && (query == "" || query == "all" || query == intents[i].project)) then 1 else 0
  {
    assert (bullets + [b])[..|bullets|] == bullets;
  }

  /** Where an answer of the computation is read. */
  lemma SaidMeans(wa: WorkAnalytics, name: string)
    ensures Said(wa, AllRuns) == wa.totalRuns
    ensures Said(wa, ByStatus(name)) == Get(wa.byStatus, name) && Said(wa, ByType(name)) == Get(wa.byType, name)
    ensures Said(wa, ByAgent(name)) == Get(wa.byAgent, name) && Said(wa, ByModel(name)) == Get(wa.byModel, name)
    ensures Said(wa, ByProvider(name)) == Get(wa.byProvider, name)
  {
  }

  /** A rollup counts for the same queries, under each of its counters. */
  lemma {:induction false} RotatedMeans(rollups: seq<Rollup>, query: string, r: Rollup)
    ensures query == "" || query == "all" || query == r.project ==>
      forall key :: Rotated(rollups + [r], query, key) == Rotated(rollups, query, key) + InRollup(r, key)
    ensures !(query == "" || query == "all" || query == r.project) ==>
      forall key :: Rotated(rollups + [r], query, key) == Rotated(rollups, query, key)
    ensures InRollup(r, AllRuns) == r.runs && forall key :: Rotated([], query, key) == 0
    ensures InRollup(r, ByStatus("passed")) == r.passed && InRollup(r, ByStatus("failed")) == r.failed
    ensures InRollup(r, ByStatus("cancelled")) == r.cancelled && InRollup(r, ByStatus("interrupted")) == r.interrupted
    ensures forall name :: InRollup(r, ByType(name)) == Get(r.byWorkType, name) && InRollup(r, ByAgent(name)) == Get(r.byAgent, name)
    ensures forall name :: InRollup(r, ByModel(name)) == Get(r.byModel, name) && InRollup(r, ByProvider(name)) == Get(r.byProvider, name)
    ensures forall status :: status !in {"passed", "failed", "cancelled", "interrupted"} ==> InRollup(r, ByStatus(status)) == 0
  {
    assert (rollups + [r])[..|rollups|] == rollups;
  }

  // ---- the computation

  method ProvenanceForRun(phases: seq<Phase>, run: string) returns (who: Provenance)
    ensures who == ProvenanceOf(phases, run)
  {
    assert phases[0..] == phases;
    for i := 0 to |phases|
      invariant ProvenanceOf(phases, run) == ProvenanceOf(phases[i..], run)
    {
      assert phases[i..][1..] == phases[i + 1..];
      if phases[i].run == run && phases[i].provenance.agent != "" {
        return phases[i].provenance;
      }
    }
    who := UNKNOWN;
  }

  /** Rollups as the table holds them: one row for a project. */
  predicate OnePerProject(rollups: seq<Rollup>) {
    forall i, j :: 0 <= i < j < |rollups| ==> rollups[i].project != rollups[j].project
  }

  function IndexOf(rollups: seq<Rollup>, project: string): (at: nat)
    ensures at <= |rollups|
    ensures at < |rollups| ==> rollups[at].project == project
    ensures at == |rollups| ==> forall i :: 0 <= i < |rollups| ==> rollups[i].project != project
  {
    if rollups == [] then 0
    else if rollups[0].project == project then 0
    else 1 + IndexOf(rollups[1..], project)
  }

  method GetRetentionRollup(rollups: seq<Rollup>, project: string) returns (at: nat, found: bool)
    ensures at == IndexOf(rollups, project)
    ensures found <==> at < |rollups|
  {
    at := 0;
    assert rollups[0..] == rollups;
    while at < |rollups|
      invariant 0 <= at <= |rollups|
      invariant IndexOf(rollups, project) == at + IndexOf(rollups[at..], project)
    {
      assert rollups[at..][1..] == rollups[at + 1..];
      if rollups[at].project == project {
        return at, true;
      }
      at := at + 1;
    }
    found := false;
  }

  lemma {:induction false} RotatedNone(rollups: seq<Rollup>, query: string, key: Key)
    requires forall i :: 0 <= i < |rollups| ==> !InQuery(rollups[i].project, query)
    ensures Rotated(rollups, query, key) == 0
  {
    if rollups != [] {
      RotatedNone(rollups[..|rollups| - 1], query, key);
    }
  }

  /** A named project has at most its own rollup. */
  lemma {:induction false} RotatedOfOne(rollups: seq<Rollup>, at: nat, query: string, key: Key)
    requires OnePerProject(rollups) && at < |rollups| && query != "" && query != "all"
    requires rollups[at].project == query
    ensures Rotated(rollups, query, key) == Rotated([rollups[at]], query, key) == InRollup(rollups[at], key)
  {
    var last := |rollups| - 1;
    assert [rollups[at]][..0] == [];
    if at == last {
      RotatedNone(rollups[..last], query, key);
    } else {
      RotatedOfOne(rollups[..last], at, query, key);
    }
  }

  method RetentionRollupsFor(rollups: seq<Rollup>, query: string) returns (list: seq<Rollup>)
    requires OnePerProject(rollups)
    ensures forall i :: 0 <= i < |list| ==> InQuery(list[i].project, query)
    ensures forall key :: Rotated(list, query, key) == Rotated(rollups, query, key)
  {
    if query == "" || query == "all" {
      return rollups;
    }
    var at, found := GetRetentionRollup(rollups, query);
    if found {
      list := [rollups[at]];
      forall key ensures Rotated(list, query, key) == Rotated(rollups, query, key) {
        RotatedOfOne(rollups, at, query, key);
      }
    } else {
      list := [];
      forall key ensures Rotated(list, query, key) == Rotated(rollups, query, key) {
        RotatedNone(rollups, query, key);
      }
    }
  }

  function CountRun(wa: WorkAnalytics, run: Run, who: Provenance): WorkAnalytics {
    wa.(totalRuns := wa.totalRuns + 1,
        byStatus := Bump(wa.byStatus, run.status),
        byType := Bump(wa.byType, run.workType),
        byAgent := Bump(wa.byAgent, who.agent),
        byModel := Bump(wa.byModel, who.model),
        byProvider := Bump(wa.byProvider, who.provider))
  }

  lemma CountRunAdds(wa: WorkAnalytics, run: Run, who: Provenance, key: Key)
    ensures Said(CountRun(wa, run, who), key) == Said(wa, key) + if Falls(run, who, key) then 1 else 0
  {
  }

  function AddTo(m: Counters, key: string, n: nat): (sum: Counters)
    ensures forall k :: Get(sum, k) == Get(m, k) + if k == key then n else 0
  {
    m[key := Get(m, key) + n]
  }

  method AddStatuses(m: Counters, r: Rollup) returns (sum: Counters)
    ensures forall status :: Get(sum, status) == Get(m, status) + InRollup(r, ByStatus(status))
  {
    sum := AddTo(m, "passed", r.passed);
    sum := AddTo(sum, "failed", r.failed);
    sum := AddTo(sum, "cancelled", r.cancelled);
    sum := AddTo(sum, "interrupted", r.interrupted);
  }

  method CountRollup(wa: WorkAnalytics, r: Rollup) returns (wa': WorkAnalytics)
    ensures forall key :: Said(wa', key) == Said(wa, key) + InRollup(r, key)
    ensures wa'.bulletsTotal == wa.bulletsTotal && wa'.bulletsMerged == wa.bulletsMerged
  {
    var byStatus := AddStatuses(wa.byStatus, r);
    var byType := AddCounts(wa.byType, r.byWorkType);
    var byAgent := AddCounts(wa.byAgent, r.byAgent);
    var byModel := AddCounts(wa.byModel, r.byModel);
    var byProvider := AddCounts(wa.byProvider, r.byProvider);
    wa' := wa.(totalRuns := wa.totalRuns + r.runs, byStatus := byStatus,
               byType := byType, byAgent := byAgent, byModel := byModel, byProvider := byProvider);
  }

  method CountRuns(db: Db, query: string) returns (wa: WorkAnalytics)
    ensures forall key :: Said(wa, key) == Live(db.runs, db.phases, query, key)
    ensures wa.bulletsTotal == wa.bulletsMerged == 0
  {
    wa := NO_ANALYTICS;
    assert db.runs[..|db.runs|] == db.runs;
    for i := 0 to |db.runs|
      invariant forall key :: Said(wa, key) == Live(db.runs[..i], db.phases, query, key)
      invariant wa.bulletsTotal == wa.bulletsMerged == 0
    {
      assert db.runs[..i + 1][..i] == db.runs[..i];
      ghost var before := wa;
      if InQuery(db.runs[i].project, query) {
        var who := ProvenanceForRun(db.phases, db.runs[i].id);
        wa := CountRun(wa, db.runs[i], who);
        forall key ensures Said(wa, key) == Said(before, key) + Of(db.runs[i], db.phases, query, key) {
          CountRunAdds(before, db.runs[i], who, key);
        }
      }
      assert forall key :: Said(wa, key) == Said(before, key) + Of(db.runs[i], db.phases, query, key);
    }
  }

  method CountBullets(db: Db, query: string) returns (total: nat, merged: nat)
    ensures total == Bullets(db.bullets, db.intents, query, false)
    ensures merged == Bullets(db.bullets, db.intents, query, true)
  {
    total, merged := 0, 0;
    assert db.bullets[..|db.bullets|] == db.bullets;
    for i := 0 to |db.bullets|
      invariant total == Bullets(db.bullets[..i], db.intents, query, false)
      invariant merged == Bullets(db.bullets[..i], db.intents, query, true)
    {
      assert db.bullets[..i + 1][..i] == db.bullets[..i];
      if BulletInQuery(db.bullets[i], db.intents, query) {
        total := total + 1;
        if db.bullets[i].status == "merged" {
          merged := merged + 1;
        }
      }
    }
  }

  /** Under every key: the live runs of the query plus its rotated ones; bullets from the
      live rows alone. */
  method ComputeWorkAnalytics(db: Db, query: string) returns (wa: WorkAnalytics)
    requires OnePerProject(db.rollups)
    ensures forall key :: Said(wa, key) == Count(db, query, key)
    ensures wa.bulletsTotal == Bullets(db.bullets, db.intents, query, false)
    ensures wa.bulletsMerged == Bullets(db.bullets, db.intents, query, true)
  {
    wa := CountRuns(db, query);
    var total, merged := CountBullets(db, query);
    wa := wa.(bulletsTotal := total, bulletsMerged := merged);
    assert forall key :: Said(wa, key) == Live(db.runs, db.phases, query, key);
    var rollups := RetentionRollupsFor(db.rollups, query);
    assert rollups[..|rollups|] == rollups;
    for i := 0 to |rollups|
      invariant forall key :: Said(wa, key) == Live(db.runs, db.phases, query, key) + Rotated(rollups[..i], query, key)
      invariant wa.bulletsTotal == total && wa.bulletsMerged == merged
    {
      assert rollups[..i + 1][..i] == rollups[..i];
      wa := CountRollup(wa, rollups[i]);
    }
  }
}
