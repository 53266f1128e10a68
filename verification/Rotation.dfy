/** Rotation of old runs: each eligible run is folded into its project's rollup and its
    rows deleted, so that no analytics answer moves. */
module Rotation {
  import opened Wrappers
  import opened Counts
  import opened Analytics

  predicate RotationEligible(status: string) {
    status == "passed" || status == "failed" || status == "cancelled" || status == "interrupted"
  }

  predicate IntentFullyMerged(bullets: seq<Bullet>, intent: string) {
    intent == "" || forall i :: 0 <= i < |bullets| && bullets[i].intent == intent ==> bullets[i].status == "merged"
  }

  predicate Candidate(run: Run, project: string, cutoff: int) {
    run.project == project && RotationEligible(run.status) && run.created < cutoff
  }

  /** The runs one rotation takes. */
  predicate Eligible(run: Run, bullets: seq<Bullet>, project: string, cutoff: int) {
    Candidate(run, project, cutoff) && IntentFullyMerged(bullets, run.intent)
  }

  // ---- rows without a run

  function RunsWithout(runs: seq<Run>, id: string): seq<Run> {
    if runs == [] then []
    else RunsWithout(runs[..|runs| - 1], id) + if runs[|runs| - 1].id == id then [] else [runs[|runs| - 1]]
  }

  function PhasesWithout(phases: seq<Phase>, run: string): seq<Phase> {
    if phases == [] then []
    else (if phases[0].run == run then [] else [phases[0]]) + PhasesWithout(phases[1..], run)
  }

  function EnvelopesWithout(envelopes: seq<Envelope>, run: string): seq<Envelope> {
    if envelopes == [] then []
    else (if envelopes[0].run == run then [] else [envelopes[0]]) + EnvelopesWithout(envelopes[1..], run)
  }

  predicate EnvelopeOf(envelopes: seq<Envelope>, id: string, run: string) {
    exists i :: 0 <= i < |envelopes| && envelopes[i] == Envelope(id, run)
  }

  function DeliveriesWithout(deliveries: seq<DeliveryRow>, envelopes: seq<Envelope>, run: string): seq<DeliveryRow> {
    if deliveries == [] then []
    else (if EnvelopeOf(envelopes, deliveries[0].envelope, run) then [] else [deliveries[0]])
         + DeliveriesWithout(deliveries[1..], envelopes, run)
  }

  // ---- the fold

  function Tally(bullets: seq<Bullet>, intent: string, mergedOnly: bool): nat {
    if bullets == [] then 0
    else
      Tally(bullets[..|bullets| - 1], intent, mergedOnly)
      + if bullets[|bullets| - 1].intent == intent && (mergedOnly ==> bullets[|bullets| - 1].status == "merged")
        then 1 else 0
  }

  function EmptyRollup(project: string): Rollup {
    Rollup(project, 0, 0, 0, 0, 0, 0, 0, map[], map[], map[], map[])
  }

  function Increased(r: Rollup, run: Run, who: Provenance, bullets: seq<Bullet>): Rollup {
    r.(runs := r.runs + 1,
       passed := r.passed + if run.status == "passed" then 1 else 0,
       failed := r.failed + if run.status == "failed" then 1 else 0,
       cancelled := r.cancelled + if run.status == "cancelled" then 1 else 0,
       interrupted := r.interrupted + if run.status == "interrupted" then 1 else 0,
       byWorkType := Bump(r.byWorkType, run.workType),
       byAgent := Bump(r.byAgent, who.agent),
       byModel := Bump(r.byModel, who.model),
       byProvider := Bump(r.byProvider, who.provider),
       bulletTotal := r.bulletTotal + if run.intent == "" then 0 else Tally(bullets, run.intent, false),
       bulletMerged := r.bulletMerged + if run.intent == "" then 0 else Tally(bullets, run.intent, true))
  }

  function Folded(rollups: seq<Rollup>, run: Run, who: Provenance, bullets: seq<Bullet>): seq<Rollup> {
    var at := IndexOf(rollups, run.project);
    if at < |rollups| then rollups[at := Increased(rollups[at], run, who, bullets)]
    else rollups + [Increased(EmptyRollup(run.project), run, who, bullets)]
  }

  function WithoutRun(db: Db, run: Run): Db {
    db.(rollups := Folded(db.rollups, run, ProvenanceOf(db.phases, run.id), db.bullets),
        deliveries := DeliveriesWithout(db.deliveries, db.envelopes, run.id),
        envelopes := EnvelopesWithout(db.envelopes, run.id),
        phases := PhasesWithout(db.phases, run.id),
        runs := RunsWithout(db.runs, run.id))
  }

  function Candidates(runs: seq<Run>, project: string, cutoff: int): seq<Run> {
    if runs == [] then []
    else (if Candidate(runs[0], project, cutoff) then [runs[0]] else []) + Candidates(runs[1..], project, cutoff)
  }

  function RotateAll(db: Db, candidates: seq<Run>): Db
    decreases |candidates|
  {
    if candidates == [] then db
    else
      RotateAll(if IntentFullyMerged(db.bullets, candidates[0].intent) then WithoutRun(db, candidates[0]) else db,
                candidates[1..])
  }

  function RotateCount(bullets: seq<Bullet>, candidates: seq<Run>): nat {
    if candidates == [] then 0
    else (if IntentFullyMerged(bullets, candidates[0].intent) then 1 else 0) + RotateCount(bullets, candidates[1..])
  }

  function Rotate(db: Db, project: string, cutoff: int): Db {
    RotateAll(db, Candidates(db.runs, project, cutoff))
  }

  // ---- what a database keeps

  ghost predicate DistinctRuns(runs: seq<Run>) {
    forall i, j :: 0 <= i < j < |runs| ==> runs[i].id != runs[j].id
  }

  ghost predicate DistinctEnvelopes(envelopes: seq<Envelope>) {
    forall i, j :: 0 <= i < j < |envelopes| ==> envelopes[i].id != envelopes[j].id
  }

  /** The four statuses of a rollup sum to its runs, and so does each of its breakdowns. */
  ghost predicate Balanced(r: Rollup) {
    && r.passed + r.failed + r.cancelled + r.interrupted == r.runs
    && Total(r.byWorkType) == Total(r.byAgent) == Total(r.byModel) == Total(r.byProvider) == r.runs
  }

  ghost predicate Valid(db: Db) {
    && DistinctRuns(db.runs) && DistinctEnvelopes(db.envelopes) && OnePerProject(db.rollups)
    && forall i :: 0 <= i < |db.rollups| ==> Balanced(db.rollups[i])
  }

  // ---- deleting a run's rows

  lemma {:induction false} RunsWithoutMeans(runs: seq<Run>, id: string)
    ensures forall r :: r in RunsWithout(runs, id) <==> r in runs && r.id != id
    ensures DistinctRuns(runs) ==> DistinctRuns(RunsWithout(runs, id))
  {
    if runs != [] {
      var before, last := runs[..|runs| - 1], runs[|runs| - 1];
      RunsWithoutMeans(before, id);
      assert runs == before + [last];
      var kept := RunsWithout(before, id);
      if DistinctRuns(runs) {
        forall i | 0 <= i < |kept| ensures kept[i].id != last.id {
          assert kept[i] in before;
        }
      }
    }
  }

  /** Deleting one run of a table takes away exactly what it counted for. */
  lemma {:induction false} LiveWithout(runs: seq<Run>, phases: seq<Phase>, run: Run, query: string, key: Key)
    requires DistinctRuns(runs) && run in runs
    ensures Live(runs, phases, query, key)
         == Live(RunsWithout(runs, run.id), phases, query, key) + Of(run, phases, query, key)
  {
    var before, last := runs[..|runs| - 1], runs[|runs| - 1];
    assert runs == before + [last];
    var kept := RunsWithout(before, run.id);
    if last == run {
      NothingWithout(before, run.id);
      assert kept + [] == before;
    } else {
      LiveWithout(before, phases, run, query, key);
      assert last.id != run.id;
      assert (kept + [last])[..|kept|] == kept;
    }
  }

  lemma {:induction false} NothingWithout(runs: seq<Run>, id: string)
    requires forall i :: 0 <= i < |runs| ==> runs[i].id != id
    ensures RunsWithout(runs, id) == runs
  {
    if runs != [] {
      NothingWithout(runs[..|runs| - 1], id);
    }
  }

  lemma {:induction false} ProvenanceWithout(phases: seq<Phase>, run: string, other: string)
    requires other != run
    ensures ProvenanceOf(PhasesWithout(phases, run), other) == ProvenanceOf(phases, other)
  {
    if phases != [] {
      ProvenanceWithout(phases[1..], run, other);
      var rest := PhasesWithout(phases[1..], run);
      if phases[0].run == run {
        assert [] + rest == rest;
      } else {
        assert ([phases[0]] + rest)[1..] == rest;
      }
    }
  }

  lemma {:induction false} LiveIgnoresOthersPhases(runs: seq<Run>, phases: seq<Phase>, run: string, query: string, key: Key)
    requires forall i :: 0 <= i < |runs| ==> runs[i].id != run
    ensures Live(runs, PhasesWithout(phases, run), query, key) == Live(runs, phases, query, key)
  {
    if runs != [] {
      LiveIgnoresOthersPhases(runs[..|runs| - 1], phases, run, query, key);
      ProvenanceWithout(phases, run, runs[|runs| - 1].id);
    }
  }

  // ---- the fold adds exactly that

  lemma IncreasedAdds(r: Rollup, run: Run, who: Provenance, bullets: seq<Bullet>, key: Key)
    requires RotationEligible(run.status)
    ensures InRollup(Increased(r, run, who, bullets), key) == InRollup(r, key) + if Falls(run, who, key) then 1 else 0
  {
  }

  lemma IncreasedIsBalanced(r: Rollup, run: Run, who: Provenance, bullets: seq<Bullet>)
    requires RotationEligible(run.status) && Balanced(r)
    ensures Balanced(Increased(r, run, who, bullets))
  {
    TotalOfBump(r.byWorkType, run.workType);
    TotalOfBump(r.byAgent, who.agent);
    TotalOfBump(r.byModel, who.model);
    TotalOfBump(r.byProvider, who.provider);
  }

  lemma {:induction false} RotatedUpdate(rollups: seq<Rollup>, at: nat, r: Rollup, query: string, key: Key)
    requires at < |rollups| && r.project == rollups[at].project
    ensures Rotated(rollups[at := r], query, key) + (if InQuery(r.project, query) then InRollup(rollups[at], key) else 0)
         == Rotated(rollups, query, key) + (if InQuery(r.project, query) then InRollup(r, key) else 0)
  {
    var last := |rollups| - 1;
    if at == last {
      assert rollups[at := r][..last] == rollups[..last];
    } else {
      assert rollups[at := r][..last] == rollups[..last][at := r];
      RotatedUpdate(rollups[..last], at, r, query, key);
    }
  }

  lemma FoldAdds(rollups: seq<Rollup>, run: Run, who: Provenance, bullets: seq<Bullet>, query: string, key: Key)
    requires RotationEligible(run.status)
    ensures Rotated(Folded(rollups, run, who, bullets), query, key)
         == Rotated(rollups, query, key) + if InQuery(run.project, query) && Falls(run, who, key) then 1 else 0
  {
    var at := IndexOf(rollups, run.project);
    if at < |rollups| {
      IncreasedAdds(rollups[at], run, who, bullets, key);
      RotatedUpdate(rollups, at, Increased(rollups[at], run, who, bullets), query, key);
    } else {
      IncreasedAdds(EmptyRollup(run.project), run, who, bullets, key);
      assert Folded(rollups, run, who, bullets)[..|rollups|] == rollups;
    }
  }

  lemma {:induction false} EnvelopesWithoutMeans(envelopes: seq<Envelope>, run: string)
    ensures forall e :: e in EnvelopesWithout(envelopes, run) <==> e in envelopes && e.run != run
    ensures DistinctEnvelopes(envelopes) ==> DistinctEnvelopes(EnvelopesWithout(envelopes, run))
  {
    if envelopes != [] {
      EnvelopesWithoutMeans(envelopes[1..], run);
      assert envelopes == [envelopes[0]] + envelopes[1..];
      var rest := EnvelopesWithout(envelopes[1..], run);
      if DistinctEnvelopes(envelopes) {
        forall i | 0 <= i < |rest| ensures rest[i].id != envelopes[0].id {
          assert rest[i] in envelopes[1..];
        }
      }
    }
  }

  lemma WithoutRunKeepsValid(db: Db, run: Run)
    requires Valid(db) && RotationEligible(run.status)
    ensures Valid(WithoutRun(db, run))
  {
    RunsWithoutMeans(db.runs, run.id);
    EnvelopesWithoutMeans(db.envelopes, run.id);
    var who := ProvenanceOf(db.phases, run.id);
    var at := IndexOf(db.rollups, run.project);
    if at < |db.rollups| {
      IncreasedIsBalanced(db.rollups[at], run, who, db.bullets);
    } else {
      IncreasedIsBalanced(EmptyRollup(run.project), run, who, db.bullets);
    }
  }

  /** One run rotated moves no count of any query. */
  lemma WithoutRunConserves(db: Db, run: Run, query: string, key: Key)
    requires Valid(db) && run in db.runs && RotationEligible(run.status)
    ensures Count(WithoutRun(db, run), query, key) == Count(db, query, key)
  {
    var kept := RunsWithout(db.runs, run.id);
    LiveWithout(db.runs, db.phases, run, query, key);
    RunsWithoutMeans(db.runs, run.id);
    forall i | 0 <= i < |kept| ensures kept[i].id != run.id {
      assert kept[i] in kept;
    }
    LiveIgnoresOthersPhases(kept, db.phases, run.id, query, key);
    FoldAdds(db.rollups, run, ProvenanceOf(db.phases, run.id), db.bullets, query, key);
  }

  // ---- a whole rotation

  lemma {:induction false} CandidatesMean(runs: seq<Run>, project: string, cutoff: int)
    ensures forall r :: r in Candidates(runs, project, cutoff) <==> r in runs && Candidate(r, project, cutoff)
    ensures DistinctRuns(runs) ==> DistinctRuns(Candidates(runs, project, cutoff))
  {
    if runs != [] {
      CandidatesMean(runs[1..], project, cutoff);
      assert runs == [runs[0]] + runs[1..];
      var rest := Candidates(runs[1..], project, cutoff);
      if DistinctRuns(runs) {
        forall i | 0 <= i < |rest| ensures rest[i].id != runs[0].id {
          assert rest[i] in runs[1..];
        }
      }
    }
  }

  /** What a loop over candidates may assume of them. */
  ghost predicate Pending(db: Db, candidates: seq<Run>) {
    && DistinctRuns(candidates)
    && forall i :: 0 <= i < |candidates| ==> candidates[i] in db.runs && RotationEligible(candidates[i].status)
  }

  lemma PendingRest(db: Db, candidates: seq<Run>)
    requires Pending(db, candidates) && candidates != []
    ensures Pending(db, candidates[1..]) && Pending(WithoutRun(db, candidates[0]), candidates[1..])
  {
    RunsWithoutMeans(db.runs, candidates[0].id);
  }

  function PhasesOf(phases: seq<Phase>, run: string): seq<Phase> {
    if phases == [] then []
    else (if phases[0].run == run then [phases[0]] else []) + PhasesOf(phases[1..], run)
  }

  function EnvelopesOf(envelopes: seq<Envelope>, run: string): seq<Envelope> {
    if envelopes == [] then []
    else (if envelopes[0].run == run then [envelopes[0]] else []) + EnvelopesOf(envelopes[1..], run)
  }

  function DeliveriesOf(deliveries: seq<DeliveryRow>, envelopes: seq<Envelope>, run: string): seq<DeliveryRow> {
    if deliveries == [] then []
    else (if EnvelopeOf(envelopes, deliveries[0].envelope, run) then [deliveries[0]] else [])
         + DeliveriesOf(deliveries[1..], envelopes, run)
  }

  /** What a reader of one run's phases, envelopes and deliveries sees, row by row. */
  predicate SameDetail(db: Db, db': Db, run: string) {
    && PhasesOf(db.phases, run) == PhasesOf(db'.phases, run)
    && EnvelopesOf(db.envelopes, run) == EnvelopesOf(db'.envelopes, run)
    && DeliveriesOf(db.deliveries, db.envelopes, run) == DeliveriesOf(db'.deliveries, db'.envelopes, run)
  }

  lemma {:induction false} PhasesOfOther(phases: seq<Phase>, run: string, other: string)
    requires run != other
    ensures PhasesOf(PhasesWithout(phases, run), other) == PhasesOf(phases, other)
  {
    if phases != [] {
      PhasesOfOther(phases[1..], run, other);
      var rest := PhasesWithout(phases[1..], run);
      assert [] + rest == rest && ([phases[0]] + rest)[1..] == rest;
    }
  }

  lemma {:induction false} EnvelopesOfOther(envelopes: seq<Envelope>, run: string, other: string)
    requires run != other
    ensures EnvelopesOf(EnvelopesWithout(envelopes, run), other) == EnvelopesOf(envelopes, other)
  {
    if envelopes != [] {
      EnvelopesOfOther(envelopes[1..], run, other);
      var rest := EnvelopesWithout(envelopes[1..], run);
      assert [] + rest == rest && ([envelopes[0]] + rest)[1..] == rest;
    }
  }

  lemma {:induction false} DeliveriesOfOther(deliveries: seq<DeliveryRow>, envelopes: seq<Envelope>, kept: seq<Envelope>,
                                             run: string, other: string)
    requires forall id :: EnvelopeOf(kept, id, other) <==> EnvelopeOf(envelopes, id, other)
    requires forall id :: !(EnvelopeOf(envelopes, id, run) && EnvelopeOf(envelopes, id, other))
    ensures DeliveriesOf(DeliveriesWithout(deliveries, envelopes, run), kept, other)
         == DeliveriesOf(deliveries, envelopes, other)
  {
    if deliveries != [] {
      DeliveriesOfOther(deliveries[1..], envelopes, kept, run, other);
      var rest := DeliveriesWithout(deliveries[1..], envelopes, run);
      assert [] + rest == rest && ([deliveries[0]] + rest)[1..] == rest;
    }
  }

  lemma EnvelopeOfMeans(envelopes: seq<Envelope>, id: string, run: string)
    ensures EnvelopeOf(envelopes, id, run) <==> Envelope(id, run) in envelopes
  {
    if Envelope(id, run) in envelopes {
      var i :| 0 <= i < |envelopes| && envelopes[i] == Envelope(id, run);
    }
  }

  /** Rotating one run leaves the phases, envelopes and deliveries of every other. */
  lemma WithoutRunKeepsOthers(db: Db, run: Run, other: string)
    requires Valid(db) && other != run.id
    ensures SameDetail(db, WithoutRun(db, run), other)
  {
    var kept := EnvelopesWithout(db.envelopes, run.id);
    PhasesOfOther(db.phases, run.id, other);
    EnvelopesOfOther(db.envelopes, run.id, other);
    EnvelopesWithoutMeans(db.envelopes, run.id);
    forall id ensures EnvelopeOf(kept, id, other) <==> EnvelopeOf(db.envelopes, id, other)
      ensures !(EnvelopeOf(db.envelopes, id, run.id) && EnvelopeOf(db.envelopes, id, other))
    {
      EnvelopeOfMeans(db.envelopes, id, other);
      EnvelopeOfMeans(kept, id, other);
      OneRunPerEnvelope(db.envelopes, id, run.id, other);
    }
    DeliveriesOfOther(db.deliveries, db.envelopes, kept, run.id, other);
  }

  lemma OneRunPerEnvelope(envelopes: seq<Envelope>, id: string, run: string, other: string)
    requires DistinctEnvelopes(envelopes) && run != other
    ensures !(EnvelopeOf(envelopes, id, run) && EnvelopeOf(envelopes, id, other))
  {
  }

  lemma {:induction false} RotateAllKeepsValid(db: Db, candidates: seq<Run>)
    requires Valid(db) && Pending(db, candidates)
    ensures Valid(RotateAll(db, candidates))
    decreases |candidates|
  {
    if candidates != [] {
      PendingRest(db, candidates);
      WithoutRunKeepsValid(db, candidates[0]);
      RotateAllKeepsValid(if IntentFullyMerged(db.bullets, candidates[0].intent) then WithoutRun(db, candidates[0]) else db,
                          candidates[1..]);
    }
  }

  lemma {:induction false} RotateAllConserves(db: Db, candidates: seq<Run>, query: string, key: Key)
    requires Valid(db) && Pending(db, candidates)
    ensures Count(RotateAll(db, candidates), query, key) == Count(db, query, key)
    decreases |candidates|
  {
    if candidates != [] {
      PendingRest(db, candidates);
      WithoutRunKeepsValid(db, candidates[0]);
      WithoutRunConserves(db, candidates[0], query, key);
      RotateAllConserves(if IntentFullyMerged(db.bullets, candidates[0].intent) then WithoutRun(db, candidates[0]) else db,
                         candidates[1..], query, key);
    }
  }

  /** Exactly the merged candidates are gone, and the bullets and intents are untouched. */
  lemma {:induction false} RotateAllTakes(db: Db, candidates: seq<Run>)
    requires Valid(db) && Pending(db, candidates)
    ensures var db' := RotateAll(db, candidates);
      && db'.bullets == db.bullets && db'.intents == db.intents
      && forall r :: r in db'.runs <==>
        r in db.runs && !(r in candidates && IntentFullyMerged(db.bullets, r.intent))
    decreases |candidates|
  {
    if candidates != [] {
      var first := candidates[0];
      PendingRest(db, candidates);
      WithoutRunKeepsValid(db, first);
      RunsWithoutMeans(db.runs, first.id);
      var next := if IntentFullyMerged(db.bullets, first.intent) then WithoutRun(db, first) else db;
      RotateAllTakes(next, candidates[1..]);
      assert forall r :: r in candidates <==> r == first || r in candidates[1..] by {
        assert candidates == [first] + candidates[1..];
      }
      assert forall r :: r in db.runs && r.id == first.id ==> r == first;
    }
  }

  lemma {:induction false} RotateAllKeepsOthers(db: Db, candidates: seq<Run>, other: string)
    requires Valid(db) && Pending(db, candidates)
    requires forall i :: 0 <= i < |candidates| && candidates[i].id == other ==>
      !IntentFullyMerged(db.bullets, candidates[i].intent)
    ensures SameDetail(db, RotateAll(db, candidates), other)
    decreases |candidates|
  {
    if candidates != [] {
      PendingRest(db, candidates);
      WithoutRunKeepsValid(db, candidates[0]);
      var next := if IntentFullyMerged(db.bullets, candidates[0].intent) then WithoutRun(db, candidates[0]) else db;
      if next != db {
        WithoutRunKeepsOthers(db, candidates[0], other);
      }
      RotateAllKeepsOthers(next, candidates[1..], other);
    }
  }

  lemma CandidatesPend(db: Db, project: string, cutoff: int)
    requires Valid(db)
    ensures Pending(db, Candidates(db.runs, project, cutoff))
  {
    CandidatesMean(db.runs, project, cutoff);
    var candidates := Candidates(db.runs, project, cutoff);
    forall i | 0 <= i < |candidates| ensures candidates[i] in db.runs && RotationEligible(candidates[i].status) {
      assert candidates[i] in candidates;
    }
  }

  /** A rotation takes exactly the eligible runs, touches no bullet or intent, and leaves
      the phases, envelopes and deliveries of every other run as they were. */
  lemma RotationIsExact(db: Db, project: string, cutoff: int)
    requires Valid(db)
    ensures var db' := Rotate(db, project, cutoff);
      && Valid(db') && db'.bullets == db.bullets && db'.intents == db.intents
      && (forall r :: r in db'.runs <==> r in db.runs && !Eligible(r, db.bullets, project, cutoff))
      && (forall r :: r in db'.runs ==> SameDetail(db, db', r.id))
  {
    var candidates := Candidates(db.runs, project, cutoff);
    var db' := Rotate(db, project, cutoff);
    CandidatesPend(db, project, cutoff);
    CandidatesMean(db.runs, project, cutoff);
    RotateAllKeepsValid(db, candidates);
    RotateAllTakes(db, candidates);
    forall r | r in db'.runs ensures SameDetail(db, db', r.id) {
      forall i | 0 <= i < |candidates| && candidates[i].id == r.id
        ensures !IntentFullyMerged(db.bullets, candidates[i].intent)
      {
        assert candidates[i] in candidates && candidates[i] in db.runs;
        assert candidates[i] == r;
      }
      RotateAllKeepsOthers(db, candidates, r.id);
    }
  }

  // ---- what a rotation takes, over the rows alone

  /** A run is taken when it is of the project, has one of the four statuses that are folded,
      was created before the cutoff, and names no intent or one whose bullets are all merged. */
  ghost predicate Takes(run: Run, bullets: seq<Bullet>, project: string, cutoff: int) {
    && run.project == project
    && run.status in {"passed", "failed", "cancelled", "interrupted"}
    && run.created < cutoff
    && (run.intent == "" || forall b :: b in bullets && b.intent == run.intent ==> b.status == "merged")
  }

  lemma TakesIsEligible(run: Run, bullets: seq<Bullet>, project: string, cutoff: int)
    ensures Takes(run, bullets, project, cutoff) <==> Eligible(run, bullets, project, cutoff)
  {
    if Eligible(run, bullets, project, cutoff) && run.intent != "" {
      forall b | b in bullets && b.intent == run.intent ensures b.status == "merged" {
        var i :| 0 <= i < |bullets| && bullets[i] == b;
      }
    }
  }

  lemma {:induction false} OneRunLess(runs: seq<Run>, run: Run)
    requires DistinctRuns(runs) && run in runs
    ensures |RunsWithout(runs, run.id)| + 1 == |runs|
  {
    var before, last := runs[..|runs| - 1], runs[|runs| - 1];
    assert runs == before + [last];
    if last == run {
      NothingWithout(before, run.id);
    } else {
      OneRunLess(before, run);
      assert last.id != run.id;
    }
  }

  lemma {:induction false} RotateAllCounts(db: Db, candidates: seq<Run>)
    requires Valid(db) && Pending(db, candidates)
    ensures |RotateAll(db, candidates).runs| + RotateCount(db.bullets, candidates) == |db.runs|
    decreases |candidates|
  {
    if candidates != [] {
      PendingRest(db, candidates);
      WithoutRunKeepsValid(db, candidates[0]);
      if IntentFullyMerged(db.bullets, candidates[0].intent) {
        OneRunLess(db.runs, candidates[0]);
        RotateAllCounts(WithoutRun(db, candidates[0]), candidates[1..]);
      } else {
        RotateAllCounts(db, candidates[1..]);
      }
    }
  }

  /** The run of this id is one of the candidates and goes. */
  predicate Goes(candidates: seq<Run>, bullets: seq<Bullet>, id: string) {
    exists i :: 0 <= i < |candidates| && candidates[i].id == id && IntentFullyMerged(bullets, candidates[i].intent)
  }

  lemma GoesFirst(candidates: seq<Run>, bullets: seq<Bullet>, id: string)
    requires candidates != []
    ensures Goes(candidates, bullets, id) <==>
      (candidates[0].id == id && IntentFullyMerged(bullets, candidates[0].intent)) || Goes(candidates[1..], bullets, id)
  {
    if Goes(candidates[1..], bullets, id) {
      var i :| 0 <= i < |candidates[1..]| && candidates[1..][i].id == id && IntentFullyMerged(bullets, candidates[1..][i].intent);
      assert candidates[i + 1] == candidates[1..][i];
    }
    if Goes(candidates, bullets, id) {
      var i :| 0 <= i < |candidates| && candidates[i].id == id && IntentFullyMerged(bullets, candidates[i].intent);
      assert i > 0 ==> candidates[1..][i - 1] == candidates[i];
    }
  }

  lemma {:induction false} PhasesWithoutMeans(phases: seq<Phase>, run: string)
    ensures forall p :: p in PhasesWithout(phases, run) <==> p in phases && p.run != run
  {
    if phases != [] {
      PhasesWithoutMeans(phases[1..], run);
      assert phases == [phases[0]] + phases[1..];
    }
  }

  lemma {:induction false} DeliveriesWithoutMeans(deliveries: seq<DeliveryRow>, envelopes: seq<Envelope>, run: string)
    ensures forall d :: d in DeliveriesWithout(deliveries, envelopes, run) <==> d in deliveries && Envelope(d.envelope, run) !in envelopes
  {
    if deliveries != [] {
      DeliveriesWithoutMeans(deliveries[1..], envelopes, run);
      EnvelopeOfMeans(envelopes, deliveries[0].envelope, run);
      assert deliveries == [deliveries[0]] + deliveries[1..];
    }
  }

  lemma {:induction false} RotateAllPhases(db: Db, candidates: seq<Run>)
    ensures var db' := RotateAll(db, candidates);
      && (forall p :: p in db'.phases <==> p in db.phases && !Goes(candidates, db.bullets, p.run))
      && (forall e :: e in db'.envelopes <==> e in db.envelopes && !Goes(candidates, db.bullets, e.run))
    decreases |candidates|
  {
    if candidates != [] {
      var first := candidates[0];
      forall id ensures Goes(candidates, db.bullets, id) <==>
        (first.id == id && IntentFullyMerged(db.bullets, first.intent)) || Goes(candidates[1..], db.bullets, id)
      {
        GoesFirst(candidates, db.bullets, id);
      }
      if IntentFullyMerged(db.bullets, first.intent) {
        PhasesWithoutMeans(db.phases, first.id);
        EnvelopesWithoutMeans(db.envelopes, first.id);
        RotateAllPhases(WithoutRun(db, first), candidates[1..]);
      } else {
        RotateAllPhases(db, candidates[1..]);
      }
    }
  }

  /** The delivery belongs to an envelope of a run that goes. */
  ghost predicate DeliveryGoes(d: DeliveryRow, envelopes: seq<Envelope>, candidates: seq<Run>, bullets: seq<Bullet>) {
    exists run :: Envelope(d.envelope, run) in envelopes && Goes(candidates, bullets, run)
  }

  lemma {:induction false} RotateAllDeliveries(db: Db, candidates: seq<Run>)
    ensures forall d :: d in RotateAll(db, candidates).deliveries <==>
      d in db.deliveries && !DeliveryGoes(d, db.envelopes, candidates, db.bullets)
    decreases |candidates|
  {
    if candidates != [] {
      var first, rest := candidates[0], candidates[1..];
      forall id ensures Goes(candidates, db.bullets, id) <==>
        (first.id == id && IntentFullyMerged(db.bullets, first.intent)) || Goes(rest, db.bullets, id)
      {
        GoesFirst(candidates, db.bullets, id);
      }
      if IntentFullyMerged(db.bullets, first.intent) {
        var next := WithoutRun(db, first);
        DeliveriesWithoutMeans(db.deliveries, db.envelopes, first.id);
        EnvelopesWithoutMeans(db.envelopes, first.id);
        RotateAllDeliveries(next, rest);
        forall d ensures DeliveryGoes(d, db.envelopes, candidates, db.bullets) <==>
          Envelope(d.envelope, first.id) in db.envelopes || DeliveryGoes(d, next.envelopes, rest, db.bullets)
        {
          if DeliveryGoes(d, db.envelopes, candidates, db.bullets) {
            var run :| Envelope(d.envelope, run) in db.envelopes && Goes(candidates, db.bullets, run);
            assert run != first.id ==> Envelope(d.envelope, run) in next.envelopes;
          }
          if DeliveryGoes(d, next.envelopes, rest, db.bullets) {
            var run :| Envelope(d.envelope, run) in next.envelopes && Goes(rest, db.bullets, run);
            assert Envelope(d.envelope, run) in db.envelopes;
          }
        }
      } else {
        RotateAllDeliveries(db, rest);
        assert forall d :: DeliveryGoes(d, db.envelopes, candidates, db.bullets) <==> DeliveryGoes(d, db.envelopes, rest, db.bullets);
      }
    }
  }

  /** The run of this id is taken. */
  ghost predicate TakesRun(db: Db, project: string, cutoff: int, id: string) {
    exists r :: r in db.runs && r.id == id && Takes(r, db.bullets, project, cutoff)
  }

  lemma GoesIsTakes(db: Db, project: string, cutoff: int, id: string)
    ensures Goes(Candidates(db.runs, project, cutoff), db.bullets, id) <==> TakesRun(db, project, cutoff, id)
  {
    var candidates := Candidates(db.runs, project, cutoff);
    CandidatesMean(db.runs, project, cutoff);
    if Goes(candidates, db.bullets, id) {
      var i :| 0 <= i < |candidates| && candidates[i].id == id && IntentFullyMerged(db.bullets, candidates[i].intent);
      assert candidates[i] in candidates;
      TakesIsEligible(candidates[i], db.bullets, project, cutoff);
    }
    if TakesRun(db, project, cutoff, id) {
      var r :| r in db.runs && r.id == id && Takes(r, db.bullets, project, cutoff);
      TakesIsEligible(r, db.bullets, project, cutoff);
      var i :| 0 <= i < |candidates| && candidates[i] == r;
    }
  }

  /** What a rotation leaves: every run but those it takes, and of the phases, envelopes and
      deliveries every one that is not of such a run; the answer is how many runs went. */
  lemma RotationTakes(db: Db, project: string, cutoff: int)
    requires Valid(db)
    ensures var db' := Rotate(db, project, cutoff);
      && db'.bullets == db.bullets && db'.intents == db.intents
      && (forall r :: r in db'.runs <==> r in db.runs && !Takes(r, db.bullets, project, cutoff))
      && (forall p :: p in db'.phases <==> p in db.phases && !TakesRun(db, project, cutoff, p.run))
      && (forall e :: e in db'.envelopes <==> e in db.envelopes && !TakesRun(db, project, cutoff, e.run))
      && (forall d :: d in db'.deliveries <==>
        d in db.deliveries && forall run :: Envelope(d.envelope, run) in db.envelopes ==> !TakesRun(db, project, cutoff, run))
      && |db'.runs| + RotateCount(db.bullets, Candidates(db.runs, project, cutoff)) == |db.runs|
  {
    var candidates := Candidates(db.runs, project, cutoff);
    RotationIsExact(db, project, cutoff);
    CandidatesPend(db, project, cutoff);
    RotateAllCounts(db, candidates);
    RotateAllPhases(db, candidates);
    RotateAllDeliveries(db, candidates);
    forall r: Run ensures Takes(r, db.bullets, project, cutoff) <==> Eligible(r, db.bullets, project, cutoff) {
      TakesIsEligible(r, db.bullets, project, cutoff);
    }
    forall id ensures Goes(candidates, db.bullets, id) <==> TakesRun(db, project, cutoff, id) {
      GoesIsTakes(db, project, cutoff, id);
    }
  }

  /** A rotation with one cutoff followed by one with a later cutoff leaves the same runs, and
      the same counts, as the later one alone, and the two take as many runs together. */
  lemma LaterCutoffSubsumes(db: Db, project: string, cutoff: int, later: int, query: string, key: Key)
    requires Valid(db) && cutoff <= later
    ensures var once, twice := Rotate(db, project, later), Rotate(Rotate(db, project, cutoff), project, later);
      && (forall r :: r in twice.runs <==> r in once.runs) && |twice.runs| == |once.runs|
      && Count(twice, query, key) == Count(once, query, key)
  {
    var first := Rotate(db, project, cutoff);
    RotationIsExact(db, project, cutoff);
    RotationTakes(db, project, cutoff);
    RotationTakes(first, project, later);
    RotationTakes(db, project, later);
    RotationIsExact(first, project, later);
    RotationIsExact(db, project, later);
    SameRunsAsMany(Rotate(first, project, later).runs, Rotate(db, project, later).runs);
    CandidatesPend(db, project, cutoff);
    CandidatesPend(first, project, later);
    CandidatesPend(db, project, later);
    RotateAllConserves(db, Candidates(db.runs, project, cutoff), query, key);
    RotateAllConserves(first, Candidates(first.runs, project, later), query, key);
    RotateAllConserves(db, Candidates(db.runs, project, later), query, key);
  }

  lemma {:induction false} SameRunsAsMany(a: seq<Run>, b: seq<Run>)
    requires DistinctRuns(a) && DistinctRuns(b) && forall r :: r in a <==> r in b
    ensures |a| == |b|
    decreases |a|
  {
    assert b != [] ==> b[0] in b && b[0] in a;
    if a != [] {
      var last, before := a[|a| - 1], a[..|a| - 1];
      assert a == before + [last] && last in b;
      OneRunLess(b, last);
      RunsWithoutMeans(b, last.id);
      forall r ensures r in before <==> r in RunsWithout(b, last.id) {
        if r in before {
          assert r in a && r.id != last.id;
        }
        if r in RunsWithout(b, last.id) {
          assert r in b && r in a && r.id != last.id;
        }
      }
      SameRunsAsMany(before, RunsWithout(b, last.id));
    }
  }

  /** How many bullets of an intent the fold counts, in all and merged. */
  lemma TallyMeans(bullets: seq<Bullet>, b: Bullet, intent: string, mergedOnly: bool)
    ensures Tally([], intent, mergedOnly) == 0
    ensures Tally(bullets + [b], intent, mergedOnly) == Tally(bullets, intent, mergedOnly)
      + if b.intent == intent && (mergedOnly ==> b.status == "merged") then 1 else 0
  {
    assert (bullets + [b])[..|bullets|] == bullets;
  }

  /** A fold touches its project's rollup alone, which it opens when there is none, and adds
      one run to each of its counters, the run's status, type and provenance, and its bullets. */
  lemma FoldMeans(rollups: seq<Rollup>, run: Run, who: Provenance, bullets: seq<Bullet>)
    requires OnePerProject(rollups)
    ensures var after := Folded(rollups, run, who, bullets);
      exists at: nat :: at <= |rollups| && at < |after| && |after| == (if at == |rollups| then at + 1 else |rollups|)
        && (forall i :: 0 <= i < |rollups| && i != at ==> after[i] == rollups[i] && rollups[i].project != run.project)
        && OneMore(if at < |rollups| then Some(rollups[at]) else None, after[at], run, who, bullets)
  {
    var at := IndexOf(rollups, run.project);
    var start := if at < |rollups| then rollups[at] else EmptyRollup(run.project);
    IncreasedByOne(start, run, who, bullets);
    var after := Folded(rollups, run, who, bullets);
    assert after[at] == Increased(start, run, who, bullets);
  }

  ghost predicate OneMore(r: Option<Rollup>, r': Rollup, run: Run, who: Provenance, bullets: seq<Bullet>) {
    var was := if r.Some? then r.value else Rollup(run.project, 0, 0, 0, 0, 0, 0, 0, map[], map[], map[], map[]);
    && was.project == run.project && r'.project == run.project && r'.runs == was.runs + 1
    && r'.passed == was.passed + (if run.status == "passed" then 1 else 0)
    && r'.failed == was.failed + (if run.status == "failed" then 1 else 0)
    && r'.cancelled == was.cancelled + (if run.status == "cancelled" then 1 else 0)
    && r'.interrupted == was.interrupted + (if run.status == "interrupted" then 1 else 0)
    && (forall key :: Get(r'.byWorkType, key) == Get(was.byWorkType, key) + if key == run.workType then 1 else 0)
    && (forall key :: Get(r'.byAgent, key) == Get(was.byAgent, key) + if key == who.agent then 1 else 0)
    && (forall key :: Get(r'.byModel, key) == Get(was.byModel, key) + if key == who.model then 1 else 0)
    && (forall key :: Get(r'.byProvider, key) == Get(was.byProvider, key) + if key == who.provider then 1 else 0)
    && r'.bulletTotal == was.bulletTotal + (if run.intent == "" then 0 else Tally(bullets, run.intent, false))
    && r'.bulletMerged == was.bulletMerged + (if run.intent == "" then 0 else Tally(bullets, run.intent, true))
  }

  lemma IncreasedByOne(r: Rollup, run: Run, who: Provenance, bullets: seq<Bullet>)
    requires r.project == run.project
    ensures OneMore(Some(r), Increased(r, run, who, bullets), run, who, bullets)
    ensures r == EmptyRollup(run.project) ==> OneMore(None, Increased(r, run, who, bullets), run, who, bullets)
  {
    BumpMeans(r.byWorkType, run.workType);
    BumpMeans(r.byAgent, who.agent);
    BumpMeans(r.byModel, who.model);
    BumpMeans(r.byProvider, who.provider);
  }

  lemma BumpMeans(m: Counters, key: string)
    ensures forall k :: Get(Bump(m, key), k) == Get(m, k) + if k == key then 1 else 0
  {
  }

  datatype Rotation = Rotation(project: string, cutoff: int)

  function Rotations(db: Db, calls: seq<Rotation>): Db {
    if calls == [] then db
    else
      var last := calls[|calls| - 1];
      Rotate(Rotations(db, calls[..|calls| - 1]), last.project, last.cutoff)
  }

  /** Whatever projects are rotated, with whatever cutoffs and in whatever order, every count
      of every query stays what it was, every rollup balances, and bullet counts do not move. */
  lemma {:induction false} RotationsConserve(db: Db, calls: seq<Rotation>, query: string, key: Key)
    requires Valid(db)
    ensures var db' := Rotations(db, calls);
      && Valid(db') && Count(db', query, key) == Count(db, query, key)
      && forall mergedOnly ::
        Bullets(db'.bullets, db'.intents, query, mergedOnly) == Bullets(db.bullets, db.intents, query, mergedOnly)
  {
    if calls != [] {
      var before, last := Rotations(db, calls[..|calls| - 1]), calls[|calls| - 1];
      RotationsConserve(db, calls[..|calls| - 1], query, key);
      CandidatesPend(before, last.project, last.cutoff);
      RotateAllConserves(before, Candidates(before.runs, last.project, last.cutoff), query, key);
      RotationIsExact(before, last.project, last.cutoff);
    }
  }

  /** A second rotation with the same cutoff finds nothing left to take. */
  lemma SecondRotationTakesNothing(db: Db, project: string, cutoff: int)
    requires Valid(db)
    ensures var once := Rotate(db, project, cutoff);
      Rotate(once, project, cutoff) == once && RotateCount(once.bullets, Candidates(once.runs, project, cutoff)) == 0
  {
    var once := Rotate(db, project, cutoff);
    RotationIsExact(db, project, cutoff);
    CandidatesMean(once.runs, project, cutoff);
    NothingMerged(once, Candidates(once.runs, project, cutoff));
  }

  lemma {:induction false} NothingMerged(db: Db, candidates: seq<Run>)
    requires forall r :: r in candidates ==> !IntentFullyMerged(db.bullets, r.intent)
    ensures RotateAll(db, candidates) == db && RotateCount(db.bullets, candidates) == 0
    decreases |candidates|
  {
    if candidates != [] {
      assert candidates[0] in candidates;
      NothingMerged(db, candidates[1..]);
    }
  }

  /** A rollup has no place for a status that is not folded. */
  lemma {:induction false} NoPlaceForTimedOut(rollups: seq<Rollup>, query: string)
    ensures Rotated(rollups, query, ByStatus("timed_out")) == 0
  {
    if rollups != [] {
      NoPlaceForTimedOut(rollups[..|rollups| - 1], query);
      assert "timed_out"[0] != "cancelled"[0];
    }
  }

  /** Why timed out runs must stay out of rotation: a rollup has no place for their status,
      so folding one would lose it from the breakdown by status. */
  lemma FoldingTimedOutLosesIt(rollups: seq<Rollup>, run: Run, who: Provenance, bullets: seq<Bullet>, query: string)
    requires run.status == "timed_out" && InQuery(run.project, query) && OnePerProject(rollups)
    ensures Rotated(Folded(rollups, run, who, bullets), query, ByStatus("timed_out")) == Rotated(rollups, query, ByStatus("timed_out"))
  {
    NoPlaceForTimedOut(rollups, query);
    NoPlaceForTimedOut(Folded(rollups, run, who, bullets), query);
  }
}
