/** Startup reconciliation: every run still marked running was orphaned, and it and its
    running phases become interrupted. */
module Reconcile {
  import Records

  datatype Run = Run(id: string, status: Records.RunStatus)

  datatype Phase = Phase(id: string, run: string, status: Records.RunStatus)

  datatype Change = RunChange(id: string) | PhaseChange(id: string)

  datatype Tables = Tables(runs: seq<Run>, phases: seq<Phase>, changes: seq<Change>)

  const CHUNK_SIZE: nat := 500

  function Orphans(runs: seq<Run>): seq<string> {
    if runs == [] then []
    else (if runs[0].status == Records.Running then [runs[0].id] else []) + Orphans(runs[1..])
  }

  /** The running phases of one run, in table order. */
  function RunningOf(phases: seq<Phase>, run: string): seq<string> {
    if phases == [] then []
    else (if phases[0].run == run && phases[0].status == Records.Running then [phases[0].id] else []) + RunningOf(phases[1..], run)
  }

  function RunsAfter(runs: seq<Run>, done: set<string>): seq<Run> {
    seq(|runs|, i requires 0 <= i < |runs| =>
      if runs[i].id in done && runs[i].status == Records.Running then runs[i].(status := Records.Interrupted) else runs[i])
  }

  function PhasesAfter(phases: seq<Phase>, done: set<string>): seq<Phase> {
    seq(|phases|, i requires 0 <= i < |phases| =>
      if phases[i].run in done && phases[i].status == Records.Running then phases[i].(status := Records.Interrupted) else phases[i])
  }

  function PhasesMoved(phases: seq<Phase>, ids: set<string>): seq<Phase> {
    seq(|phases|, i requires 0 <= i < |phases| =>
      if phases[i].id in ids && phases[i].status == Records.Running then phases[i].(status := Records.Interrupted) else phases[i])
  }

  function PhaseChanges(ids: seq<string>): seq<Change> {
    seq(|ids|, i requires 0 <= i < |ids| => PhaseChange(ids[i]))
  }

  /** A run's change comes before those of its phases. */
  function ChangesFor(orphans: seq<string>, phases: seq<Phase>): seq<Change> {
    if orphans == [] then []
    else ChangesFor(orphans[..|orphans| - 1], phases)
         + ([RunChange(orphans[|orphans| - 1])] + PhaseChanges(RunningOf(phases, orphans[|orphans| - 1])))
  }

  function PhaseCount(orphans: seq<string>, phases: seq<Phase>): nat {
    if orphans == [] then 0
    else PhaseCount(orphans[..|orphans| - 1], phases) + |RunningOf(phases, orphans[|orphans| - 1])|
  }

  function Elements(ids: seq<string>): set<string> {
    set i | 0 <= i < |ids| :: ids[i]
  }

  function Reconciled(t: Tables): Tables {
    var orphans := Orphans(t.runs);
    Tables(RunsAfter(t.runs, Elements(orphans)), PhasesAfter(t.phases, Elements(orphans)),
           t.changes + ChangesFor(orphans, t.phases))
  }

  /** Ids are primary keys. */
  ghost predicate Valid(t: Tables) {
    && (forall i, j :: 0 <= i < j < |t.runs| ==> t.runs[i].id != t.runs[j].id)
    && (forall i, j :: 0 <= i < j < |t.phases| ==> t.phases[i].id != t.phases[j].id)
  }

  // ---- the phases of a chunk of runs

  datatype PhaseRow = PhaseRow(id: string, run: string)

  /** WHERE status = running AND run_id IN the chunk. */
  function ChunkRows(phases: seq<Phase>, chunk: set<string>): seq<PhaseRow> {
    if phases == [] then []
    else (if phases[0].run in chunk && phases[0].status == Records.Running then [PhaseRow(phases[0].id, phases[0].run)] else [])
         + ChunkRows(phases[1..], chunk)
  }

  function RowsOf(rows: seq<PhaseRow>, run: string): seq<string> {
    if rows == [] then []
    else (if rows[0].run == run then [rows[0].id] else []) + RowsOf(rows[1..], run)
  }

  lemma {:induction false} ChunkRowsMean(phases: seq<Phase>, chunk: set<string>, run: string)
    ensures RowsOf(ChunkRows(phases, chunk), run) == if run in chunk then RunningOf(phases, run) else []
  {
    if phases != [] {
      ChunkRowsMean(phases[1..], chunk, run);
      var rest := ChunkRows(phases[1..], chunk);
      var row := PhaseRow(phases[0].id, phases[0].run);
      assert ([row] + rest)[1..] == rest && [] + rest == rest;
    }
  }

  function Listed(byRun: map<string, seq<string>>, run: string): seq<string> {
    if run in byRun then byRun[run] else []
  }

  /** Every row's id put at the end of its run's list. */
  function AppendedAll(byRun: map<string, seq<string>>, rows: seq<PhaseRow>): map<string, seq<string>>
    decreases |rows|
  {
    if rows == [] then byRun
    else AppendedAll(byRun[rows[0].run := Listed(byRun, rows[0].run) + [rows[0].id]], rows[1..])
  }

  lemma {:induction false} CollectAll(byRun: map<string, seq<string>>, rows: seq<PhaseRow>, run: string)
    ensures Listed(AppendedAll(byRun, rows), run) == Listed(byRun, run) + RowsOf(rows, run)
    decreases |rows|
  {
    if rows != [] {
      var next := byRun[rows[0].run := Listed(byRun, rows[0].run) + [rows[0].id]];
      CollectAll(next, rows[1..], run);
      Reassociate(Listed(byRun, run), if rows[0].run == run then [rows[0].id] else [], RowsOf(rows[1..], run));
      assert Listed(byRun, run) + [] == Listed(byRun, run);
    }
  }

  lemma Reassociate(a: seq<string>, b: seq<string>, c: seq<string>)
    ensures a + (b + c) == (a + b) + c
  {
  }

  // ---- facts about the orphans

  lemma {:induction false} OrphansMean(runs: seq<Run>)
    requires forall i, j :: 0 <= i < j < |runs| ==> runs[i].id != runs[j].id
    ensures forall id :: id in Orphans(runs) <==> Run(id, Records.Running) in runs
    ensures forall i, j :: 0 <= i < j < |Orphans(runs)| ==> Orphans(runs)[i] != Orphans(runs)[j]
  {
    if runs != [] {
      OrphansMean(runs[1..]);
      assert runs == [runs[0]] + runs[1..];
      var rest := Orphans(runs[1..]);
      forall i | 0 <= i < |rest| ensures rest[i] != runs[0].id {
        assert rest[i] in rest;
        assert Run(rest[i], Records.Running) in runs[1..];
      }
    }
  }

  lemma {:induction false} RunningMean(phases: seq<Phase>, run: string)
    requires forall i, j :: 0 <= i < j < |phases| ==> phases[i].id != phases[j].id
    ensures forall id :: id in RunningOf(phases, run) <==> Phase(id, run, Records.Running) in phases
    ensures forall i, j :: 0 <= i < j < |RunningOf(phases, run)| ==> RunningOf(phases, run)[i] != RunningOf(phases, run)[j]
  {
    if phases != [] {
      RunningMean(phases[1..], run);
      assert phases == [phases[0]] + phases[1..];
      var rest := RunningOf(phases[1..], run);
      forall i | 0 <= i < |rest| ensures rest[i] != phases[0].id {
        assert rest[i] in rest;
        assert Phase(rest[i], run, Records.Running) in phases[1..];
      }
    }
  }

  lemma ElementsMean(ids: seq<string>)
    ensures forall id :: id in Elements(ids) <==> id in ids
  {
  }

  lemma ChunkHolds(orphans: seq<string>, i: nat, end: nat, k: nat)
    requires forall a, b :: 0 <= a < b < |orphans| ==> orphans[a] != orphans[b]
    requires i <= end <= |orphans| && k < |orphans|
    ensures orphans[k] in Elements(orphans[i..end]) <==> i <= k < end
  {
    ElementsMean(orphans[i..end]);
    if i <= k < end {
      assert orphans[i..end][k - i] == orphans[k];
    }
  }

  // ---- the store

  class Store {
    var runs: seq<Run>
    var phases: seq<Phase>
    var changes: seq<Change>

    constructor (runs: seq<Run>, phases: seq<Phase>, changes: seq<Change>)
      ensures Contents() == Tables(runs, phases, changes)
    {
      this.runs, this.phases, this.changes := runs, phases, changes;
    }

    function Contents(): Tables
      reads this
    {
      Tables(runs, phases, changes)
    }

    /** Reads the running phases of all orphans, 500 runs to a query. */
    method RunningPhases(orphans: seq<string>) returns (byRun: map<string, seq<string>>)
      requires forall i, j :: 0 <= i < j < |orphans| ==> orphans[i] != orphans[j]
      ensures forall run :: run in orphans ==> Listed(byRun, run) == RunningOf(phases, run)
    {
      byRun := map[];
      var i := 0;
      while i < |orphans|
        invariant 0 <= i <= |orphans|
        invariant forall k :: 0 <= k < |orphans| ==>
          Listed(byRun, orphans[k]) == if k < i then RunningOf(phases, orphans[k]) else []
      {
        var end := if i + CHUNK_SIZE > |orphans| then |orphans| else i + CHUNK_SIZE;
        var chunk := Elements(orphans[i..end]);
        var more := AddChunk(byRun, chunk);
        forall k | 0 <= k < |orphans|
          ensures Listed(more, orphans[k]) == if k < end then RunningOf(phases, orphans[k]) else []
        {
          ChunkHolds(orphans, i, end, k);
          assert RunningOf(phases, orphans[k]) + [] == RunningOf(phases, orphans[k]);
        }
        byRun, i := more, end;
      }
    }

    method AddChunk(before: map<string, seq<string>>, chunk: set<string>) returns (byRun: map<string, seq<string>>)
      ensures forall run :: Listed(byRun, run) == Listed(before, run) + if run in chunk then RunningOf(phases, run) else []
    {
      var rows := ChunkRows(phases, chunk);
      byRun := before;
      assert rows[0..] == rows;
      for j := 0 to |rows|
        invariant AppendedAll(before, rows) == AppendedAll(byRun, rows[j..])
      {
        assert rows[j..][1..] == rows[j + 1..];
        byRun := byRun[rows[j].run := Listed(byRun, rows[j].run) + [rows[j].id]];
      }
      forall run ensures Listed(byRun, run) == Listed(before, run) + if run in chunk then RunningOf(phases, run) else [] {
        CollectAll(before, rows, run);
        ChunkRowsMean(phases, chunk, run);
      }
    }

    method ReconcileRun(id: string)
      modifies this
      ensures runs == RunsAfter(old(runs), {id}) && phases == old(phases) && changes == old(changes) + [RunChange(id)]
    {
      for i := 0 to |runs|
        invariant |runs| == |old(runs)| && phases == old(phases) && changes == old(changes)
        invariant forall k :: 0 <= k < |runs| ==>
          runs[k] == if k < i then RunsAfter(old(runs), {id})[k] else old(runs)[k]
      {
        if runs[i].id == id && runs[i].status == Records.Running {
          runs := runs[i := runs[i].(status := Records.Interrupted)];
        }
      }
      changes := changes + [RunChange(id)];
    }

    /** UPDATE of one phase, if it is still running. */
    method InterruptPhase(id: string)
      modifies this`phases
      ensures phases == PhasesMoved(old(phases), {id})
    {
      for i := 0 to |phases|
        invariant |phases| == |old(phases)|
        invariant forall k :: 0 <= k < |phases| ==>
          phases[k] == if k < i then PhasesMoved(old(phases), {id})[k] else old(phases)[k]
      {
        if phases[i].id == id && phases[i].status == Records.Running {
          phases := phases[i := phases[i].(status := Records.Interrupted)];
        }
      }
    }

    /** One update and one change for each id. */
    method ReconcileRunningPhases(run: string, ids: seq<string>) returns (n: nat)
      modifies this
      ensures runs == old(runs) && phases == PhasesMoved(old(phases), Elements(ids))
      ensures changes == old(changes) + PhaseChanges(ids) && n == |ids|
    {
      assert phases == PhasesMoved(phases, Elements(ids[..0]));
      for j := 0 to |ids|
        invariant runs == old(runs) && phases == PhasesMoved(old(phases), Elements(ids[..j]))
        invariant changes == old(changes) + PhaseChanges(ids[..j])
      {
        InterruptPhase(ids[j]);
        changes := changes + [PhaseChange(ids[j])];
        assert PhaseChanges(ids[..j + 1]) == PhaseChanges(ids[..j]) + [PhaseChange(ids[j])];
        MovedTwice(old(phases), Elements(ids[..j]), {ids[j]});
        ElementsGrow(ids, j);
      }
      assert ids[..|ids|] == ids;
      n := |ids|;
    }

    /** One orphan: its row, its change, and its running phases after it. */
    method ReconcileOne(run: string, ids: seq<string>) returns (n: nat)
      requires Valid(Contents()) && ids == RunningOf(phases, run)
      modifies this
      ensures Valid(Contents()) && n == |ids|
      ensures runs == RunsAfter(old(runs), {run}) && phases == PhasesAfter(old(phases), {run})
      ensures changes == old(changes) + ([RunChange(run)] + PhaseChanges(ids))
    {
      MovedOfRun(phases, run);
      ReconcileRun(run);
      n := 0;
      if |ids| > 0 {
        n := ReconcileRunningPhases(run, ids);
      } else {
        assert Elements(ids) == {} && PhasesMoved(phases, {}) == phases && PhaseChanges(ids) == [];
      }
    }

    /** Every orphan moves, each with its phases, and the counts say how many rows did. */
    method ReconcileOrphanedRuns() returns (runsReconciled: nat, phasesReconciled: nat)
      requires Valid(Contents())
      modifies this
      ensures Contents() == Reconciled(old(Contents()))
      ensures runsReconciled == |Orphans(old(runs))| && phasesReconciled == PhaseCount(Orphans(old(runs)), old(phases))
    {
      var orphans := Orphans(runs);
      OrphansMean(runs);
      if |orphans| == 0 {
        NothingDone(Contents());
        return 0, 0;
      }
      var byRun := RunningPhases(orphans);
      runsReconciled, phasesReconciled := MoveAll(orphans, byRun);
    }

    method MoveAll(orphans: seq<string>, byRun: map<string, seq<string>>) returns (runsReconciled: nat, phasesReconciled: nat)
      requires Valid(Contents()) && forall i, j :: 0 <= i < j < |orphans| ==> orphans[i] != orphans[j]
      requires forall i :: 0 <= i < |orphans| ==> Listed(byRun, orphans[i]) == RunningOf(phases, orphans[i])
      modifies this
      ensures Contents() == Through(old(Contents()), orphans)
      ensures runsReconciled == |orphans| && phasesReconciled == PhaseCount(orphans, old(phases))
    {
      ghost var t := Contents();
      NothingDone(t);
      runsReconciled, phasesReconciled := 0, 0;
      assert orphans[..0] == [];
      for i := 0 to |orphans|
        invariant Valid(Contents()) && Contents() == Through(t, orphans[..i])
        invariant runsReconciled == i && phasesReconciled == PhaseCount(orphans[..i], t.phases)
      {
        StillRunning(t, orphans, i);
        runsReconciled := runsReconciled + 1;
        var n := ReconcileOne(orphans[i], Listed(byRun, orphans[i]));
        phasesReconciled := phasesReconciled + n;
        OneMore(t, orphans, i);
      }
      assert orphans[..|orphans|] == orphans;
    }
  }

  // ---- how the steps add up

  /** The tables once these orphans are through. */
  function Through(t: Tables, orphans: seq<string>): Tables {
    Tables(RunsAfter(t.runs, Elements(orphans)), PhasesAfter(t.phases, Elements(orphans)),
           t.changes + ChangesFor(orphans, t.phases))
  }

  lemma NothingDone(t: Tables)
    ensures Through(t, []) == t
  {
    assert Elements([]) == {};
    assert RunsAfter(t.runs, {}) == t.runs && PhasesAfter(t.phases, {}) == t.phases;
  }

  lemma ElementsGrow(ids: seq<string>, j: nat)
    requires j < |ids|
    ensures Elements(ids[..j + 1]) == Elements(ids[..j]) + {ids[j]}
  {
    assert ids[..j + 1] == ids[..j] + [ids[j]];
    forall id ensures id in Elements(ids[..j + 1]) <==> id in Elements(ids[..j]) + {ids[j]} {
      ElementsMean(ids[..j + 1]);
      ElementsMean(ids[..j]);
    }
  }

  lemma MovedTwice(phases: seq<Phase>, a: set<string>, b: set<string>)
    ensures PhasesMoved(PhasesMoved(phases, a), b) == PhasesMoved(phases, a + b)
  {
  }

  /** Moving a run's running phases by id moves exactly the running phases of that run. */
  lemma MovedOfRun(phases: seq<Phase>, run: string)
    requires forall i, j :: 0 <= i < j < |phases| ==> phases[i].id != phases[j].id
    ensures PhasesMoved(phases, Elements(RunningOf(phases, run))) == PhasesAfter(phases, {run})
  {
    RunningMean(phases, run);
    ElementsMean(RunningOf(phases, run));
    forall k | 0 <= k < |phases| && phases[k].status == Records.Running
      ensures phases[k].id in Elements(RunningOf(phases, run)) <==> phases[k].run == run
    {
      assert phases[k] == Phase(phases[k].id, phases[k].run, Records.Running);
    }
  }

  lemma {:induction false} RunningUnmoved(phases: seq<Phase>, done: set<string>, run: string)
    requires run !in done
    ensures RunningOf(PhasesAfter(phases, done), run) == RunningOf(phases, run)
  {
    if phases != [] {
      RunningUnmoved(phases[1..], done, run);
      assert PhasesAfter(phases, done)[1..] == PhasesAfter(phases[1..], done);
    }
  }

  /** The phases of the next orphan are still as they were read. */
  lemma StillRunning(t: Tables, orphans: seq<string>, i: nat)
    requires i < |orphans| && forall j, k :: 0 <= j < k < |orphans| ==> orphans[j] != orphans[k]
    ensures RunningOf(Through(t, orphans[..i]).phases, orphans[i]) == RunningOf(t.phases, orphans[i])
  {
    ElementsMean(orphans[..i]);
    RunningUnmoved(t.phases, Elements(orphans[..i]), orphans[i]);
  }

  lemma OneMore(t: Tables, orphans: seq<string>, i: nat)
    requires i < |orphans|
    ensures var s := Through(t, orphans[..i]);
      Through(t, orphans[..i + 1]) == Tables(RunsAfter(s.runs, {orphans[i]}), PhasesAfter(s.phases, {orphans[i]}),
        s.changes + ([RunChange(orphans[i])] + PhaseChanges(RunningOf(t.phases, orphans[i]))))
    ensures PhaseCount(orphans[..i + 1], t.phases) == PhaseCount(orphans[..i], t.phases) + |RunningOf(t.phases, orphans[i])|
  {
    ElementsGrow(orphans, i);
    var a := Elements(orphans[..i]);
    assert RunsAfter(RunsAfter(t.runs, a), {orphans[i]}) == RunsAfter(t.runs, a + {orphans[i]});
    assert PhasesAfter(PhasesAfter(t.phases, a), {orphans[i]}) == PhasesAfter(t.phases, a + {orphans[i]});
    assert orphans[..i + 1][..i] == orphans[..i];
    var more := [RunChange(orphans[i])] + PhaseChanges(RunningOf(t.phases, orphans[i]));
    assert t.changes + (ChangesFor(orphans[..i], t.phases) + more) == (t.changes + ChangesFor(orphans[..i], t.phases)) + more;
  }

  // ---- what reconciliation is

  predicate Orphaned(t: Tables, p: Phase) {
    p.status == Records.Running && Run(p.run, Records.Running) in t.runs
  }

  /** Exactly the running runs and the running phases of running runs become interrupted;
      no other row, field or order changes. */
  lemma ReconciledIsExact(t: Tables)
    requires Valid(t)
    ensures var t' := Reconciled(t);
      && |t'.runs| == |t.runs| && |t'.phases| == |t.phases|
      && (forall i :: 0 <= i < |t.runs| ==>
        t'.runs[i] == if t.runs[i].status == Records.Running then t.runs[i].(status := Records.Interrupted) else t.runs[i])
      && (forall i :: 0 <= i < |t.phases| ==>
        t'.phases[i] == if Orphaned(t, t.phases[i]) then t.phases[i].(status := Records.Interrupted) else t.phases[i])
  {
    OrphansMean(t.runs);
    ElementsMean(Orphans(t.runs));
    forall i | 0 <= i < |t.runs| && t.runs[i].status == Records.Running ensures t.runs[i].id in Elements(Orphans(t.runs)) {
      assert t.runs[i] == Run(t.runs[i].id, Records.Running);
    }
  }

  lemma {:induction false} ChangesMean(orphans: seq<string>, phases: seq<Phase>)
    requires forall i, j :: 0 <= i < j < |phases| ==> phases[i].id != phases[j].id
    ensures forall id :: RunChange(id) in ChangesFor(orphans, phases) <==> id in orphans
    ensures forall id :: PhaseChange(id) in ChangesFor(orphans, phases) <==>
      exists run :: run in orphans && Phase(id, run, Records.Running) in phases
  {
    if orphans != [] {
      var before, last := orphans[..|orphans| - 1], orphans[|orphans| - 1];
      ChangesMean(before, phases);
      RunningMean(phases, last);
      assert orphans == before + [last];
      var ids := RunningOf(phases, last);
      forall id ensures PhaseChange(id) in PhaseChanges(ids) <==> id in ids {
        if id in ids {
          var i :| 0 <= i < |ids| && ids[i] == id;
          assert PhaseChanges(ids)[i] == PhaseChange(id);
        }
      }
    }
  }

  predicate NoRepeats(changes: seq<Change>) {
    forall i, j :: 0 <= i < j < |changes| ==> changes[i] != changes[j]
  }

  lemma AppendOnce(earlier: seq<Change>, more: seq<Change>)
    requires NoRepeats(earlier) && NoRepeats(more) && forall c :: c in more ==> c !in earlier
    ensures NoRepeats(earlier + more)
  {
    forall i, j | 0 <= i < |earlier| && 0 <= j < |more| ensures earlier[i] != more[j] {
      assert more[j] in more && earlier[i] in earlier;
    }
  }

  /** What the last orphan adds is new. */
  lemma MoreIsNew(before: seq<string>, last: string, phases: seq<Phase>)
    requires forall i, j :: 0 <= i < j < |phases| ==> phases[i].id != phases[j].id
    requires last !in before
    ensures var more := [RunChange(last)] + PhaseChanges(RunningOf(phases, last));
      NoRepeats(more) && forall c :: c in more ==> c !in ChangesFor(before, phases)
  {
    var ids := RunningOf(phases, last);
    var more := [RunChange(last)] + PhaseChanges(ids);
    ChangesMean(before, phases);
    RunningMean(phases, last);
    forall c | c in more ensures c !in ChangesFor(before, phases) {
      if c.PhaseChange? {
        var j :| 0 <= j < |ids| && c == PhaseChange(ids[j]);
        assert ids[j] in ids;
        OneRunPerPhase(phases, ids[j], last);
      }
    }
  }

  lemma {:induction false} ChangesAreOnce(orphans: seq<string>, phases: seq<Phase>)
    requires forall i, j :: 0 <= i < j < |phases| ==> phases[i].id != phases[j].id
    requires forall i, j :: 0 <= i < j < |orphans| ==> orphans[i] != orphans[j]
    ensures NoRepeats(ChangesFor(orphans, phases))
    ensures |ChangesFor(orphans, phases)| == |orphans| + PhaseCount(orphans, phases)
  {
    if orphans != [] {
      var before, last := orphans[..|orphans| - 1], orphans[|orphans| - 1];
      ChangesAreOnce(before, phases);
      MoreIsNew(before, last, phases);
      AppendOnce(ChangesFor(before, phases), [RunChange(last)] + PhaseChanges(RunningOf(phases, last)));
    }
  }

  lemma OneRunPerPhase(phases: seq<Phase>, id: string, run: string)
    requires forall i, j :: 0 <= i < j < |phases| ==> phases[i].id != phases[j].id
    requires Phase(id, run, Records.Running) in phases
    ensures forall other :: Phase(id, other, Records.Running) in phases ==> other == run
  {
  }

  /** Exactly one change is appended for each row that moved and none for any other, and the
      counts are the numbers of rows. */
  lemma OneChangePerRow(t: Tables)
    requires Valid(t)
    ensures var more := ChangesFor(Orphans(t.runs), t.phases);
      && Reconciled(t).changes == t.changes + more && NoRepeats(more)
      && |more| == |Orphans(t.runs)| + PhaseCount(Orphans(t.runs), t.phases)
      && (forall id :: RunChange(id) in more <==> Run(id, Records.Running) in t.runs)
      && (forall id :: PhaseChange(id) in more <==>
            exists run :: Run(run, Records.Running) in t.runs && Phase(id, run, Records.Running) in t.phases)
  {
    OrphansMean(t.runs);
    ChangesMean(Orphans(t.runs), t.phases);
    ChangesAreOnce(Orphans(t.runs), t.phases);
  }

  /** The change at `j` is the run's of the phase whose change is at `k`. */
  predicate Precedes(changes: seq<Change>, phases: seq<Phase>, j: nat, k: nat, run: string)
    requires j < |changes| && k < |changes|
  {
    changes[j] == RunChange(run) && changes[k].PhaseChange? && Phase(changes[k].id, run, Records.Running) in phases
  }

  /** A run's change comes before those of its phases. */
  lemma {:induction false} RunBeforeItsPhases(orphans: seq<string>, phases: seq<Phase>, k: nat)
    requires forall i, j :: 0 <= i < j < |phases| ==> phases[i].id != phases[j].id
    requires k < |ChangesFor(orphans, phases)| && ChangesFor(orphans, phases)[k].PhaseChange?
    ensures exists j, run :: 0 <= j < k && Precedes(ChangesFor(orphans, phases), phases, j, k, run)
  {
    var before, last := orphans[..|orphans| - 1], orphans[|orphans| - 1];
    var earlier, all := ChangesFor(before, phases), ChangesFor(orphans, phases);
    if k < |earlier| {
      RunBeforeItsPhases(before, phases, k);
      var j, run :| 0 <= j < k && Precedes(earlier, phases, j, k, run);
      assert all[j] == earlier[j] && all[k] == earlier[k];
      assert Precedes(all, phases, j, k, run);
    } else {
      RunningMean(phases, last);
      var ids := RunningOf(phases, last);
      assert all[|earlier|] == RunChange(last);
      assert all[k] == PhaseChange(ids[k - |earlier| - 1]);
      assert ids[k - |earlier| - 1] in ids;
      assert Precedes(all, phases, |earlier|, k, last);
    }
  }

  lemma {:induction false} NoOrphans(runs: seq<Run>)
    requires forall i :: 0 <= i < |runs| ==> runs[i].status != Records.Running
    ensures Orphans(runs) == []
  {
    if runs != [] {
      NoOrphans(runs[1..]);
    }
  }

  /** A second reconciliation finds nothing: it moves no row and appends no change. */
  lemma SecondCallDoesNothing(t: Tables)
    requires Valid(t)
    ensures Reconciled(Reconciled(t)) == Reconciled(t)
  {
    ReconciledIsExact(t);
    var t' := Reconciled(t);
    NoOrphans(t'.runs);
    assert Elements([]) == {};
    assert RunsAfter(t'.runs, {}) == t'.runs && PhasesAfter(t'.phases, {}) == t'.phases;
  }
}
