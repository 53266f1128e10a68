/** A run over its whole life: one fresh pass, then any number of resumes and corrective
    cycles, against one configuration. */
module StageRuns {
  import opened Wrappers
  import Delivery
  import opened AgentPhase
  import opened StageEngine
  import opened GateNames

  // ---- the corrective loop

  /** What happens around one corrective cycle; the stages are resolved anew in each. */
  datatype Cycle = Cycle(cancelled: bool, log: seq<Delivery.Row>, agent: World,
                         stages: seq<seq<string>>, during: Oracle, cancelledLate: bool)

  datatype Verdict = Concluded | GaveUp | Stopped

  datatype FixRun = FixRun(records: seq<Record>, verdict: Verdict)

  const FIX := "fix"

  predicate HasFailed(records: seq<Record>, repo: string) {
    exists i :: 0 <= i < |records| && records[i].repo == repo && records[i].status == FailedPhase
  }

  predicate LastFailedAt(records: seq<Record>, repo: string, i: nat)
    requires i < |records|
  {
    && records[i].repo == repo && records[i].status == FailedPhase
    && forall k :: i < k < |records| ==> records[k].repo != repo || records[k].status != FailedPhase
  }

  /** The stage a repo belongs to, cut down to that repo alone. */
  function StageForRepo(stages: seq<seq<string>>, repo: string): Option<seq<string>> {
    if exists i :: 0 <= i < |stages| && repo in stages[i] then Some([repo]) else None
  }

  ghost function FixFrom(cfg: Config, repo: string, retries: int, cycle: nat, limit: int,
                         records: seq<Record>, cycles: nat -> Cycle): FixRun
    decreases limit - cycle
  {
    if cycle > limit then FixRun(records, GaveUp)
    else if cycles(cycle).cancelled then FixRun(records, Stopped)
    else if !HasFailed(records, repo) then FixRun(records, GaveUp)
    else
      var c := cycles(cycle);
      var fix := Attempts(c.log, retries, c.agent);
      var fixed := records + Named(repo, FIX, StatusesLeft(retries, fix));
      if !fix.ok || StageForRepo(c.stages, repo).None? then
        FixFrom(cfg, repo, retries, cycle + 1, limit, fixed, cycles)
      else
        var p := PassStage(cfg, [repo], true, fixed, c.during, 0);
        if p.ok then FixRun(p.records, if c.cancelledLate then Stopped else Concluded)
        else FixFrom(cfg, repo, retries, cycle + 1, limit, p.records, cycles)
  }

  method LastFailedPhase(records: seq<Record>, repo: string) returns (last: Option<Record>)
    ensures last.Some? <==> HasFailed(records, repo)
    ensures last.Some? ==> exists i :: 0 <= i < |records| && last == Some(records[i]) && LastFailedAt(records, repo, i)
  {
    last := None;
    for i := 0 to |records|
      invariant last.None? ==> forall k :: 0 <= k < i ==> records[k].repo != repo || records[k].status != FailedPhase
      invariant last.Some? ==> exists j :: 0 <= j < i && last == Some(records[j]) && LastFailedAt(records[..i], repo, j)
    {
      if records[i].status == FailedPhase && records[i].repo == repo {
        last := Some(records[i]);
      }
    }
  }

  method RunFixCycles(cfg: Config, repo: string, retries: int, limit: int, before: seq<Record>, cycles: nat -> Cycle)
    returns (records: seq<Record>, verdict: Verdict)
    ensures FixRun(records, verdict) == FixFrom(cfg, repo, retries, 1, limit, before, cycles)
  {
    records := before;
    var cycle := 1;
    while cycle <= limit
      invariant 1 <= cycle
      invariant FixFrom(cfg, repo, retries, 1, limit, before, cycles)
             == FixFrom(cfg, repo, retries, cycle, limit, records, cycles)
    {
      var c := cycles(cycle);
      if c.cancelled {
        return records, Stopped;
      }
      var failure := LastFailedPhase(records, repo);
      if failure.None? {
        break;
      }
      var fix := Attempts(c.log, retries, c.agent);
      records := records + Named(repo, FIX, StatusesLeft(retries, fix));
      cycle := cycle + 1;
      if !fix.ok {
        continue;
      }
      var stage := StageForRepo(c.stages, repo);
      if stage.None? {
        continue;
      }
      var engine := new Engine(cfg, true, records);
      var ok := engine.RunStage(stage.value, c.during);
      records := engine.records;
      if ok {
        return records, if c.cancelledLate then Stopped else Concluded;
      }
    }
    verdict := GaveUp;
  }

  // ---- a run

  datatype Act =
    | Resume(stages: seq<seq<string>>, o: Oracle)
    | Fix(repo: string, limit: int, cycles: nat -> Cycle)

  ghost function Acted(cfg: Config, records: seq<Record>, act: Act): seq<Record> {
    match act
    case Resume(stages, o) => PassStages(cfg, stages, true, records, o, 0).records
    case Fix(repo, limit, cycles) =>
      if repo in cfg then FixFrom(cfg, repo, cfg[repo].retries, 1, limit, records, cycles).records else records
  }

  ghost function Run(cfg: Config, stages: seq<seq<string>>, o: Oracle, acts: seq<Act>): seq<Record> {
    if acts == [] then PassStages(cfg, stages, false, [], o, 0).records
    else Acted(cfg, Run(cfg, stages, o, acts[..|acts| - 1]), acts[|acts| - 1])
  }

  // ---- which step lists keep their passed steps a prefix

  /** A step the pass can go beyond without a passed record. */
  predicate Slips(step: Step, retries: int) {
    step.Placeholder? || (step.Agent? && retries < 0)
  }

  predicate CanPass(step: Step, retries: int) {
    step.Gate? || step.Placeholder? || retries >= 0
  }

  predicate GoesOn(step: Step, retries: int) {
    step.Review? ==> retries >= 0
  }

  /** No step that can slip is ever followed by one that can still pass. */
  predicate Tight(steps: seq<Step>, retries: int) {
    forall i, j :: 0 <= i < j < |steps| && Slips(steps[i], retries) && CanPass(steps[j], retries) ==>
      exists k :: 0 <= k < j && !GoesOn(steps[k], retries)
  }

  /** Nothing slips, unless the list can never be got through. */
  predicate Strict(steps: seq<Step>, retries: int) {
    (exists k :: 0 <= k < |steps| && !GoesOn(steps[k], retries))
    || forall i :: 0 <= i < |steps| ==> !Slips(steps[i], retries)
  }

  predicate DistinctNames(steps: seq<Step>) {
    && (forall i, j :: 0 <= i < j < |steps| ==> NameOf(steps[i]) != NameOf(steps[j]))
    && forall i :: 0 <= i < |steps| ==> NameOf(steps[i]) != FIX
  }

  predicate PassedAt(records: seq<Record>, repo: string, steps: seq<Step>, i: nat)
    requires i < |steps|
  {
    HasPassed(records, repo, NameOf(steps[i]))
  }

  predicate PassedPrefix(records: seq<Record>, repo: string, steps: seq<Step>) {
    forall i, j :: 0 <= i < j < |steps| && PassedAt(records, repo, steps, j) ==> PassedAt(records, repo, steps, i)
  }

  predicate OnlyPassable(records: seq<Record>, repo: string, steps: seq<Step>, retries: int) {
    forall i :: 0 <= i < |steps| && PassedAt(records, repo, steps, i) ==> CanPass(steps[i], retries)
  }

  predicate AllPassed(records: seq<Record>, repo: string, steps: seq<Step>) {
    forall i :: 0 <= i < |steps| ==> PassedAt(records, repo, steps, i)
  }

  // ---- one step

  lemma HasPassedAppend(records: seq<Record>, repo: string, name: string, statuses: seq<Status>, r: string, n: string)
    ensures HasPassed(records + Named(repo, name, statuses), r, n)
       <==> HasPassed(records, r, n) || (r == repo && n == name && Passed in statuses)
  {
    var all := records + Named(repo, name, statuses);
    if HasPassed(records, r, n) {
      var i :| 0 <= i < |records| && records[i] == Record(r, n, Passed);
      assert all[i] == records[i];
    }
    if r == repo && n == name && Passed in statuses {
      var i :| 0 <= i < |statuses| && statuses[i] == Passed;
      assert all[|records| + i] == Record(r, n, Passed);
    }
    if HasPassed(all, r, n) {
      var i :| 0 <= i < |all| && all[i] == Record(r, n, Passed);
      assert all[i] == if i < |records| then records[i] else Named(repo, name, statuses)[i - |records|];
    }
  }

  /** What executing a step can leave: a passed record only if it can pass, and no error
      without one only if it can slip and go on. */
  lemma ExecuteMeans(step: Step, retries: int, a: Answer)
    ensures var e := Execute(step, retries, a);
      && (Passed in e.statuses ==> CanPass(step, retries))
      && (!e.stops ==> GoesOn(step, retries) && (Passed in e.statuses || Slips(step, retries)))
  {
    if (step.Agent? || step.Review?) && retries >= 0 {
      var r := Attempts(a.log, retries, a.agent);
      AttemptAccounting(a.log, retries, a.agent);
      if r.ok {
        assert r.statuses[|r.statuses| - 1] in r.statuses;
      }
    }
  }

  // ---- a pass over one repo

  /** What holds when a pass stands before step `k`: everything behind it passed or slipped. */
  ghost predicate Standing(records: seq<Record>, repo: string, steps: seq<Step>, retries: int, k: nat)
    requires k <= |steps|
  {
    && PassedPrefix(records, repo, steps)
    && OnlyPassable(records, repo, steps, retries)
    && forall i :: 0 <= i < k ==>
      GoesOn(steps[i], retries) && (PassedAt(records, repo, steps, i) || Slips(steps[i], retries))
  }

  lemma StepStands(records: seq<Record>, repo: string, steps: seq<Step>, retries: int, k: nat, a: Answer)
    requires k < |steps| && Tight(steps, retries) && DistinctNames(steps)
    requires Standing(records, repo, steps, retries, k)
    ensures var e := Execute(steps[k], retries, a);
      var records' := records + Named(repo, NameOf(steps[k]), e.statuses);
      && Standing(records', repo, steps, retries, k)
      && (!e.stops ==> Standing(records', repo, steps, retries, k + 1))
  {
    var e := Execute(steps[k], retries, a);
    ExecuteMeans(steps[k], retries, a);
    var records' := records + Named(repo, NameOf(steps[k]), e.statuses);
    forall i | 0 <= i < |steps|
      ensures PassedAt(records', repo, steps, i) <==> PassedAt(records, repo, steps, i) || (i == k && Passed in e.statuses)
    {
      HasPassedAppend(records, repo, NameOf(steps[k]), e.statuses, repo, NameOf(steps[i]));
    }
  }

  lemma SkipStands(records: seq<Record>, repo: string, steps: seq<Step>, retries: int, k: nat)
    requires k < |steps|
    requires Standing(records, repo, steps, retries, k) && PassedAt(records, repo, steps, k)
    ensures Standing(records, repo, steps, retries, k + 1)
  {
  }

  lemma StopStands(records: seq<Record>, repo: string, steps: seq<Step>, retries: int, k: nat)
    requires k <= |steps| && Standing(records, repo, steps, retries, k)
    ensures Standing(records, repo, steps, retries, 0)
  {
  }

  /** Whatever skipping a passed step and executing one keep, a pass keeps: `inv(r, j)` when
      it goes on before step `j`, and `inv(r, 0)` when it stops. */
  lemma {:induction false} PassInduction(repo: string, steps: seq<Step>, retries: int, k: nat, resume: bool,
                                         records: seq<Record>, o: Oracle, t: nat, inv: (seq<Record>, nat) -> bool)
    requires k <= |steps| && inv(records, k)
    requires forall r, j: nat :: j < |steps| && inv(r, j) && HasPassed(r, repo, NameOf(steps[j])) ==> inv(r, j + 1)
    requires forall r, j: nat, a :: j < |steps| && inv(r, j) ==>
      var e := Execute(steps[j], retries, a);
      inv(r + Named(repo, NameOf(steps[j]), e.statuses), if e.stops then 0 else j + 1)
    ensures var p := PassSteps(repo, steps[k..], retries, resume, records, o, t);
      inv(p.records, if p.ok then |steps| else 0)
    decreases |steps| - k
  {
    if k == |steps| {
      assert steps[k..] == [];
    } else {
      assert steps[k..][1..] == steps[k + 1..];
      if resume && HasPassed(records, repo, NameOf(steps[k])) {
        PassInduction(repo, steps, retries, k + 1, resume, records, o, t, inv);
      } else {
        var e := Execute(steps[k], retries, o(t));
        if !e.stops {
          PassInduction(repo, steps, retries, k + 1, resume, records + Named(repo, NameOf(steps[k]), e.statuses), o, t + 1, inv);
        }
      }
    }
  }

  lemma PassKeepsPrefix(repo: string, steps: seq<Step>, retries: int, resume: bool, records: seq<Record>, o: Oracle, t: nat)
    requires Tight(steps, retries) && DistinctNames(steps)
    requires Standing(records, repo, steps, retries, 0)
    ensures var p := PassSteps(repo, steps, retries, resume, records, o, t);
      Standing(p.records, repo, steps, retries, if p.ok then |steps| else 0)
  {
    var inv := (r: seq<Record>, j: nat) => j <= |steps| && Standing(r, repo, steps, retries, j);
    forall r, j: nat | j < |steps| && inv(r, j) && HasPassed(r, repo, NameOf(steps[j])) ensures inv(r, j + 1) {
      SkipStands(r, repo, steps, retries, j);
    }
    forall r, j: nat, a | j < |steps| && inv(r, j)
      ensures var e := Execute(steps[j], retries, a);
        inv(r + Named(repo, NameOf(steps[j]), e.statuses), if e.stops then 0 else j + 1)
    {
      StepStands(r, repo, steps, retries, j, a);
      StopStands(r + Named(repo, NameOf(steps[j]), Execute(steps[j], retries, a).statuses), repo, steps, retries, j);
    }
    assert steps[0..] == steps;
    PassInduction(repo, steps, retries, 0, resume, records, o, t, inv);
  }

  /** A record a pass may append: of its own repo, for one of its steps, and on a resume
      not for a step that had passed before. */
  predicate Belongs(r: Record, repo: string, steps: seq<Step>, resume: bool, before: seq<Record>) {
    && r.repo == repo
    && (exists k :: 0 <= k < |steps| && r.name == NameOf(steps[k]))
    && (resume ==> !HasPassed(before, repo, r.name))
  }

  /** Steps of one repo leave every other repo alone, append only, and a resume appends
      nothing for a step that had passed. */
  lemma {:induction false} PassAppends(repo: string, steps: seq<Step>, retries: int, resume: bool,
                                       records: seq<Record>, o: Oracle, t: nat)
    ensures var p := PassSteps(repo, steps, retries, resume, records, o, t);
      && records <= p.records
      && forall i :: |records| <= i < |p.records| ==> Belongs(p.records[i], repo, steps, resume, records)
    decreases |steps|
  {
    if steps != [] {
      if resume && HasPassed(records, repo, NameOf(steps[0])) {
        PassAppends(repo, steps[1..], retries, resume, records, o, t);
      } else {
        var e := Execute(steps[0], retries, o(t));
        var records' := records + Named(repo, NameOf(steps[0]), e.statuses);
        if !e.stops {
          PassAppends(repo, steps[1..], retries, resume, records', o, t + 1);
          var p := PassSteps(repo, steps, retries, resume, records, o, t);
          forall i | |records| <= i < |p.records|
            ensures Belongs(p.records[i], repo, steps, resume, records)
          {
            if i < |records'| {
              assert p.records[i] == records'[i];
              assert p.records[i].name == NameOf(steps[0]);
            } else {
              var k :| 0 <= k < |steps[1..]| && p.records[i].name == NameOf(steps[1..][k]);
              assert steps[1..][k] == steps[k + 1];
              HasPassedAppend(records, repo, NameOf(steps[0]), e.statuses, repo, p.records[i].name);
            }
          }
        }
      }
    }
  }

  // ---- a stage, a corrective loop, a run

  predicate Foreign(r: Record, repo: string, steps: seq<Step>) {
    r.repo != repo || forall k :: 0 <= k < |steps| ==> r.name != NameOf(steps[k])
  }

  lemma ForeignKeeps(records: seq<Record>, longer: seq<Record>, repo: string, steps: seq<Step>, retries: int, k: nat)
    requires k <= |steps| && records <= longer
    requires forall i :: |records| <= i < |longer| ==> Foreign(longer[i], repo, steps)
    requires Standing(records, repo, steps, retries, k)
    ensures Standing(longer, repo, steps, retries, k)
  {
    forall j | 0 <= j < |steps| ensures PassedAt(longer, repo, steps, j) <==> PassedAt(records, repo, steps, j) {
      if PassedAt(records, repo, steps, j) {
        var i :| 0 <= i < |records| && records[i] == Record(repo, NameOf(steps[j]), Passed);
        assert longer[i] == records[i];
      }
      if PassedAt(longer, repo, steps, j) {
        var i :| 0 <= i < |longer| && longer[i] == Record(repo, NameOf(steps[j]), Passed);
        assert i < |records|;
        assert records[i] == longer[i];
      }
    }
  }

  /** What was got through stays so: records are only appended. */
  lemma StandsLonger(records: seq<Record>, longer: seq<Record>, repo: string, steps: seq<Step>, retries: int, k: nat)
    requires k <= |steps| && records <= longer
    requires Standing(records, repo, steps, retries, k) && Standing(longer, repo, steps, retries, 0)
    ensures Standing(longer, repo, steps, retries, k)
  {
    forall i | 0 <= i < k && PassedAt(records, repo, steps, i) ensures PassedAt(longer, repo, steps, i) {
      var n :| 0 <= n < |records| && records[n] == Record(repo, NameOf(steps[i]), Passed);
      assert longer[n] == records[n];
    }
  }

  ghost predicate Sound(cfg: Config, repo: string) {
    repo in cfg && Tight(StepsOf(cfg[repo]), cfg[repo].retries) && DistinctNames(StepsOf(cfg[repo]))
  }

  ghost predicate Kept(cfg: Config, records: seq<Record>, repo: string)
    requires repo in cfg
  {
    Standing(records, repo, StepsOf(cfg[repo]), cfg[repo].retries, 0)
  }

  /** Every step of the repo was got through. */
  ghost predicate Through(cfg: Config, records: seq<Record>, repo: string)
    requires repo in cfg
  {
    Standing(records, repo, StepsOf(cfg[repo]), cfg[repo].retries, |StepsOf(cfg[repo])|)
  }

  /** A pass over one repo, seen from any repo: its own prefix is kept and completed, and
      another's is not touched. */
  lemma RepoPassKeeps(cfg: Config, run: string, resume: bool, records: seq<Record>, o: Oracle, t: nat, repo: string)
    requires run in cfg && Sound(cfg, repo) && Kept(cfg, records, repo)
    ensures var p := PassSteps(run, StepsOf(cfg[run]), cfg[run].retries, resume, records, o, t);
      && records <= p.records && Kept(cfg, p.records, repo)
      && (p.ok && run == repo ==> Through(cfg, p.records, repo))
  {
    var steps, retries := StepsOf(cfg[run]), cfg[run].retries;
    PassAppends(run, steps, retries, resume, records, o, t);
    if run == repo {
      PassKeepsPrefix(repo, steps, retries, resume, records, o, t);
      var p := PassSteps(run, steps, retries, resume, records, o, t);
      StopStands(p.records, repo, steps, retries, if p.ok then |steps| else 0);
    } else {
      ForeignKeeps(records, PassSteps(run, steps, retries, resume, records, o, t).records, repo,
                   StepsOf(cfg[repo]), cfg[repo].retries, 0);
    }
  }

  lemma {:induction false} StageKeeps(cfg: Config, repos: seq<string>, resume: bool, records: seq<Record>,
                                      o: Oracle, t: nat, repo: string)
    requires Sound(cfg, repo) && Kept(cfg, records, repo)
    ensures var p := PassStage(cfg, repos, resume, records, o, t);
      && records <= p.records && Kept(cfg, p.records, repo)
      && (p.ok && repo in repos ==> Through(cfg, p.records, repo))
    decreases |repos|
  {
    if repos != [] && repos[0] in cfg && o(t).ready {
      var first := cfg[repos[0]];
      RepoPassKeeps(cfg, repos[0], resume, records, o, t + 1, repo);
      var p := PassSteps(repos[0], StepsOf(first), first.retries, resume, records, o, t + 1);
      if p.ok {
        StageKeeps(cfg, repos[1..], resume, p.records, o, p.clock, repo);
        var q := PassStage(cfg, repos[1..], resume, p.records, o, p.clock);
        if repos[0] == repo && q.ok {
          StandsLonger(p.records, q.records, repo, StepsOf(first), first.retries, |StepsOf(first)|);
        }
        assert repo in repos ==> repo == repos[0] || repo in repos[1..];
      }
    }
  }

  predicate InSome(stages: seq<seq<string>>, repo: string) {
    exists i :: 0 <= i < |stages| && repo in stages[i]
  }

  lemma {:induction false} StagesKeep(cfg: Config, stages: seq<seq<string>>, resume: bool, records: seq<Record>,
                                      o: Oracle, t: nat, repo: string)
    requires Sound(cfg, repo) && Kept(cfg, records, repo)
    ensures var p := PassStages(cfg, stages, resume, records, o, t);
      && records <= p.records && Kept(cfg, p.records, repo)
      && (p.ok && InSome(stages, repo) ==> Through(cfg, p.records, repo))
    decreases |stages|
  {
    if stages != [] {
      StageKeeps(cfg, stages[0], resume, records, o, t, repo);
      var p := PassStage(cfg, stages[0], resume, records, o, t);
      if p.ok {
        StagesKeep(cfg, stages[1..], resume, p.records, o, p.clock, repo);
        var q := PassStages(cfg, stages[1..], resume, p.records, o, p.clock);
        if q.ok && InSome(stages, repo) {
          if repo in stages[0] {
            StandsLonger(p.records, q.records, repo, StepsOf(cfg[repo]), cfg[repo].retries, |StepsOf(cfg[repo])|);
          } else {
            var i :| 0 <= i < |stages| && repo in stages[i];
            assert stages[1..][i - 1] == stages[i];
          }
        }
      }
    }
  }

  /** The corrective loop keeps every repo's prefix, and concludes only when the corrected
      repo got through. */
  lemma {:induction false} FixKeeps(cfg: Config, fixing: string, cycle: nat, limit: int, records: seq<Record>,
                                    cycles: nat -> Cycle, repo: string)
    requires fixing in cfg && Sound(cfg, repo) && Kept(cfg, records, repo)
    ensures var f := FixFrom(cfg, fixing, cfg[fixing].retries, cycle, limit, records, cycles);
      && records <= f.records && Kept(cfg, f.records, repo)
      && (f.verdict == Concluded && fixing == repo ==> Through(cfg, f.records, repo))
    decreases limit - cycle
  {
    var c := cycles(cycle);
    if cycle <= limit && !c.cancelled && HasFailed(records, fixing) {
      var retries := cfg[fixing].retries;
      var fix := Attempts(c.log, retries, c.agent);
      var fixed := records + Named(fixing, FIX, StatusesLeft(retries, fix));
      ForeignKeeps(records, fixed, repo, StepsOf(cfg[repo]), cfg[repo].retries, 0);
      if !fix.ok || StageForRepo(c.stages, fixing).None? {
        FixKeeps(cfg, fixing, cycle + 1, limit, fixed, cycles, repo);
      } else {
        StageKeeps(cfg, [fixing], true, fixed, c.during, 0, repo);
        var p := PassStage(cfg, [fixing], true, fixed, c.during, 0);
        if !p.ok {
          FixKeeps(cfg, fixing, cycle + 1, limit, p.records, cycles, repo);
        }
      }
    }
  }

  lemma {:induction false} RunKeeps(cfg: Config, stages: seq<seq<string>>, o: Oracle, acts: seq<Act>, repo: string)
    requires Sound(cfg, repo)
    ensures Kept(cfg, Run(cfg, stages, o, acts), repo)
  {
    if acts == [] {
      StagesKeep(cfg, stages, false, [], o, 0, repo);
    } else {
      var before, act := acts[..|acts| - 1], acts[|acts| - 1];
      RunKeeps(cfg, stages, o, before, repo);
      var records := Run(cfg, stages, o, before);
      match act
      case Resume(again, answers) => StagesKeep(cfg, again, true, records, answers, 0, repo);
      case Fix(fixing, limit, cycles) =>
        if fixing in cfg {
          FixKeeps(cfg, fixing, 1, limit, records, cycles, repo);
        }
    }
  }

  // ---- the theorems

  /** Through a fresh pass and any number of resumes and corrective cycles, over whatever
      stages each resolves, the passed steps of a repo are a prefix of its step list. */
  lemma PassedStepsArePrefix(cfg: Config, stages: seq<seq<string>>, o: Oracle, acts: seq<Act>, repo: string)
    requires Sound(cfg, repo)
    ensures PassedPrefix(Run(cfg, stages, o, acts), repo, StepsOf(cfg[repo]))
  {
    RunKeeps(cfg, stages, o, acts, repo);
  }

  lemma ThroughMeansPassed(cfg: Config, records: seq<Record>, repo: string)
    requires repo in cfg && Strict(StepsOf(cfg[repo]), cfg[repo].retries) && Through(cfg, records, repo)
    ensures AllPassed(records, repo, StepsOf(cfg[repo]))
  {
  }

  /** A stage that a fresh pass or a resume at any point of a run ends without an error has
      passed records for the full list of each of its repos; so has the repo a corrective
      loop concludes passed. */
  lemma NoErrorMeansAllPassed(cfg: Config, stages: seq<seq<string>>, o: Oracle, acts: seq<Act>,
                              repos: seq<string>, resume: bool, o': Oracle, repo: string)
    requires Sound(cfg, repo) && Strict(StepsOf(cfg[repo]), cfg[repo].retries) && repo in repos
    ensures var p := PassStage(cfg, repos, resume, Run(cfg, stages, o, acts), o', 0);
      p.ok ==> AllPassed(p.records, repo, StepsOf(cfg[repo]))
  {
    RunKeeps(cfg, stages, o, acts, repo);
    StageKeeps(cfg, repos, resume, Run(cfg, stages, o, acts), o', 0, repo);
    var p := PassStage(cfg, repos, resume, Run(cfg, stages, o, acts), o', 0);
    if p.ok {
      ThroughMeansPassed(cfg, p.records, repo);
    }
  }

  lemma ConcludedMeansAllPassed(cfg: Config, stages: seq<seq<string>>, o: Oracle, acts: seq<Act>,
                                repo: string, limit: int, cycles: nat -> Cycle)
    requires Sound(cfg, repo) && Strict(StepsOf(cfg[repo]), cfg[repo].retries)
    ensures var f := FixFrom(cfg, repo, cfg[repo].retries, 1, limit, Run(cfg, stages, o, acts), cycles);
      f.verdict == Concluded ==> AllPassed(f.records, repo, StepsOf(cfg[repo]))
  {
    RunKeeps(cfg, stages, o, acts, repo);
    FixKeeps(cfg, repo, 1, limit, Run(cfg, stages, o, acts), cycles, repo);
    var f := FixFrom(cfg, repo, cfg[repo].retries, 1, limit, Run(cfg, stages, o, acts), cycles);
    if f.verdict == Concluded {
      ThroughMeansPassed(cfg, f.records, repo);
    }
  }

  lemma StillPassed(records: seq<Record>, longer: seq<Record>, repo: string, name: string)
    requires records <= longer
    ensures HasPassed(records, repo, name) ==> HasPassed(longer, repo, name)
  {
    if HasPassed(records, repo, name) {
      var i :| 0 <= i < |records| && records[i] == Record(repo, name, Passed);
      assert longer[i] == records[i];
    }
  }

  /** A resume never runs a step again that had passed before it: it appends no record for
      one, whatever the configuration. */
  lemma {:induction false} ResumeRepeatsNothing(cfg: Config, repos: seq<string>, records: seq<Record>, o: Oracle, t: nat)
    ensures var p := PassStage(cfg, repos, true, records, o, t);
      && records <= p.records
      && forall i :: |records| <= i < |p.records| ==> !HasPassed(records, p.records[i].repo, p.records[i].name)
    decreases |repos|
  {
    if repos != [] && repos[0] in cfg && o(t).ready {
      var first := cfg[repos[0]];
      PassAppends(repos[0], StepsOf(first), first.retries, true, records, o, t + 1);
      var p := PassSteps(repos[0], StepsOf(first), first.retries, true, records, o, t + 1);
      if p.ok {
        ResumeRepeatsNothing(cfg, repos[1..], p.records, o, p.clock);
        var q := PassStage(cfg, repos[1..], true, p.records, o, p.clock);
        forall i | |records| <= i < |q.records| ensures !HasPassed(records, q.records[i].repo, q.records[i].name) {
          if i < |p.records| {
            assert q.records[i] == p.records[i];
          } else {
            StillPassed(records, p.records, q.records[i].repo, q.records[i].name);
          }
        }
      }
    }
  }

  // ---- how many cycles a corrective loop uses

  /** What one cycle came to: its records, and whether the repo's stage then passed. */
  datatype Cycled = Cycled(records: seq<Record>, passed: bool)

  /** The fix first; then, if it ended without an error and the repo has a stage, that repo's
      steps again from where they stand. */
  ghost function CycleOn(cfg: Config, repo: string, retries: int, c: Cycle, records: seq<Record>): Cycled {
    var fix := Attempts(c.log, retries, c.agent);
    var fixed := records + Named(repo, "fix", StatusesLeft(retries, fix));
    if fix.ok && (exists i :: 0 <= i < |c.stages| && repo in c.stages[i])
    then Cycled(PassStage(cfg, [repo], true, fixed, c.during, 0).records, PassStage(cfg, [repo], true, fixed, c.during, 0).ok)
    else Cycled(fixed, false)
  }

  lemma CycleAppends(cfg: Config, repo: string, retries: int, c: Cycle, records: seq<Record>)
    ensures records <= CycleOn(cfg, repo, retries, c, records).records
    ensures HasFailed(records, repo) ==> HasFailed(CycleOn(cfg, repo, retries, c, records).records, repo)
  {
    var fixed := records + Named(repo, "fix", StatusesLeft(retries, Attempts(c.log, retries, c.agent)));
    ResumeRepeatsNothing(cfg, [repo], fixed, c.during, 0);
    var after := CycleOn(cfg, repo, retries, c, records).records;
    if HasFailed(records, repo) {
      var i :| 0 <= i < |records| && records[i].repo == repo && records[i].status == FailedPhase;
      assert after[i] == records[i];
    }
  }

  /** One turn of the loop. */
  lemma FixTurn(cfg: Config, repo: string, retries: int, cycle: nat, limit: int, records: seq<Record>, cycles: nat -> Cycle)
    ensures var f := FixFrom(cfg, repo, retries, cycle, limit, records, cycles);
      var c := CycleOn(cfg, repo, retries, cycles(cycle), records);
      f == if cycle > limit then FixRun(records, GaveUp)
           else if cycles(cycle).cancelled then FixRun(records, Stopped)
           else if !HasFailed(records, repo) then FixRun(records, GaveUp)
           else if c.passed then FixRun(c.records, if cycles(cycle).cancelledLate then Stopped else Concluded)
           else FixFrom(cfg, repo, retries, cycle + 1, limit, c.records, cycles)
  {
  }

  /** What cycle number `i` comes to from given records. */
  type Cycling = (nat, seq<Record>) -> Cycled

  ghost predicate CyclesAre(turn: Cycling, cfg: Config, repo: string, retries: int, cycles: nat -> Cycle) {
    forall i, records {:trigger CycleOn(cfg, repo, retries, cycles(i), records)} ::
      turn(i, records) == CycleOn(cfg, repo, retries, cycles(i), records)
  }

  /** The loop, turn by turn. */
  ghost function LoopBy(turn: Cycling, repo: string, cycle: nat, limit: int, records: seq<Record>, cycles: nat -> Cycle): FixRun
    decreases limit - cycle
  {
    if cycle > limit then FixRun(records, GaveUp)
    else if cycles(cycle).cancelled then FixRun(records, Stopped)
    else if !HasFailed(records, repo) then FixRun(records, GaveUp)
    else
      var c := turn(cycle, records);
      if c.passed then FixRun(c.records, if cycles(cycle).cancelledLate then Stopped else Concluded)
      else LoopBy(turn, repo, cycle + 1, limit, c.records, cycles)
  }

  lemma {:induction false} FixIsLoop(turn: Cycling, cfg: Config, repo: string, retries: int, cycle: nat, limit: int,
                                     records: seq<Record>, cycles: nat -> Cycle)
    requires CyclesAre(turn, cfg, repo, retries, cycles)
    ensures FixFrom(cfg, repo, retries, cycle, limit, records, cycles) == LoopBy(turn, repo, cycle, limit, records, cycles)
    decreases limit - cycle
  {
    FixTurn(cfg, repo, retries, cycle, limit, records, cycles);
    assert turn(cycle, records) == CycleOn(cfg, repo, retries, cycles(cycle), records);
    if cycle <= limit {
      FixIsLoop(turn, cfg, repo, retries, cycle + 1, limit, turn(cycle, records).records, cycles);
    }
  }

  /** What stood before and after each cycle: none was cancelled before it began, and none but
      the last passed. */
  ghost predicate CyclesRan(turn: Cycling, cycles: nat -> Cycle, states: seq<seq<Record>>) {
    && states != []
    && forall i :: 0 < i < |states| ==>
      && !cycles(i).cancelled && states[i] == turn(i, states[i - 1]).records
      && (i < |states| - 1 ==> !turn(i, states[i - 1]).passed)
  }

  ghost predicate LastPassed(turn: Cycling, states: seq<seq<Record>>) {
    |states| > 1 && turn(|states| - 1, states[|states| - 2]).passed
  }

  /** How a loop that went through these states ended. */
  ghost predicate LoopEnded(turn: Cycling, repo: string, limit: int, cycles: nat -> Cycle, states: seq<seq<Record>>, f: FixRun)
    requires states != []
  {
    var k, passed := |states| - 1, LastPassed(turn, states);
    && f.records == states[k] && (k > 0 ==> k <= limit)
    && (f.verdict == Concluded <==> passed && !cycles(k).cancelledLate)
    && (f.verdict == Stopped <==> if passed then cycles(k).cancelledLate else k < limit && cycles(k + 1).cancelled)
    && (f.verdict == GaveUp && HasFailed(states[0], repo) ==> k == if limit > 0 then limit else 0)
  }

  lemma MoreStates(turn: Cycling, cycles: nat -> Cycle, states: seq<seq<Record>>)
    requires CyclesRan(turn, cycles, states) && !LastPassed(turn, states) && !cycles(|states|).cancelled
    ensures CyclesRan(turn, cycles, states + [turn(|states|, states[|states| - 1]).records])
  {
    var k := |states|;
    var more := states + [turn(k, states[k - 1]).records];
    forall i | 0 < i < |more|
      ensures !cycles(i).cancelled && more[i] == turn(i, more[i - 1]).records
      ensures i < |more| - 1 ==> !turn(i, more[i - 1]).passed
    {
      assert more[i - 1] == states[i - 1];
      assert i < k ==> more[i] == states[i];
    }
  }

  lemma {:induction false} LoopRan(turn: Cycling, repo: string, limit: int, cycles: nat -> Cycle, earlier: seq<seq<Record>>)
    returns (states: seq<seq<Record>>)
    requires CyclesRan(turn, cycles, earlier) && !LastPassed(turn, earlier) && (|earlier| > 1 ==> |earlier| - 1 <= limit)
    requires HasFailed(earlier[0], repo) ==> HasFailed(earlier[|earlier| - 1], repo)
    requires forall i, records :: HasFailed(records, repo) ==> HasFailed(turn(i, records).records, repo)
    ensures CyclesRan(turn, cycles, states) && states[0] == earlier[0]
    ensures LoopEnded(turn, repo, limit, cycles, states, LoopBy(turn, repo, |earlier|, limit, earlier[|earlier| - 1], cycles))
    decreases limit - |earlier|
  {
    var k, now := |earlier|, earlier[|earlier| - 1];
    states := earlier;
    if k <= limit && !cycles(k).cancelled && HasFailed(now, repo) {
      MoreStates(turn, cycles, earlier);
      var more := earlier + [turn(k, now).records];
      if turn(k, now).passed {
        states := more;
      } else {
        states := LoopRan(turn, repo, limit, cycles, more);
      }
    }
  }

  /** A corrective loop runs cycle after cycle within its limit until one passes. It concludes
      exactly by a cycle that passes and is not cancelled meanwhile; it stops exactly by a
      cancel, before a cycle or during one that passes; and it gives up only with the limit
      used up, unless nothing had failed. `turn` is what each cycle comes to. */
  lemma FixLoop(turn: Cycling, cfg: Config, repo: string, retries: int, limit: int, before: seq<Record>, cycles: nat -> Cycle)
    returns (states: seq<seq<Record>>)
    requires CyclesAre(turn, cfg, repo, retries, cycles)
    ensures CyclesRan(turn, cycles, states) && states[0] == before
    ensures LoopEnded(turn, repo, limit, cycles, states, FixFrom(cfg, repo, retries, 1, limit, before, cycles))
  {
    forall i, records | HasFailed(records, repo) ensures HasFailed(turn(i, records).records, repo) {
      CycleAppends(cfg, repo, retries, cycles(i), records);
    }
    FixIsLoop(turn, cfg, repo, retries, 1, limit, before, cycles);
    states := LoopRan(turn, repo, limit, cycles, [before]);
  }

  // ---- exactly which step lists those need

  /** A world where everything succeeds, but for the exit code of answer `i`. */
  ghost function AllBut(i: nat): Oracle {
    (t: nat) => Answer(true, t != i, true, World((n: nat) => Exited(true, (m: nat) => None), (n: nat) => ""), [], false)
  }

  lemma GoodAttempts(retries: int, i: nat, t: nat)
    ensures var a := AllBut(i)(t);
      var r := Attempts(a.log, retries, a.agent);
      r.ok && r.statuses == if retries < 0 then [] else [Passed]
  {
    if retries >= 0 {
      var step := Delivery.Deliver("", true, (m: nat) => None);
      assert Delivery.Tries("", 1, 3, step.outcomes, false) == [Delivery.Row("", Delivery.Delivered, 1, "")];
      var rows := Delivery.NewRows([], step);
      assert rows[|rows| - 1].state == Delivery.Delivered;
    }
  }

  lemma GoodStep(step: Step, retries: int, i: nat, t: nat)
    ensures var e := Execute(step, retries, AllBut(i)(t));
      && (e.stops <==> !GoesOn(step, retries) || (step.Gate? && t == i))
      && (t != i && CanPass(step, retries) ==> Passed in e.statuses)
      && (t == i && Slips(step, retries) ==> Passed !in e.statuses)
  {
    GoodAttempts(retries, i, t);
  }

  lemma {:induction false} SlipShows(repo: string, steps: seq<Step>, retries: int, k: nat, i: nat, j: nat, records: seq<Record>)
    requires k <= |steps| && i < |steps| && j < |steps| && i != j && DistinctNames(steps)
    requires Slips(steps[i], retries) && CanPass(steps[j], retries)
    requires forall m :: 0 <= m < j ==> GoesOn(steps[m], retries)
    requires !PassedAt(records, repo, steps, i) && (j < k ==> PassedAt(records, repo, steps, j))
    ensures var p := PassSteps(repo, steps[k..], retries, false, records, AllBut(i), k);
      !PassedAt(p.records, repo, steps, i) && PassedAt(p.records, repo, steps, j)
    decreases |steps| - k
  {
    if k == |steps| {
      assert steps[k..] == [];
    } else {
      assert steps[k..][1..] == steps[k + 1..];
      GoodStep(steps[k], retries, i, k);
      var e := Execute(steps[k], retries, AllBut(i)(k));
      var records' := records + Named(repo, NameOf(steps[k]), e.statuses);
      HasPassedAppend(records, repo, NameOf(steps[k]), e.statuses, repo, NameOf(steps[i]));
      HasPassedAppend(records, repo, NameOf(steps[k]), e.statuses, repo, NameOf(steps[j]));
      if !e.stops {
        SlipShows(repo, steps, retries, k + 1, i, j, records');
      }
    }
  }

  /** From no records at all, a fresh pass keeps the prefix in every world exactly when no
      step that slips is followed by one that can still pass. For a configuration without
      negative retries that says: no placeholder before the end. */
  lemma TightIsExact(repo: string, steps: seq<Step>, retries: int)
    requires DistinctNames(steps)
    ensures Tight(steps, retries) <==>
      forall o :: PassedPrefix(PassSteps(repo, steps, retries, false, [], o, 0).records, repo, steps)
  {
    if Tight(steps, retries) {
      forall o ensures PassedPrefix(PassSteps(repo, steps, retries, false, [], o, 0).records, repo, steps) {
        PassKeepsPrefix(repo, steps, retries, false, [], o, 0);
      }
    } else {
      var i, j :| 0 <= i < j < |steps| && Slips(steps[i], retries) && CanPass(steps[j], retries)
        && forall k :: 0 <= k < j ==> GoesOn(steps[k], retries);
      assert steps[0..] == steps;
      SlipShows(repo, steps, retries, 0, i, j, []);
      var p := PassSteps(repo, steps, retries, false, [], AllBut(i), 0);
      assert PassedAt(p.records, repo, steps, j) && !PassedAt(p.records, repo, steps, i);
      assert !PassedPrefix(p.records, repo, steps);
    }
  }

  lemma TightWithRetries(steps: seq<Step>, retries: int)
    requires retries >= 0
    ensures Tight(steps, retries) <==> forall i :: 0 <= i < |steps| - 1 ==> !steps[i].Placeholder?
    ensures Strict(steps, retries) <==> forall i :: 0 <= i < |steps| ==> !steps[i].Placeholder?
  {
    if Tight(steps, retries) {
      forall i | 0 <= i < |steps| - 1 ensures !steps[i].Placeholder? {
        assert CanPass(steps[|steps| - 1], retries);
      }
    }
  }

  lemma {:induction false} SlippedGetsThrough(repo: string, steps: seq<Step>, retries: int, k: nat, i: nat, records: seq<Record>)
    requires k <= |steps| && i < |steps| && DistinctNames(steps) && Slips(steps[i], retries)
    requires forall m :: 0 <= m < |steps| ==> GoesOn(steps[m], retries)
    requires !PassedAt(records, repo, steps, i)
    ensures var p := PassSteps(repo, steps[k..], retries, false, records, AllBut(i), k);
      p.ok && !PassedAt(p.records, repo, steps, i)
    decreases |steps| - k
  {
    if k == |steps| {
      assert steps[k..] == [];
    } else {
      assert steps[k..][1..] == steps[k + 1..];
      GoodStep(steps[k], retries, i, k);
      var e := Execute(steps[k], retries, AllBut(i)(k));
      HasPassedAppend(records, repo, NameOf(steps[k]), e.statuses, repo, NameOf(steps[i]));
      SlippedGetsThrough(repo, steps, retries, k + 1, i, records + Named(repo, NameOf(steps[k]), e.statuses));
    }
  }

  lemma {:induction false} BlockedNeverEnds(repo: string, steps: seq<Step>, retries: int, k: nat, records: seq<Record>, o: Oracle, t: nat)
    requires k < |steps| && !GoesOn(steps[k], retries)
    ensures !PassSteps(repo, steps, retries, false, records, o, t).ok
    decreases |steps|
  {
    ExecuteMeans(steps[0], retries, o(t));
    var e := Execute(steps[0], retries, o(t));
    if k > 0 && !e.stops {
      assert steps[1..][k - 1] == steps[k];
      BlockedNeverEnds(repo, steps[1..], retries, k - 1, records + Named(repo, NameOf(steps[0]), e.statuses), o, t + 1);
    }
  }

  /** A fresh pass without an error means every step passed, in every world, exactly when no
      step slips or the list can never be got through. */
  lemma StrictIsExact(repo: string, steps: seq<Step>, retries: int)
    requires DistinctNames(steps)
    ensures Strict(steps, retries) <==>
      forall o :: PassSteps(repo, steps, retries, false, [], o, 0).ok ==>
        AllPassed(PassSteps(repo, steps, retries, false, [], o, 0).records, repo, steps)
  {
    assert steps[0..] == steps;
    if k :| 0 <= k < |steps| && !GoesOn(steps[k], retries) {
      forall o ensures !PassSteps(repo, steps, retries, false, [], o, 0).ok {
        BlockedNeverEnds(repo, steps, retries, k, [], o, 0);
      }
    } else if i :| 0 <= i < |steps| && Slips(steps[i], retries) {
      SlippedGetsThrough(repo, steps, retries, 0, i, []);
      assert !AllPassed(PassSteps(repo, steps, retries, false, [], AllBut(i), 0).records, repo, steps);
    } else {
      forall o | PassSteps(repo, steps, retries, false, [], o, 0).ok
        ensures AllPassed(PassSteps(repo, steps, retries, false, [], o, 0).records, repo, steps)
      {
        PassKeepsPrefix(repo, steps, retries, false, [], o, 0);
      }
    }
  }

  // ---- a review that objects

  /** The review's agent exited zero, so it is recorded as passed, but a finding blocks. */
  predicate Objects(step: Step, retries: int, a: Answer) {
    step.Review? && a.blocks && Execute(step, retries, a).stops && Passed in Execute(step, retries, a).statuses
  }

  /** A fresh pass gets to step `k`. */
  predicate Reaches(steps: seq<Step>, retries: int, o: Oracle, k: nat)
    requires k < |steps|
  {
    forall i :: 0 <= i < k ==> !Execute(steps[i], retries, o(i)).stops
  }

  /** The pass stops at an objecting review, and the resume after it ends without an error
      and without another word of that review. */
  ghost predicate ForgetsObjection(repo: string, steps: seq<Step>, retries: int, o: Oracle, again: Oracle, k: nat) {
    && k < |steps| && Reaches(steps, retries, o, k) && Objects(steps[k], retries, o(k))
    && var p := PassSteps(repo, steps, retries, false, [], o, 0);
      var q := PassSteps(repo, steps, retries, true, p.records, again, 0);
      !p.ok && q.ok && p.records <= q.records
      && forall i :: |p.records| <= i < |q.records| ==> q.records[i].name != NameOf(steps[k])
  }

  /** Everything succeeds, but review `k` has a blocking finding. */
  ghost function ObjectingAt(k: nat): Oracle {
    (t: nat) => AllBut(k)(t).(blocks := t == k)
  }

  /** Everything succeeds. */
  ghost function Good(): Oracle {
    (t: nat) => AllBut(t + 1)(t)
  }

  lemma ObjectingStep(step: Step, retries: int, k: nat, t: nat)
    requires retries >= 0 && (t == k ==> step.Review?)
    ensures var e := Execute(step, retries, ObjectingAt(k)(t));
      Passed in e.statuses && (e.stops <==> t == k)
  {
    GoodStep(step, retries, k, t);
    GoodAttempts(retries, k, t);
  }

  lemma {:induction false} ObjectingPass(repo: string, steps: seq<Step>, retries: int, k: nat, j: nat, records: seq<Record>)
    requires retries >= 0 && j <= k < |steps| && steps[k].Review?
    requires forall i :: 0 <= i < j ==> PassedAt(records, repo, steps, i)
    ensures var p := PassSteps(repo, steps[j..], retries, false, records, ObjectingAt(k), j);
      !p.ok && forall i :: 0 <= i <= k ==> PassedAt(p.records, repo, steps, i)
    decreases k - j
  {
    assert steps[j..][1..] == steps[j + 1..];
    var e := Execute(steps[j], retries, ObjectingAt(k)(j));
    var records' := records + Named(repo, NameOf(steps[j]), e.statuses);
    ObjectingStep(steps[j], retries, k, j);
    forall i | 0 <= i <= j ensures PassedAt(records', repo, steps, i) {
      HasPassedAppend(records, repo, NameOf(steps[j]), e.statuses, repo, NameOf(steps[i]));
      assert i < j ==> PassedAt(records, repo, steps, i);
      assert PassedAt(records', repo, steps, i);
    }
    if j < k {
      ObjectingPass(repo, steps, retries, k, j + 1, records');
    }
  }

  lemma {:induction false} GoodResume(repo: string, steps: seq<Step>, retries: int, records: seq<Record>, t: nat)
    requires retries >= 0
    ensures PassSteps(repo, steps, retries, true, records, Good(), t).ok
    decreases |steps|
  {
    if steps != [] {
      if HasPassed(records, repo, NameOf(steps[0])) {
        GoodResume(repo, steps[1..], retries, records, t);
      } else {
        GoodStep(steps[0], retries, t + 1, t);
        var e := Execute(steps[0], retries, Good()(t));
        GoodResume(repo, steps[1..], retries, records + Named(repo, NameOf(steps[0]), e.statuses), t + 1);
      }
    }
  }

  lemma ObjectionIsForgotten(repo: string, steps: seq<Step>, retries: int, k: nat)
    requires retries >= 0 && k < |steps| && steps[k].Review?
    ensures ForgetsObjection(repo, steps, retries, ObjectingAt(k), Good(), k)
  {
    assert steps[0..] == steps;
    ObjectingPass(repo, steps, retries, k, 0, []);
    var p := PassSteps(repo, steps, retries, false, [], ObjectingAt(k), 0);
    GoodResume(repo, steps, retries, p.records, 0);
    PassAppends(repo, steps, retries, true, p.records, Good(), 0);
    assert PassedAt(p.records, repo, steps, k);
    forall i | 0 <= i <= k ensures Execute(steps[i], retries, ObjectingAt(k)(i)).stops <==> i == k {
      ObjectingStep(steps[i], retries, k, i);
    }
    ObjectingStep(steps[k], retries, k, k);
  }

  /** "No error means no review objected" fails over a resume exactly for step lists with a
      review that can pass: its record says passed, so the resume skips it with its findings. */
  lemma ObjectionForgottenIff(repo: string, steps: seq<Step>, retries: int)
    ensures (exists o, again, k :: ForgetsObjection(repo, steps, retries, o, again, k))
       <==> retries >= 0 && exists k :: 0 <= k < |steps| && steps[k].Review?
  {
    if retries >= 0 {
      if k :| 0 <= k < |steps| && steps[k].Review? {
        ObjectionIsForgotten(repo, steps, retries, k);
      }
    }
  }

  lemma OkGoesOn(repo: string, steps: seq<Step>, retries: int, records: seq<Record>, o: Oracle, t: nat)
    returns (records': seq<Record>)
    requires steps != [] && PassSteps(repo, steps, retries, false, records, o, t).ok
    ensures !Objects(steps[0], retries, o(t))
    ensures PassSteps(repo, steps[1..], retries, false, records', o, t + 1).ok
  {
    records' := records + Named(repo, NameOf(steps[0]), Execute(steps[0], retries, o(t)).statuses);
  }

  /** Within one pass it holds: a fresh pass without an error has run every review, and none
      of them objected. */
  lemma {:induction false} FreshPassHeardAll(repo: string, steps: seq<Step>, retries: int, records: seq<Record>, o: Oracle, t: nat)
    requires PassSteps(repo, steps, retries, false, records, o, t).ok
    ensures NoneObjects(steps, retries, o, t)
    decreases |steps|
  {
    if steps != [] {
      var records' := OkGoesOn(repo, steps, retries, records, o, t);
      FreshPassHeardAll(repo, steps[1..], retries, records', o, t + 1);
      HeardFirstAndRest(steps, retries, o, t);
    }
  }

  ghost predicate NoneObjects(steps: seq<Step>, retries: int, o: Oracle, t: nat) {
    forall k :: 0 <= k < |steps| ==> !Objects(steps[k], retries, o(t + k))
  }

  lemma HeardFirstAndRest(steps: seq<Step>, retries: int, o: Oracle, t: nat)
    requires steps != [] && !Objects(steps[0], retries, o(t)) && NoneObjects(steps[1..], retries, o, t + 1)
    ensures NoneObjects(steps, retries, o, t)
  {
    forall k | 0 <= k < |steps| ensures !Objects(steps[k], retries, o(t + k)) {
      if k > 0 {
        assert steps[1..][k - 1] == steps[k] && o(t + 1 + (k - 1)) == o(t + k);
      }
    }
  }
}
