/** The stage engine: a repo's pipeline flattened into one list of steps, executed in order
    and stopped at the first failure, with a resume that skips what already passed. */
module StageEngine {
  import opened Wrappers
  import Delivery
  import opened AgentPhase
  import opened GateNames

  /** What the engine reads of a phase record: a gate's has no attempts to tell apart. */
  datatype Record = Record(repo: string, name: string, status: Status)

  datatype Repo = Repo(pipeline: seq<string>, gates: map<string, string>, retries: int)

  type Config = map<string, Repo>

  /** What is executed for one entry of a pipeline; "test" without gates is a placeholder. */
  datatype Step = Gate(name: string) | Placeholder | Review | Agent(name: string)

  /** What the world answers while one step runs, or while a worktree is prepared. */
  datatype Answer = Answer(ready: bool, exitsZero: bool, diffs: bool, agent: World, log: seq<Delivery.Row>, blocks: bool)

  type Oracle = nat -> Answer

  /** What a step records, and whether it ends the stage with an error. */
  datatype Ending = Ending(statuses: seq<Status>, stops: bool)

  /** Where a pass stands: the records, how many answers it used, and whether it goes on. */
  datatype Pass = Pass(records: seq<Record>, clock: nat, ok: bool)

  const DEFAULT_PIPELINE: seq<string> := ["plan", "build", "test"]

  function NameOf(step: Step): string {
    match step
    case Gate(name) => name
    case Placeholder => "test"
    case Review => "review"
    case Agent(name) => name
  }

  function PipelineFor(repo: Repo): seq<string> {
    if repo.pipeline != [] then repo.pipeline else DEFAULT_PIPELINE
  }

  function Gates(names: seq<string>): seq<Step> {
    if names == [] then [] else [Gate(names[0])] + Gates(names[1..])
  }

  function Expand(phase: string, order: seq<string>): seq<Step> {
    if phase == "test" then (if order == [] then [Placeholder] else Gates(order))
    else if phase == "review" then [Review] else [Agent(phase)]
  }

  function Flatten(pipeline: seq<string>, order: seq<string>): seq<Step> {
    if pipeline == [] then [] else Expand(pipeline[0], order) + Flatten(pipeline[1..], order)
  }

  /** The deterministic step list of a repo. */
  ghost function StepsOf(repo: Repo): seq<Step> {
    Flatten(PipelineFor(repo), GateOrder(repo.gates))
  }

  predicate HasPassed(records: seq<Record>, repo: string, name: string) {
    exists i :: 0 <= i < |records| && records[i] == Record(repo, name, Passed)
  }

  function Named(repo: string, name: string, statuses: seq<Status>): seq<Record> {
    seq(|statuses|, i requires 0 <= i < |statuses| => Record(repo, name, statuses[i]))
  }

  /** A review whose retries are negative gets no envelope and dies reading it. */
  function Execute(step: Step, retries: int, a: Answer): Ending {
    match step
    case Gate(_) => Ending([if a.exitsZero then Passed else FailedPhase], !a.exitsZero)
    case Placeholder => Ending([if a.exitsZero then Passed else FailedPhase], false)
    case Review =>
      if !a.diffs then Ending([], true) else
      var r := Attempts(a.log, retries, a.agent);
      Ending(StatusesLeft(retries, r), !r.ok || retries < 0 || a.blocks)
    case Agent(_) =>
      var r := Attempts(a.log, retries, a.agent);
      Ending(StatusesLeft(retries, r), !r.ok)
  }

  function PassSteps(repo: string, steps: seq<Step>, retries: int, resume: bool,
                     records: seq<Record>, o: Oracle, t: nat): Pass
  {
    if steps == [] then Pass(records, t, true)
    else if resume && HasPassed(records, repo, NameOf(steps[0])) then
      PassSteps(repo, steps[1..], retries, resume, records, o, t)
    else
      var e := Execute(steps[0], retries, o(t));
      var records' := records + Named(repo, NameOf(steps[0]), e.statuses);
      if e.stops then Pass(records', t + 1, false)
      else PassSteps(repo, steps[1..], retries, resume, records', o, t + 1)
  }

  /** A stage: each of its repos in turn, stopping at the first that is not configured,
      whose worktree cannot be prepared or that fails. */
  ghost function PassStage(cfg: Config, repos: seq<string>, resume: bool, records: seq<Record>, o: Oracle, t: nat): Pass {
    if repos == [] then Pass(records, t, true)
    else if repos[0] !in cfg || !o(t).ready then Pass(records, t + 1, false)
    else
      var repo := cfg[repos[0]];
      var p := PassSteps(repos[0], StepsOf(repo), repo.retries, resume, records, o, t + 1);
      if p.ok then PassStage(cfg, repos[1..], resume, p.records, o, p.clock) else p
  }

  ghost function PassStages(cfg: Config, stages: seq<seq<string>>, resume: bool, records: seq<Record>, o: Oracle, t: nat): Pass {
    if stages == [] then Pass(records, t, true)
    else
      var p := PassStage(cfg, stages[0], resume, records, o, t);
      if p.ok then PassStages(cfg, stages[1..], resume, p.records, o, p.clock) else p
  }

  // ---- what a stage runs, and where it stops

  lemma {:induction false} FlattenConcat(a: seq<string>, b: seq<string>, order: seq<string>)
    ensures Flatten(a + b, order) == Flatten(a, order) + Flatten(b, order)
  {
    if a == [] {
      assert a + b == b;
    } else {
      FlattenConcat(a[1..], b, order);
      assert (a + b)[1..] == a[1..] + b;
      assert Expand(a[0], order) + (Flatten(a[1..], order) + Flatten(b, order))
          == (Expand(a[0], order) + Flatten(a[1..], order)) + Flatten(b, order);
    }
  }

  lemma {:induction false} GatesAre(names: seq<string>)
    ensures |Gates(names)| == |names| && forall i :: 0 <= i < |names| ==> Gates(names)[i] == Gate(names[i])
  {
    if names != [] {
      GatesAre(names[1..]);
    }
  }

  /** A phase on its own: a test is one gate for each of the repo's gates in ascending order,
      or a placeholder where it has none; a review is a review; any other is its agent. */
  lemma StepsOfPhase(phase: string, order: seq<string>)
    ensures Flatten([phase], order) == Expand(phase, order)
    ensures phase == "review" ==> Flatten([phase], order) == [Review]
    ensures phase == "test" && order == [] ==> Flatten([phase], order) == [Placeholder]
    ensures phase == "test" && order != [] ==>
      |Flatten([phase], order)| == |order| && forall i :: 0 <= i < |order| ==> Flatten([phase], order)[i] == Gate(order[i])
    ensures phase != "test" && phase != "review" ==> Flatten([phase], order) == [Agent(phase)]
  {
    GatesAre(order);
    assert [phase][1..] == [] && Expand(phase, order) + [] == Expand(phase, order);
  }

  /** The steps of a repo are those of each phase of its pipeline in turn, with its gates each
      once and in ascending order; plan, build and test where it names no pipeline. */
  lemma StepsOfMeans(repo: Repo, a: seq<string>, b: seq<string>)
    ensures repo.pipeline == a + b && repo.pipeline != [] ==>
      StepsOf(repo) == Flatten(a, GateOrder(repo.gates)) + Flatten(b, GateOrder(repo.gates))
    ensures repo.pipeline == [] ==>
      StepsOf(repo) == [Agent("plan"), Agent("build")] + Flatten(["test"], GateOrder(repo.gates))
    ensures Ascending(GateOrder(repo.gates)) && forall name :: name in GateOrder(repo.gates) <==> name in repo.gates
  {
    var order := GateOrder(repo.gates);
    FlattenConcat(a, b, order);
    if repo.pipeline == [] {
      DefaultSteps(order);
    }
    forall name ensures name in order <==> name in Elements(order) {
    }
  }

  lemma DefaultSteps(order: seq<string>)
    ensures Flatten(["plan", "build", "test"], order) == [Agent("plan"), Agent("build")] + Flatten(["test"], order)
  {
    assert ["plan", "build", "test"] == ["plan"] + (["build"] + ["test"]);
    FlattenConcat(["plan"], ["build"] + ["test"], order);
    FlattenConcat(["build"], ["test"], order);
    StepsOfPhase("plan", order);
    StepsOfPhase("build", order);
  }

  /** How a step that is executed ends the stage: a gate by a failing exit, a review without a
      diff, by its agent or by a blocking finding, an agent by its error; a placeholder never. */
  lemma WhatStops(step: Step, retries: int, a: Answer)
    ensures var e, r := Execute(step, retries, a), Attempts(a.log, retries, a.agent);
      && (step.Gate? ==> (e.stops <==> !a.exitsZero))
      && (step.Placeholder? ==> !e.stops)
      && (step.Agent? ==> (e.stops <==> !r.ok))
      && (step.Review? && retries >= 0 ==> (!e.stops <==> a.diffs && r.ok && !a.blocks))
      && (step.Gate? || step.Placeholder? ==> e.statuses == [if a.exitsZero then Passed else FailedPhase])
      && (step.Review? && !a.diffs ==> e.statuses == [])
      && (retries >= 0 && (step.Agent? || (step.Review? && a.diffs)) ==> e.statuses == r.statuses)
  {
  }

  /** A pass without an error got through every step; one with an error recorded nothing for
      the steps behind the one that stopped it. */
  lemma {:induction false} PassStopsAt(repo: string, steps: seq<Step>, retries: int, resume: bool,
                                       records: seq<Record>, o: Oracle, t: nat) returns (k: nat)
    ensures k <= |steps|
    ensures var p := PassSteps(repo, steps, retries, resume, records, o, t);
      && (p.ok <==> k == |steps|)
      && (!p.ok ==> !PassSteps(repo, steps[..k + 1], retries, resume, records, o, t).ok)
      && PassSteps(repo, steps[..k], retries, resume, records, o, t).ok
      && p.records == PassSteps(repo, if p.ok then steps else steps[..k + 1], retries, resume, records, o, t).records
    decreases |steps|
  {
    if steps == [] {
      k := 0;
    } else {
      var e := Execute(steps[0], retries, o(t));
      var skipped := resume && HasPassed(records, repo, NameOf(steps[0]));
      if !skipped && e.stops {
        k := 0;
        assert steps[..1][0] == steps[0];
      } else {
        var records' := if skipped then records else records + Named(repo, NameOf(steps[0]), e.statuses);
        var rest := PassStopsAt(repo, steps[1..], retries, resume, records', o, if skipped then t else t + 1);
        k := rest + 1;
        assert steps[..k][1..] == steps[1..][..rest] && steps[..k][0] == steps[0];
        if rest < |steps[1..]| {
          assert steps[..k + 1][1..] == steps[1..][..rest + 1] && steps[..k + 1][0] == steps[0];
        }
      }
    }
  }

  lemma StageOfOne(cfg: Config, repo: string, resume: bool, records: seq<Record>, o: Oracle, t: nat)
    ensures var p := PassStage(cfg, [repo], resume, records, o, t);
      if repo !in cfg || !o(t).ready then !p.ok && p.records == records
      else p == PassSteps(repo, StepsOf(cfg[repo]), cfg[repo].retries, resume, records, o, t + 1)
  {
    assert [repo][1..] == [];
  }

  /** A stage goes from one of its repos to the next as long as they end without an error. */
  lemma {:induction false} StageInTwo(cfg: Config, a: seq<string>, b: seq<string>, resume: bool, records: seq<Record>, o: Oracle, t: nat)
    ensures var p := PassStage(cfg, a, resume, records, o, t);
      PassStage(cfg, a + b, resume, records, o, t) == if p.ok then PassStage(cfg, b, resume, p.records, o, p.clock) else p
    decreases |a|
  {
    if a == [] {
      assert a + b == b;
    } else {
      assert (a + b)[1..] == a[1..] + b;
      if a[0] in cfg && o(t).ready {
        var p := PassSteps(a[0], StepsOf(cfg[a[0]]), cfg[a[0]].retries, resume, records, o, t + 1);
        StageInTwo(cfg, a[1..], b, resume, p.records, o, p.clock);
      }
    }
  }

  /** It ends at the first that is not configured, cannot be prepared or stops: those before
      it ended without an error, and those behind it are not touched. */
  lemma StageStopsAt(cfg: Config, a: seq<string>, repo: string, b: seq<string>, resume: bool, records: seq<Record>, o: Oracle, t: nat)
    requires PassStage(cfg, a, resume, records, o, t).ok
    ensures var q := PassStage(cfg, a, resume, records, o, t);
      var p := PassStage(cfg, [repo], resume, q.records, o, q.clock);
      PassStage(cfg, a + ([repo] + b), resume, records, o, t)
        == if p.ok then PassStage(cfg, b, resume, p.records, o, p.clock) else p
  {
    var q := PassStage(cfg, a, resume, records, o, t);
    StageInTwo(cfg, a, [repo] + b, resume, records, o, t);
    StageInTwo(cfg, [repo], b, resume, q.records, o, q.clock);
  }

  // ---- the engine's own loops run that list

  lemma {:induction false} FlattenFrom(pipeline: seq<string>, order: seq<string>, i: nat)
    requires i < |pipeline|
    ensures Flatten(pipeline[i..], order) == Expand(pipeline[i], order) + Flatten(pipeline[i + 1..], order)
  {
    assert pipeline[i..][1..] == pipeline[i + 1..];
  }

  lemma {:induction false} GatesFrom(names: seq<string>, j: nat, rest: seq<Step>)
    requires j < |names|
    ensures Gates(names[j..]) + rest == [Gate(names[j])] + (Gates(names[j + 1..]) + rest)
  {
    assert names[j..][1..] == names[j + 1..];
  }

  class Engine {
    const cfg: Config
    const resume: bool
    var records: seq<Record>
    var clock: nat

    constructor (cfg: Config, resume: bool, records: seq<Record>)
      ensures this.cfg == cfg && this.resume == resume && this.records == records && clock == 0
    {
      this.cfg, this.resume, this.records, clock := cfg, resume, records, 0;
    }

    method PhasePassed(repo: string, name: string) returns (passed: bool)
      ensures passed <==> resume && HasPassed(records, repo, name)
    {
      if !resume {
        return false;
      }
      for i := 0 to |records|
        invariant forall k :: 0 <= k < i ==> records[k] != Record(repo, name, Passed)
      {
        if records[i] == Record(repo, name, Passed) {
          return true;
        }
      }
      return false;
    }

    /** One step, unless this run already earned its pass. */
    method RunStep(repo: string, step: Step, retries: int, o: Oracle) returns (goesOn: bool)
      modifies this
      ensures forall rest ::
        PassSteps(repo, [step] + rest, retries, resume, old(records), o, old(clock))
        == if goesOn then PassSteps(repo, rest, retries, resume, records, o, clock) else Pass(records, clock, false)
    {
      ghost var before, t := records, clock;
      var passed := PhasePassed(repo, NameOf(step));
      if passed {
        goesOn := true;
      } else {
        var e := Execute(step, retries, o(clock));
        records := records + Named(repo, NameOf(step), e.statuses);
        clock := clock + 1;
        goesOn := !e.stops;
      }
      forall rest ensures PassSteps(repo, [step] + rest, retries, resume, before, o, t)
        == if goesOn then PassSteps(repo, rest, retries, resume, records, o, clock) else Pass(records, clock, false)
      {
        assert ([step] + rest)[1..] == rest;
      }
    }

    method RunGates(repo: string, names: seq<string>, retries: int, o: Oracle, ghost rest: seq<Step>) returns (goesOn: bool)
      modifies this
      ensures PassSteps(repo, Gates(names) + rest, retries, resume, old(records), o, old(clock))
        == if goesOn then PassSteps(repo, rest, retries, resume, records, o, clock) else Pass(records, clock, false)
    {
      assert names[0..] == names;
      for j := 0 to |names|
        invariant PassSteps(repo, Gates(names) + rest, retries, resume, old(records), o, old(clock))
               == PassSteps(repo, Gates(names[j..]) + rest, retries, resume, records, o, clock)
      {
        GatesFrom(names, j, rest);
        var on := RunStep(repo, Gate(names[j]), retries, o);
        if !on {
          return false;
        }
      }
      assert Gates(names[|names|..]) + rest == rest;
      return true;
    }

    method RunPipeline(name: string, repo: Repo, o: Oracle) returns (goesOn: bool)
      modifies this
      ensures Pass(records, clock, goesOn)
           == PassSteps(name, StepsOf(repo), repo.retries, resume, old(records), o, old(clock))
    {
      var pipeline := PipelineFor(repo);
      ghost var order := GateOrder(repo.gates);
      assert pipeline[0..] == pipeline;
      for i := 0 to |pipeline|
        invariant PassSteps(name, StepsOf(repo), repo.retries, resume, old(records), o, old(clock))
               == PassSteps(name, Flatten(pipeline[i..], order), repo.retries, resume, records, o, clock)
      {
        ghost var rest := Flatten(pipeline[i + 1..], order);
        FlattenFrom(pipeline, order, i);
        var on;
        if pipeline[i] == "test" {
          if repo.gates != map[] {
            var names := SortedGateNames(repo.gates);
            SortedIsUnique(names, order);
            NoElements(order);
            on := RunGates(name, names, repo.retries, o, rest);
          } else {
            NoElements(order);
            on := RunStep(name, Placeholder, repo.retries, o);
          }
        } else if pipeline[i] == "review" {
          on := RunStep(name, Review, repo.retries, o);
        } else {
          on := RunStep(name, Agent(pipeline[i]), repo.retries, o);
        }
        if !on {
          return false;
        }
      }
      return true;
    }

    method RunStage(repos: seq<string>, o: Oracle) returns (ok: bool)
      modifies this
      ensures Pass(records, clock, ok) == PassStage(cfg, repos, resume, old(records), o, old(clock))
    {
      assert repos[0..] == repos;
      for i := 0 to |repos|
        invariant PassStage(cfg, repos, resume, old(records), o, old(clock))
               == PassStage(cfg, repos[i..], resume, records, o, clock)
      {
        assert repos[i..][1..] == repos[i + 1..];
        var ready := o(clock).ready;
        clock := clock + 1;
        if repos[i] !in cfg || !ready {
          return false;
        }
        var on := RunPipeline(repos[i], cfg[repos[i]], o);
        if !on {
          return false;
        }
      }
      return true;
    }
  }
}
