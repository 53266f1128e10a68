/** The lifecycle of runs, bullets and intents with every handler as one step. */
module Lifecycle {
  import opened Wrappers
  import opened Records

  datatype Tables = Tables(runs: map<string, Run>, intents: map<string, IntentStatus>, bullets: seq<Bullet>)

  const EMPTY_TABLES := Tables(map[], map[], [])

  // ---- the store's operations on the tables

  function IntentSet(t: Tables, intent: string, status: IntentStatus): Tables {
    if intent in t.intents then t.(intents := t.intents[intent := status]) else t
  }

  function Recomputed(t: Tables, intent: string): Tables {
    IntentSet(t, intent, DeriveIntentStatus(BulletsOf(t.bullets, intent)))
  }

  function Swept(bullets: seq<Bullet>, intent: string, status: BulletStatus, reason: string): seq<Bullet> {
    seq(|bullets|, i requires 0 <= i < |bullets| =>
      if bullets[i].id.intent == intent then bullets[i].(status := status, reason := reason) else bullets[i])
  }

  function Advanced(t: Tables, run: string, status: BulletStatus, reason: string): Tables {
    if run !in t.runs || t.runs[run].intent == "" then t
    else
      var intent := t.runs[run].intent;
      Recomputed(t.(bullets := Swept(t.bullets, intent, status, reason)), intent)
  }

  function RunSet(t: Tables, run: string, status: RunStatus): Tables {
    if run in t.runs then t.(runs := t.runs[run := t.runs[run].(status := status)]) else t
  }

  /** A terminal status with the reason its caller gives; only "failed" carries one. */
  function Outcome(t: Tables, run: string, status: RunStatus, reason: string): Tables {
    var t' := RunSet(t, run, status);
    match BulletStatusForRunOutcome(status)
    case None => t'
    case Some(to) => Advanced(t', run, to, if to == Blocked then reason else "")
  }

  function SealedFor(t: Tables, run: string, repo: string): Tables {
    if run !in t.runs || t.runs[run].intent == "" then t else
    match FirstOfRepo(BulletsOf(t.bullets, t.runs[run].intent), repo)
    case None => t
    case Some(b) => if b.status == Green then t.(bullets := WithStatus(t.bullets, b.id, Sealed)) else t
  }

  /** What asking the provider about one bullet's change request came to. */
  datatype Merge = Unknown | Open | MergedInto(branch: string)

  /** One bullet checked: a green one without a URL is first looked up by its branch and
      sealed; then a merge into the run's base makes it merged and any other blocks it. */
  function Checked(bullets: seq<Bullet>, b: Bullet, base: string, found: string, merge: Merge): seq<Bullet> {
    var looked := b.status == Green && b.url == "";
    if !looked && !(b.status == Sealed && b.url != "") then bullets
    else if looked && found == "" then bullets
    else
      var linked := if looked then WithReason(WithURL(bullets, b.id, found), b.id, Sealed, "") else bullets;
      match merge
      case Unknown => linked
      case Open => linked
      case MergedInto(branch) =>
        if branch == base then WithReason(linked, b.id, Merged, "")
        else WithReason(linked, b.id, Blocked, MismatchReason(branch, base))
  }

  function MismatchReason(actual: string, expected: string): string {
    "change request merged into \"" + actual + "\", expected \"" + expected + "\""
  }

  function NewBullets(intent: string, repos: seq<string>, status: BulletStatus): seq<Bullet> {
    seq(|repos|, i requires 0 <= i < |repos| => Bullet(BulletID(intent, i + 1), repos[i], status, "", ""))
  }

  /** Every blocked bullet of a targeted repo goes back to pending, without its reason. */
  function Cleared(bullets: seq<Bullet>, intent: string, targeted: set<string>): seq<Bullet> {
    seq(|bullets|, i requires 0 <= i < |bullets| =>
      if bullets[i].id.intent == intent && bullets[i].status == Blocked && bullets[i].repo in targeted
      then bullets[i].(status := BulletPending, reason := "") else bullets[i])
  }

  // ---- the handlers, each as one step

  datatype Step =
    | Dispatch(run: string, repos: seq<string>, base: string)
    | DispatchBare(run: string)
    | Propose(intent: string, repos: seq<string>)
    | Approve(intent: string, run: string)
    | Reject(intent: string)
    | Conclude(run: string, status: RunStatus, reason: string)
    | Cancel(run: string)
    | Resume(run: string, targeted: set<string>)
    | Fix(run: string)
    | Seal(run: string, repo: string, url: string)
    | Check(run: string, found: BulletID -> string, merges: BulletID -> Merge)
    | Delete(run: string)

  function CheckAll(bullets: seq<Bullet>, todo: seq<Bullet>, base: string,
                    found: BulletID -> string, merges: BulletID -> Merge): seq<Bullet>
    decreases |todo|
  {
    if todo == [] then bullets
    else CheckAll(Checked(bullets, todo[0], base, found(todo[0].id), merges(todo[0].id)), todo[1..], base, found, merges)
  }

  /** A step a handler refuses leaves the tables as they are. Fresh ids are new. */
  function Next(t: Tables, step: Step): Tables {
    match step
    case Dispatch(run, repos, base) =>
      var intent := run + "-intent";
      if run in t.runs || intent in t.intents then t
      else Tables(t.runs[run := Run(intent, Running, base)], t.intents[intent := InProgress],
                  t.bullets + NewBullets(intent, repos, BulletPending))
    case DispatchBare(run) =>
      if run in t.runs then t else t.(runs := t.runs[run := Run("", Running, "")])
    case Propose(intent, repos) =>
      if intent in t.intents || intent == "" then t
      else t.(intents := t.intents[intent := PlanProposed], bullets := t.bullets + NewBullets(intent, repos, BulletProposed))
    case Approve(intent, run) =>
      if intent !in t.intents || t.intents[intent] != PlanProposed || run in t.runs then t
      else Tables(t.runs[run := Run(intent, Running, "")], t.intents[intent := InProgress],
                  Approved(t.bullets, intent))
    case Reject(intent) =>
      if intent in t.intents && t.intents[intent] == PlanProposed then IntentSet(t, intent, Abandoned) else t
    case Conclude(run, status, reason) =>
      if status == Running || (status == Failed && reason == "") then t else Outcome(t, run, status, reason)
    case Cancel(run) => Outcome(t, run, Cancelled, "")
    case Resume(run, targeted) =>
      if run !in t.runs || !IsResumable(t.runs[run].status) then t
      else
        var intent := t.runs[run].intent;
        RunSet(if intent == "" then t else t.(bullets := Cleared(t.bullets, intent, targeted)), run, Running)
    case Fix(run) => if run in t.runs && IsResumable(t.runs[run].status) then RunSet(t, run, Running) else t
    case Seal(run, repo, url) => Linked(SealedFor(t, run, repo), t, run, repo, url)
    case Check(run, found, merges) =>
      if run !in t.runs || t.runs[run].intent == "" then t
      else t.(bullets := CheckAll(t.bullets, BulletsOf(t.bullets, t.runs[run].intent), t.runs[run].base, found, merges))
    case Delete(run) => t.(runs := t.runs - {run})
  }

  function Approved(bullets: seq<Bullet>, intent: string): seq<Bullet> {
    seq(|bullets|, i requires 0 <= i < |bullets| =>
      if bullets[i].id.intent == intent then bullets[i].(status := BulletPending) else bullets[i])
  }

  /** After a seal, the URL of the change request opened for it, "" when none was. */
  function Linked(sealed: Tables, t: Tables, run: string, repo: string, url: string): Tables {
    if sealed == t || url == "" || run !in sealed.runs then sealed else
    match FirstOfRepo(BulletsOf(sealed.bullets, sealed.runs[run].intent), repo)
    case None => sealed
    case Some(b) => sealed.(bullets := WithURL(sealed.bullets, b.id, url))
  }

  function RunAll(steps: seq<Step>): Tables {
    if steps == [] then EMPTY_TABLES else Next(RunAll(steps[..|steps| - 1]), steps[|steps| - 1])
  }

  // ---- what each handler leaves, row by row

  /** A check of the run's bullets, over the rows alone. Those of its intent that were sealed
      with a URL, or green without one and found, follow the provider: merged into the run's
      base, blocked when merged elsewhere, sealed while it is open or unknown. */
  ghost predicate ChecksOut(b: Bullet, b': Bullet, run: Run, found: string, merge: Merge) {
    if b.id.intent == run.intent && ((b.status == Sealed && b.url != "") || (b.status == Green && b.url == "" && found != "")) then
      && b'.id == b.id && b'.repo == b.repo && b'.url == (if b.url != "" then b.url else found)
      && (merge == MergedInto(run.base) <==> b'.status == Merged)
      && (merge.MergedInto? && merge.branch != run.base <==> b'.status == Blocked)
      && (!merge.MergedInto? <==> b'.status == Sealed)
      && (b'.status == Merged ==> b'.reason == "")
      && (b'.status == Blocked ==> b'.reason == MismatchReason(merge.branch, run.base))
      && (b'.status == Sealed ==> b'.reason == if b.status == Sealed then b.reason else "")
    else b' == b
  }

  /** What a check does to the one bullet it is about. */
  function CheckedOne(b: Bullet, base: string, found: string, merge: Merge): Bullet {
    Checked([b], b, base, found, merge)[0]
  }

  lemma CheckedAt(bullets: seq<Bullet>, b: Bullet, base: string, found: string, merge: Merge, i: nat)
    requires i < |bullets|
    ensures |Checked(bullets, b, base, found, merge)| == |bullets|
    ensures bullets[i].id != b.id ==> Checked(bullets, b, base, found, merge)[i] == bullets[i]
    ensures bullets[i] == b ==> Checked(bullets, b, base, found, merge)[i] == CheckedOne(b, base, found, merge)
    ensures Checked(bullets, b, base, found, merge)[i].id == bullets[i].id
  {
  }

  lemma {:induction false} CheckAllAt(bullets: seq<Bullet>, todo: seq<Bullet>, base: string,
                                      found: BulletID -> string, merges: BulletID -> Merge, i: nat)
    requires i < |bullets| && DistinctIDs(todo)
    requires forall k :: 0 <= k < |todo| && todo[k].id == bullets[i].id ==> todo[k] == bullets[i]
    ensures var after := CheckAll(bullets, todo, base, found, merges);
      && |after| == |bullets|
      && after[i] == if bullets[i] in todo then CheckedOne(bullets[i], base, found(bullets[i].id), merges(bullets[i].id))
                     else bullets[i]
    decreases |todo|
  {
    if todo != [] {
      var b, rest := todo[0], todo[1..];
      var next := Checked(bullets, b, base, found(b.id), merges(b.id));
      CheckedAt(bullets, b, base, found(b.id), merges(b.id), i);
      assert forall k :: 0 <= k < |rest| ==> rest[k] == todo[k + 1];
      assert todo == [b] + rest;
      if b.id == bullets[i].id {
        forall k | 0 <= k < |rest| ensures rest[k].id != next[i].id {
          assert todo[k + 1].id != todo[0].id;
        }
        CheckAllAt(next, rest, base, found, merges, i);
      } else {
        CheckAllAt(next, rest, base, found, merges, i);
      }
    }
  }

  lemma ChecksOne(bullets: seq<Bullet>, run: Run, found: BulletID -> string, merges: BulletID -> Merge, i: nat)
    requires DistinctIDs(bullets) && i < |bullets|
    ensures var after := CheckAll(bullets, BulletsOf(bullets, run.intent), run.base, found, merges);
      |after| == |bullets| && ChecksOut(bullets[i], after[i], run, found(bullets[i].id), merges(bullets[i].id))
  {
    var mine := BulletsOf(bullets, run.intent);
    BulletsOfMeans(bullets, run.intent);
    BulletsOfDistinct(bullets, run.intent);
    forall k | 0 <= k < |mine| && mine[k].id == bullets[i].id ensures mine[k] == bullets[i] {
      assert mine[k] in mine && mine[k] in bullets;
    }
    CheckAllAt(bullets, mine, run.base, found, merges, i);
    OneChecksOut(bullets[i], run, found(bullets[i].id), merges(bullets[i].id));
  }

  lemma OneChecksOut(b: Bullet, run: Run, found: string, merge: Merge)
    ensures ChecksOut(b, if b.id.intent == run.intent then CheckedOne(b, run.base, found, merge) else b, run, found, merge)
  {
  }

  /** A check of a run leaves each of its bullets as the provider says, and nothing else moves. */
  lemma CheckMeans(t: Tables, run: string, found: BulletID -> string, merges: BulletID -> Merge)
    requires DistinctIDs(t.bullets)
    ensures var t' := Next(t, Check(run, found, merges));
      && t'.runs == t.runs && t'.intents == t.intents && |t'.bullets| == |t.bullets|
      && forall i :: 0 <= i < |t.bullets| ==>
        if run in t.runs && t.runs[run].intent != ""
        then ChecksOut(t.bullets[i], t'.bullets[i], t.runs[run], found(t.bullets[i].id), merges(t.bullets[i].id))
        else t'.bullets[i] == t.bullets[i]
  {
    if run in t.runs && t.runs[run].intent != "" {
      CheckAllLength(t.bullets, BulletsOf(t.bullets, t.runs[run].intent), t.runs[run].base, found, merges);
      forall i: nat | i < |t.bullets|
        ensures var after := CheckAll(t.bullets, BulletsOf(t.bullets, t.runs[run].intent), t.runs[run].base, found, merges);
          |after| == |t.bullets|
          && ChecksOut(t.bullets[i], after[i], t.runs[run], found(t.bullets[i].id), merges(t.bullets[i].id))
      {
        ChecksOne(t.bullets, t.runs[run], found, merges, i);
      }
    }
  }

  lemma {:induction false} CheckAllLength(bullets: seq<Bullet>, todo: seq<Bullet>, base: string,
                                          found: BulletID -> string, merges: BulletID -> Merge)
    ensures |CheckAll(bullets, todo, base, found, merges)| == |bullets|
    decreases |todo|
  {
    if todo != [] {
      CheckAllLength(Checked(bullets, todo[0], base, found(todo[0].id), merges(todo[0].id)), todo[1..], base, found, merges);
    }
  }

  /** A run outcome: its row takes the status; a pass turns every bullet of its intent green, a
      failure blocks them with the reason, a cancel makes them pending, any other leaves them;
      and the intent, when its bullets moved, reads in progress. */
  lemma OutcomeMeans(t: Tables, run: string, status: RunStatus, reason: string)
    ensures var t' := Outcome(t, run, status, reason);
      if run !in t.runs then t' == t
      else
        var intent := t.runs[run].intent;
        && t'.runs == t.runs[run := t.runs[run].(status := status)]
        && |t'.bullets| == |t.bullets|
        && (forall i :: 0 <= i < |t.bullets| ==>
          t'.bullets[i] ==
            if intent == "" || t.bullets[i].id.intent != intent then t.bullets[i]
            else if status == Passed then t.bullets[i].(status := Green, reason := "")
            else if status == Failed then t.bullets[i].(status := Blocked, reason := reason)
            else if status == Cancelled then t.bullets[i].(status := BulletPending, reason := "")
            else t.bullets[i])
        && t'.intents == if intent in t.intents && intent != "" && status in {Passed, Failed, Cancelled}
                         then t.intents[intent := InProgress] else t.intents
  {
    var to := BulletStatusForRunOutcome(status);
    OutcomesMean(status);
    if run in t.runs && to.Some? {
      SweptIsNotMerged(t.bullets, t.runs[run].intent, to.value, if to.value == Blocked then reason else "");
    }
  }

  lemma SweptDerives(bullets: seq<Bullet>, intent: string, status: BulletStatus, reason: string)
    ensures DeriveIntentStatus(BulletsOf(Swept(bullets, intent, status, reason), intent)) ==
      if status == Merged && (exists i :: 0 <= i < |bullets| && bullets[i].id.intent == intent) then Satisfied else InProgress
  {
    var swept := Swept(bullets, intent, status, reason);
    var mine := BulletsOf(swept, intent);
    BulletsOfMeans(swept, intent);
    DeriveMeans(mine);
    assert forall i :: 0 <= i < |mine| ==> mine[i] in mine && mine[i].status == status;
    if i :| 0 <= i < |bullets| && bullets[i].id.intent == intent {
      assert swept[i] in swept && swept[i] in mine;
    }
    if mine != [] {
      assert mine[0] in mine && mine[0] in swept;
    }
  }

  /** Advancing a run's bullets to any status, and deriving its intent from them. */
  lemma AdvancedMeans(t: Tables, run: string, status: BulletStatus, reason: string)
    ensures var t' := Advanced(t, run, status, reason);
      && t'.runs == t.runs && |t'.bullets| == |t.bullets|
      && if run !in t.runs || t.runs[run].intent == "" then t' == t
         else
           var intent := t.runs[run].intent;
           && (forall i :: 0 <= i < |t.bullets| ==>
             t'.bullets[i] == if t.bullets[i].id.intent == intent then t.bullets[i].(status := status, reason := reason)
                              else t.bullets[i])
           && t'.intents == if intent !in t.intents then t.intents
                            else t.intents[intent := if status == Merged && (exists i :: 0 <= i < |t.bullets| && t.bullets[i].id.intent == intent)
                                                     then Satisfied else InProgress]
  {
    if run in t.runs {
      SweptDerives(t.bullets, t.runs[run].intent, status, reason);
    }
  }

  /** The bullet a seal is about: the first of the repo under the run's intent. */
  ghost predicate FirstForRepo(bullets: seq<Bullet>, intent: string, repo: string, i: int) {
    && 0 <= i < |bullets| && bullets[i].id.intent == intent && bullets[i].repo == repo
    && forall k :: 0 <= k < i && bullets[k].id.intent == intent ==> bullets[k].repo != repo
  }

  lemma {:induction false} FirstIs(bullets: seq<Bullet>, intent: string, repo: string)
    ensures var b := FirstOfRepo(BulletsOf(bullets, intent), repo);
      && (forall i :: FirstForRepo(bullets, intent, repo, i) ==> b == Some(bullets[i]))
      && (b.Some? ==> exists i :: FirstForRepo(bullets, intent, repo, i))
  {
    if bullets != [] {
      var rest := bullets[1..];
      FirstIs(rest, intent, repo);
      assert forall i :: 0 < i < |bullets| ==> bullets[i] == rest[i - 1];
      if bullets[0].id.intent == intent && bullets[0].repo == repo {
        assert FirstForRepo(bullets, intent, repo, 0);
      } else {
        forall i | FirstForRepo(bullets, intent, repo, i) ensures FirstForRepo(rest, intent, repo, i - 1) {
          assert forall k :: 0 <= k < |rest| ==> rest[k] == bullets[k + 1];
        }
        if j :| FirstForRepo(rest, intent, repo, j) {
          assert FirstForRepo(bullets, intent, repo, j + 1);
        }
      }
      var tail := BulletsOf(rest, intent);
      assert ([bullets[0]] + tail)[1..] == tail && [] + tail == tail;
    }
  }

  /** A seal moves that bullet from green to sealed and nothing else; without one, or when it
      is not green, nothing moves. */
  lemma SealedForMeans(t: Tables, run: string, repo: string)
    requires DistinctIDs(t.bullets)
    ensures var t' := SealedFor(t, run, repo);
      && t'.runs == t.runs && t'.intents == t.intents && |t'.bullets| == |t.bullets|
      && forall i :: 0 <= i < |t.bullets| ==>
        t'.bullets[i] ==
          if run in t.runs && t.runs[run].intent != "" && FirstForRepo(t.bullets, t.runs[run].intent, repo, i)
             && t.bullets[i].status == Green
          then t.bullets[i].(status := Sealed) else t.bullets[i]
  {
    if run in t.runs && t.runs[run].intent != "" {
      FirstIs(t.bullets, t.runs[run].intent, repo);
    }
  }

  /** After it, the URL of the change request goes to that same bullet. */
  lemma SealMeans(t: Tables, run: string, repo: string, url: string)
    requires DistinctIDs(t.bullets)
    ensures var t' := Next(t, Seal(run, repo, url));
      && t'.runs == t.runs && t'.intents == t.intents && |t'.bullets| == |t.bullets|
      && forall i :: 0 <= i < |t.bullets| ==>
        t'.bullets[i] ==
          if run in t.runs && t.runs[run].intent != "" && FirstForRepo(t.bullets, t.runs[run].intent, repo, i)
             && t.bullets[i].status == Green
          then t.bullets[i].(status := Sealed, url := if url == "" then t.bullets[i].url else url) else t.bullets[i]
  {
    SealedForMeans(t, run, repo);
    var sealed := SealedFor(t, run, repo);
    if run in t.runs && t.runs[run].intent != "" && sealed != t {
      var intent := t.runs[run].intent;
      FirstIs(sealed.bullets, intent, repo);
      forall i ensures FirstForRepo(sealed.bullets, intent, repo, i) <==> FirstForRepo(t.bullets, intent, repo, i) {
        SameFirst(t.bullets, sealed.bullets, intent, repo, i);
        SameFirst(sealed.bullets, t.bullets, intent, repo, i);
      }
    }
  }

  lemma SameFirst(bullets: seq<Bullet>, bullets': seq<Bullet>, intent: string, repo: string, i: int)
    requires |bullets| == |bullets'|
    requires forall k :: 0 <= k < |bullets| ==> bullets'[k].id == bullets[k].id && bullets'[k].repo == bullets[k].repo
    ensures FirstForRepo(bullets, intent, repo, i) ==> FirstForRepo(bullets', intent, repo, i)
  {
  }

  /** A resume is for a run that neither runs nor passed: its row runs again, and the blocked
      bullets of the targeted repos under its intent are pending without a reason. */
  lemma ResumeMeans(t: Tables, run: string, targeted: set<string>)
    ensures var t' := Next(t, Resume(run, targeted));
      if run !in t.runs || t.runs[run].status in {Running, Passed} then t' == t
      else
        && t'.runs == t.runs[run := t.runs[run].(status := Running)] && t'.intents == t.intents
        && |t'.bullets| == |t.bullets|
        && forall i :: 0 <= i < |t.bullets| ==>
          t'.bullets[i] ==
            if t.runs[run].intent != "" && t.bullets[i].id.intent == t.runs[run].intent
               && t.bullets[i].status == Blocked && t.bullets[i].repo in targeted
            then t.bullets[i].(status := BulletPending, reason := "") else t.bullets[i]
  {
    if run in t.runs {
      OutcomesMean(t.runs[run].status);
    }
  }

  /** Approving a proposed plan starts one run for it, puts it in progress and releases every
      bullet of it; rejecting one only abandons it; and neither does anything to any other. */
  lemma PlansMean(t: Tables, intent: string, run: string)
    requires run !in t.runs
    ensures var t' := Next(t, Approve(intent, run));
      if intent in t.intents && t.intents[intent] == PlanProposed then
        && t'.runs == t.runs[run := Run(intent, Running, "")] && t'.intents == t.intents[intent := InProgress]
        && |t'.bullets| == |t.bullets|
        && forall i :: 0 <= i < |t.bullets| ==>
          t'.bullets[i] == if t.bullets[i].id.intent == intent then t.bullets[i].(status := BulletPending) else t.bullets[i]
      else t' == t
    ensures Next(t, Reject(intent)) ==
      if intent in t.intents && t.intents[intent] == PlanProposed then t.(intents := t.intents[intent := Abandoned]) else t
  {
  }

  /** `more` are these repos' bullets, numbered from one in order. */
  ghost predicate OnePerRepo(more: seq<Bullet>, intent: string, repos: seq<string>, status: BulletStatus) {
    |more| == |repos| && forall i :: 0 <= i < |repos| ==> more[i] == Bullet(BulletID(intent, i + 1), repos[i], status, "", "")
  }

  /** A dispatch opens an intent in progress with a run and a pending bullet for each repo. */
  lemma DispatchMeans(t: Tables, run: string, repos: seq<string>, base: string)
    ensures var t', intent := Next(t, Dispatch(run, repos, base)), run + "-intent";
      if run in t.runs || intent in t.intents then t' == t
      else
        && t'.runs == t.runs[run := Run(intent, Running, base)] && t'.intents == t.intents[intent := InProgress]
        && t.bullets <= t'.bullets && OnePerRepo(t'.bullets[|t.bullets|..], intent, repos, BulletPending)
  {
    assert (t.bullets + NewBullets(run + "-intent", repos, BulletPending))[|t.bullets|..] == NewBullets(run + "-intent", repos, BulletPending);
  }

  /** A proposal opens one that is only proposed, with proposed bullets and no run. */
  lemma ProposeMeans(t: Tables, intent: string, repos: seq<string>)
    ensures var t' := Next(t, Propose(intent, repos));
      if intent in t.intents || intent == "" then t' == t
      else
        && t'.runs == t.runs && t'.intents == t.intents[intent := PlanProposed]
        && t.bullets <= t'.bullets && OnePerRepo(t'.bullets[|t.bullets|..], intent, repos, BulletProposed)
  {
    assert (t.bullets + NewBullets(intent, repos, BulletProposed))[|t.bullets|..] == NewBullets(intent, repos, BulletProposed);
  }

  /** The steps that touch a run's row alone, and the outcomes a run may be given. */
  lemma RunsMean(t: Tables, run: string, status: RunStatus, reason: string)
    ensures Next(t, DispatchBare(run)) == if run in t.runs then t else t.(runs := t.runs[run := Run("", Running, "")])
    ensures Next(t, Fix(run)) ==
      if run in t.runs && t.runs[run].status !in {Running, Passed}
      then t.(runs := t.runs[run := t.runs[run].(status := Running)]) else t
    ensures Next(t, Delete(run)) == t.(runs := t.runs - {run})
    ensures Next(t, Cancel(run)) == Outcome(t, run, Cancelled, "")
    ensures status != Running && (status == Failed ==> reason != "") ==>
      Next(t, Conclude(run, status, reason)) == Outcome(t, run, status, reason)
  {
    if run in t.runs {
      OutcomesMean(t.runs[run].status);
    }
  }

  // ---- what every reachable state keeps

  predicate ReasonFits(b: Bullet) {
    b.reason != "" <==> b.status == Blocked
  }

  /** An intent whose plan was not approved: nothing names it, nothing of it has moved. */
  ghost predicate Untouched(t: Tables, intent: string) {
    && (forall run :: run in t.runs ==> t.runs[run].intent != intent)
    && (forall i :: 0 <= i < |t.bullets| && t.bullets[i].id.intent == intent ==> t.bullets[i].status == BulletProposed)
  }

  ghost predicate Inv(t: Tables) {
    && "" !in t.intents && DistinctIDs(t.bullets)
    && (forall i :: 0 <= i < |t.bullets| ==> ReasonFits(t.bullets[i]) && t.bullets[i].id.intent in t.intents)
    && (forall run :: run in t.runs && t.runs[run].intent != "" ==> t.runs[run].intent in t.intents)
    && (forall intent :: intent in t.intents && t.intents[intent] in {PlanProposed, Abandoned} ==> Untouched(t, intent))
    && (forall intent :: intent in t.intents ==> t.intents[intent] != Satisfied)
  }

  // ---- bullets that move stay within one intent

  ghost predicate MovesWithin(bullets: seq<Bullet>, bullets': seq<Bullet>, intent: string) {
    && |bullets'| == |bullets|
    && forall i :: 0 <= i < |bullets| ==>
      && bullets'[i].id == bullets[i].id
      && (bullets[i].id.intent != intent ==> bullets'[i] == bullets[i])
      && (ReasonFits(bullets[i]) ==> ReasonFits(bullets'[i]))
  }

  /** Moving the bullets of an intent a run names keeps the invariant. */
  lemma MovingKeeps(t: Tables, bullets': seq<Bullet>, run: string)
    requires Inv(t) && run in t.runs && t.runs[run].intent != ""
    requires MovesWithin(t.bullets, bullets', t.runs[run].intent)
    ensures Inv(t.(bullets := bullets'))
  {
    var t' := t.(bullets := bullets');
    forall intent | intent in t'.intents && t'.intents[intent] in {PlanProposed, Abandoned}
      ensures Untouched(t', intent)
    {
      assert Untouched(t, intent);
    }
  }

  lemma RunSetKeeps(t: Tables, run: string, status: RunStatus)
    requires Inv(t)
    ensures Inv(RunSet(t, run, status))
  {
    RunRowKeeps(t, RunSet(t, run, status));
  }

  /** Sweeping an intent a run names and deriving it again: it reads in progress. */
  lemma AdvancedKeeps(t: Tables, run: string, status: BulletStatus, reason: string)
    requires Inv(t) && status != Merged && (reason != "" <==> status == Blocked)
    ensures Inv(Advanced(t, run, status, reason))
  {
    if run in t.runs && t.runs[run].intent != "" {
      var intent := t.runs[run].intent;
      var t' := t.(bullets := Swept(t.bullets, intent, status, reason));
      MovingKeeps(t, t'.bullets, run);
      SweptIsNotMerged(t.bullets, intent, status, reason);
      InProgressKeeps(t', intent, run);
    }
  }

  lemma InProgressKeeps(t: Tables, intent: string, run: string)
    requires Inv(t) && run in t.runs && t.runs[run].intent == intent != ""
    ensures Inv(IntentSet(t, intent, InProgress))
  {
    var t' := IntentSet(t, intent, InProgress);
    forall other | other in t'.intents && t'.intents[other] in {PlanProposed, Abandoned} ensures Untouched(t', other) {
      assert Untouched(t, other);
    }
  }

  lemma OutcomeKeeps(t: Tables, run: string, status: RunStatus, reason: string)
    requires Inv(t) && (status == Failed ==> reason != "")
    ensures Inv(Outcome(t, run, status, reason))
  {
    RunSetKeeps(t, run, status);
    var to := BulletStatusForRunOutcome(status);
    if to.Some? {
      AdvancedKeeps(RunSet(t, run, status), run, to.value, if to.value == Blocked then reason else "");
    }
  }

  /** After a sweep every bullet of the intent has the same, unmerged, status. */
  lemma SweptIsNotMerged(bullets: seq<Bullet>, intent: string, status: BulletStatus, reason: string)
    requires status != Merged
    ensures DeriveIntentStatus(BulletsOf(Swept(bullets, intent, status, reason), intent)) == InProgress
  {
    var mine := BulletsOf(Swept(bullets, intent, status, reason), intent);
    BulletsOfMeans(Swept(bullets, intent, status, reason), intent);
    if mine != [] {
      assert mine[0] in mine;
      assert mine[0].status == status;
    }
  }

  lemma CheckedMoves(bullets: seq<Bullet>, b: Bullet, base: string, found: string, merge: Merge)
    ensures MovesWithin(bullets, Checked(bullets, b, base, found, merge), b.id.intent)
  {
  }

  lemma {:induction false} CheckAllMoves(bullets: seq<Bullet>, todo: seq<Bullet>, base: string,
                                         found: BulletID -> string, merges: BulletID -> Merge, intent: string)
    requires forall b :: b in todo ==> b.id.intent == intent
    ensures MovesWithin(bullets, CheckAll(bullets, todo, base, found, merges), intent)
    decreases |todo|
  {
    if todo != [] {
      assert todo[0] in todo;
      CheckedMoves(bullets, todo[0], base, found(todo[0].id), merges(todo[0].id));
      CheckAllMoves(Checked(bullets, todo[0], base, found(todo[0].id), merges(todo[0].id)), todo[1..], base, found, merges, intent);
    }
  }

  lemma SealedMoves(bullets: seq<Bullet>, b: Bullet)
    requires DistinctIDs(bullets) && b in bullets && b.status == Green
    ensures MovesWithin(bullets, WithStatus(bullets, b.id, Sealed), b.id.intent)
  {
  }

  lemma SealedForKeeps(t: Tables, run: string, repo: string)
    requires Inv(t)
    ensures Inv(SealedFor(t, run, repo)) && SealedFor(t, run, repo).runs == t.runs
  {
    if run in t.runs && t.runs[run].intent != "" {
      var mine := BulletsOf(t.bullets, t.runs[run].intent);
      BulletsOfMeans(t.bullets, t.runs[run].intent);
      FirstOfRepoMeans(mine, repo);
      var b := FirstOfRepo(mine, repo);
      if b.Some? && b.value.status == Green {
        SealedMoves(t.bullets, b.value);
        MovingKeeps(t, WithStatus(t.bullets, b.value.id, Sealed), run);
      }
    }
  }

  lemma LinkedKeeps(sealed: Tables, t: Tables, run: string, repo: string, url: string)
    requires Inv(sealed) && (sealed == t || (run in sealed.runs && sealed.runs[run].intent != ""))
    ensures Inv(Linked(sealed, t, run, repo, url))
  {
    if sealed != t {
      var mine := BulletsOf(sealed.bullets, sealed.runs[run].intent);
      BulletsOfMeans(sealed.bullets, sealed.runs[run].intent);
      FirstOfRepoMeans(mine, repo);
      var b := FirstOfRepo(mine, repo);
      if b.Some? {
        MovingKeeps(sealed, WithURL(sealed.bullets, b.value.id, url), run);
      }
    }
  }

  lemma SealKeeps(t: Tables, run: string, repo: string, url: string)
    requires Inv(t)
    ensures Inv(Next(t, Seal(run, repo, url)))
  {
    SealedForKeeps(t, run, repo);
    LinkedKeeps(SealedFor(t, run, repo), t, run, repo, url);
  }

  lemma NewBulletsAreDistinct(t: Tables, intent: string, repos: seq<string>, status: BulletStatus)
    requires Inv(t) && intent !in t.intents
    ensures DistinctIDs(t.bullets + NewBullets(intent, repos, status))
  {
    var bullets := t.bullets + NewBullets(intent, repos, status);
    forall i, j | 0 <= i < j < |bullets| ensures bullets[i].id != bullets[j].id {
      if i < |t.bullets| <= j {
        assert bullets[i].id.intent in t.intents;
      }
    }
  }

  lemma DispatchingKeeps(t: Tables, run: string, repos: seq<string>, base: string)
    requires Inv(t) && run !in t.runs && run + "-intent" !in t.intents
    ensures Inv(Next(t, Dispatch(run, repos, base)))
  {
    var t' := Next(t, Dispatch(run, repos, base));
    NewBulletsAreDistinct(t, run + "-intent", repos, BulletPending);
    forall other | other in t.intents && t.intents[other] in {PlanProposed, Abandoned} ensures Untouched(t', other) {
      assert Untouched(t, other);
    }
  }

  lemma ProposingKeeps(t: Tables, intent: string, repos: seq<string>)
    requires Inv(t) && intent !in t.intents && intent != ""
    ensures Inv(Next(t, Propose(intent, repos)))
  {
    var t' := Next(t, Propose(intent, repos));
    NewBulletsAreDistinct(t, intent, repos, BulletProposed);
    forall other | other in t.intents && t.intents[other] in {PlanProposed, Abandoned} ensures Untouched(t', other) {
      assert Untouched(t, other);
    }
  }

  lemma ApproveKeeps(t: Tables, intent: string, run: string)
    requires Inv(t)
    ensures Inv(Next(t, Approve(intent, run)))
  {
    if intent in t.intents && t.intents[intent] == PlanProposed && run !in t.runs {
      var t' := Next(t, Approve(intent, run));
      assert Untouched(t, intent);
      forall other | other in t'.intents && t'.intents[other] in {PlanProposed, Abandoned} ensures Untouched(t', other) {
        assert Untouched(t, other);
      }
    }
  }

  lemma RunRowKeeps(t: Tables, t': Tables)
    requires Inv(t) && t'.intents == t.intents && t'.bullets == t.bullets
    requires forall run :: run in t'.runs ==> t'.runs[run].intent == "" || (run in t.runs && t.runs[run].intent == t'.runs[run].intent)
    ensures Inv(t')
  {
    forall intent | intent in t'.intents && t'.intents[intent] in {PlanProposed, Abandoned} ensures Untouched(t', intent) {
      assert Untouched(t, intent);
    }
  }

  lemma ResumeKeeps(t: Tables, run: string, targeted: set<string>)
    requires Inv(t)
    ensures Inv(Next(t, Resume(run, targeted)))
  {
    if run in t.runs && IsResumable(t.runs[run].status) {
      var intent := t.runs[run].intent;
      if intent != "" {
        var bullets := Cleared(t.bullets, intent, targeted);
        MovingKeeps(t, bullets, run);
        RunRowKeeps(t.(bullets := bullets), Next(t, Resume(run, targeted)));
      } else {
        RunRowKeeps(t, Next(t, Resume(run, targeted)));
      }
    }
  }

  lemma CheckKeeps(t: Tables, step: Step)
    requires Inv(t) && step.Check?
    ensures Inv(Next(t, step))
  {
    if step.run in t.runs && t.runs[step.run].intent != "" {
      var run := t.runs[step.run];
      BulletsOfMeans(t.bullets, run.intent);
      CheckAllMoves(t.bullets, BulletsOf(t.bullets, run.intent), run.base, step.found, step.merges, run.intent);
      MovingKeeps(t, CheckAll(t.bullets, BulletsOf(t.bullets, run.intent), run.base, step.found, step.merges), step.run);
    }
  }

  lemma RejectKeeps(t: Tables, intent: string)
    requires Inv(t)
    ensures Inv(Next(t, Reject(intent)))
  {
    var t' := Next(t, Reject(intent));
    forall other | other in t'.intents && t'.intents[other] in {PlanProposed, Abandoned} ensures Untouched(t', other) {
      assert Untouched(t, other);
    }
  }

  lemma NextKeeps(t: Tables, step: Step)
    requires Inv(t)
    ensures Inv(Next(t, step))
  {
    match step
    case Dispatch(run, repos, base) =>
      if run !in t.runs && run + "-intent" !in t.intents {
        DispatchingKeeps(t, run, repos, base);
      }
    case DispatchBare(run) => RunRowKeeps(t, Next(t, step));
    case Propose(intent, repos) =>
      if intent !in t.intents && intent != "" {
        ProposingKeeps(t, intent, repos);
      }
    case Approve(intent, run) => ApproveKeeps(t, intent, run);
    case Reject(intent) => RejectKeeps(t, intent);
    case Conclude(run, status, reason) => if status != Failed || reason != "" { OutcomeKeeps(t, run, status, reason); }
    case Cancel(run) => OutcomeKeeps(t, run, Cancelled, "");
    case Resume(run, targeted) => ResumeKeeps(t, run, targeted);
    case Fix(run) => RunRowKeeps(t, Next(t, step));
    case Seal(run, repo, url) => SealKeeps(t, run, repo, url);
    case Check(run, found, merges) => CheckKeeps(t, step);
    case Delete(run) => RunRowKeeps(t, Next(t, step));
  }

  lemma {:induction false} RunKeeps(steps: seq<Step>)
    ensures Inv(RunAll(steps))
  {
    if steps != [] {
      RunKeeps(steps[..|steps| - 1]);
      NextKeeps(RunAll(steps[..|steps| - 1]), steps[|steps| - 1]);
    }
  }

  // ---- the theorems

  /** A bullet has a blocked reason exactly when it is blocked, after any handlers. */
  lemma BlockedMeansReason(steps: seq<Step>, b: Bullet)
    requires b in RunAll(steps).bullets
    ensures b.reason != "" <==> b.status == Blocked
  {
    RunKeeps(steps);
  }

  /** A plan that is still proposed, or was rejected, has no run and none of its bullets has
      moved: no work of it ever began. */
  lemma UnapprovedPlansAreInert(steps: seq<Step>, intent: string)
    requires intent in RunAll(steps).intents && RunAll(steps).intents[intent] in {PlanProposed, Abandoned}
    ensures forall run :: run in RunAll(steps).runs ==> RunAll(steps).runs[run].intent != intent
    ensures forall b :: b in RunAll(steps).bullets && b.id.intent == intent ==> b.status == BulletProposed && b.reason == ""
  {
    RunKeeps(steps);
    assert Untouched(RunAll(steps), intent);
  }

  lemma AbandonedKeeps(t: Tables, step: Step, intent: string)
    requires Inv(t) && intent in t.intents && t.intents[intent] == Abandoned
    ensures var t' := Next(t, step); intent in t'.intents && t'.intents[intent] == Abandoned
  {
    assert Untouched(t, intent);
  }

  /** A rejection is for good: no later handler moves the intent. */
  lemma {:induction false} AbandonedStays(steps: seq<Step>, more: seq<Step>, intent: string)
    requires intent in RunAll(steps).intents && RunAll(steps).intents[intent] == Abandoned
    ensures intent in RunAll(steps + more).intents && RunAll(steps + more).intents[intent] == Abandoned
  {
    if more == [] {
      assert steps + more == steps;
    } else {
      var before, last := more[..|more| - 1], more[|more| - 1];
      AbandonedStays(steps, before, intent);
      assert (steps + more)[..|steps + more| - 1] == steps + before;
      RunKeeps(steps + before);
      AbandonedKeeps(RunAll(steps + before), last, intent);
    }
  }

  /** With every handler as one step no intent ever reads satisfied: each outcome rewrites
      every bullet of the intent before it derives the status, and nothing else derives it. */
  lemma SatisfiedIsOutOfReach(steps: seq<Step>, intent: string)
    requires intent in RunAll(steps).intents
    ensures RunAll(steps).intents[intent] != Satisfied
  {
    RunKeeps(steps);
  }
}
