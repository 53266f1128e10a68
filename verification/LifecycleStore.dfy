/** The store and handler code behind the lifecycle, row by row, each proved to be the one
    step the lifecycle takes it for. */
module LifecycleStore {
  import opened Wrappers
  import opened Records
  import opened Lifecycle

  /** The id of a bullet that does not hold the status and the reason yet. */
  predicate Movable(bullets: seq<Bullet>, id: BulletID, status: BulletStatus, reason: string) {
    exists i :: 0 <= i < |bullets| && bullets[i].id == id && (bullets[i].status != status || bullets[i].reason != reason)
  }

  lemma MovableIs(bullets: seq<Bullet>, b: Bullet, status: BulletStatus, reason: string)
    requires b in bullets && (b.status != status || b.reason != reason)
    ensures Movable(bullets, b.id, status, reason)
  {
  }

  function IDsOf(bullets: seq<Bullet>): set<BulletID> {
    set i | 0 <= i < |bullets| :: bullets[i].id
  }

  lemma IDsGrow(bullets: seq<Bullet>, i: nat)
    requires i < |bullets|
    ensures IDsOf(bullets[..i + 1]) == IDsOf(bullets[..i]) + {bullets[i].id}
  {
    forall id ensures id in IDsOf(bullets[..i + 1]) <==> id in IDsOf(bullets[..i]) + {bullets[i].id} {
      if id in IDsOf(bullets[..i]) {
        var k :| 0 <= k < i && bullets[..i][k].id == id;
        assert bullets[..i + 1][k].id == id;
      }
      assert bullets[..i + 1][i].id == bullets[i].id;
      if id in IDsOf(bullets[..i + 1]) {
        var k :| 0 <= k < i + 1 && bullets[..i + 1][k].id == id;
        assert k < i ==> bullets[..i][k].id == id;
      }
    }
  }

  /** A sweep that has come past these bullets. */
  function SweptOnly(bullets: seq<Bullet>, done: set<BulletID>, status: BulletStatus, reason: string): seq<Bullet> {
    seq(|bullets|, i requires 0 <= i < |bullets| =>
      if bullets[i].id in done then bullets[i].(status := status, reason := reason) else bullets[i])
  }

  lemma SweepOne(bullets: seq<Bullet>, done: set<BulletID>, id: BulletID, status: BulletStatus, reason: string)
    ensures WithReason(SweptOnly(bullets, done, status, reason), id, status, reason)
         == SweptOnly(bullets, done + {id}, status, reason)
  {
  }

  lemma SweepSkips(bullets: seq<Bullet>, done: set<BulletID>, b: Bullet, status: BulletStatus, reason: string)
    requires DistinctIDs(bullets) && b in bullets && b.status == status && b.reason == reason
    ensures SweptOnly(bullets, done + {b.id}, status, reason) == SweptOnly(bullets, done, status, reason)
  {
  }

  lemma SweptAll(bullets: seq<Bullet>, intent: string, status: BulletStatus, reason: string)
    ensures SweptOnly(bullets, IDsOf(BulletsOf(bullets, intent)), status, reason) == Swept(bullets, intent, status, reason)
  {
    var list := BulletsOf(bullets, intent);
    BulletsOfMeans(bullets, intent);
    forall k | 0 <= k < |bullets| ensures bullets[k].id in IDsOf(list) <==> bullets[k].id.intent == intent {
      if bullets[k].id.intent == intent {
        assert bullets[k] in list;
      }
      if bullets[k].id in IDsOf(list) {
        var i :| 0 <= i < |list| && list[i].id == bullets[k].id;
        assert list[i] in list;
      }
    }
  }

  class Store {
    var runs: map<string, Run>
    var intents: map<string, IntentStatus>
    var bullets: seq<Bullet>

    constructor ()
      ensures Contents() == EMPTY_TABLES
    {
      runs, intents, bullets := map[], map[], [];
    }

    function Contents(): Tables
      reads this
    {
      Tables(runs, intents, bullets)
    }

    ghost predicate Valid()
      reads this
    {
      DistinctIDs(bullets)
    }

    /** A run that does not exist is not an error here. */
    method UpdateRunStatus(run: string, status: RunStatus)
      modifies this`runs
      ensures Contents() == RunSet(old(Contents()), run, status)
    {
      if run in runs {
        runs := runs[run := runs[run].(status := status)];
      }
    }

    method UpdateBulletStatus(id: BulletID, status: BulletStatus)
      requires Valid()
      modifies this`bullets
      ensures Valid() && bullets == WithStatus(old(bullets), id, status)
    {
      var i := 0;
      while i < |bullets|
        invariant 0 <= i <= |bullets| == |old(bullets)|
        invariant forall k :: 0 <= k < i ==> bullets[k] == WithStatus(old(bullets), id, status)[k]
        invariant forall k :: i <= k < |bullets| ==> bullets[k] == old(bullets)[k]
      {
        if bullets[i].id == id {
          bullets := bullets[i := bullets[i].(status := status)];
        }
        i := i + 1;
      }
    }

    method UpdateBulletStatusAndReason(id: BulletID, status: BulletStatus, reason: string)
      requires Valid()
      modifies this`bullets
      ensures Valid() && bullets == WithReason(old(bullets), id, status, reason)
    {
      var i := 0;
      while i < |bullets|
        invariant 0 <= i <= |bullets| == |old(bullets)|
        invariant forall k :: 0 <= k < i ==> bullets[k] == WithReason(old(bullets), id, status, reason)[k]
        invariant forall k :: i <= k < |bullets| ==> bullets[k] == old(bullets)[k]
      {
        if bullets[i].id == id {
          bullets := bullets[i := bullets[i].(status := status, reason := reason)];
        }
        i := i + 1;
      }
    }

    method RecomputeIntentStatus(intent: string)
      modifies this`intents
      ensures Contents() == Recomputed(old(Contents()), intent)
    {
      if intent !in intents {
        return;
      }
      var derived := DeriveIntentStatus(BulletsOf(bullets, intent));
      if derived == intents[intent] {
        assert intents[intent := derived] == intents;
        return;
      }
      intents := intents[intent := derived];
    }

    /** A bullet already holding the status and the reason is skipped, not rewritten. */
    method AdvanceBulletsForRun(run: string, status: BulletStatus, reason: string) returns (moved: seq<BulletID>)
      requires Valid()
      modifies this
      ensures Valid() && Contents() == Advanced(old(Contents()), run, status, reason)
      ensures forall id :: id in moved ==> Movable(old(bullets), id, status, reason)
    {
      moved := [];
      if run !in runs || runs[run].intent == "" {
        return;
      }
      moved := SweepBullets(runs[run].intent, status, reason);
      RecomputeIntentStatus(runs[run].intent);
    }

    method SweepBullets(intent: string, status: BulletStatus, reason: string) returns (moved: seq<BulletID>)
      requires Valid()
      modifies this`bullets
      ensures Valid() && bullets == Swept(old(bullets), intent, status, reason)
      ensures forall id :: id in moved ==> Movable(old(bullets), id, status, reason)
    {
      moved := [];
      var list := BulletsOf(bullets, intent);
      ghost var before := bullets;
      BulletsOfMeans(bullets, intent);
      ghost var done: set<BulletID> := {};
      assert bullets == SweptOnly(before, {}, status, reason);
      for i := 0 to |list|
        invariant Valid() && bullets == SweptOnly(before, done, status, reason)
        invariant done == IDsOf(list[..i])
        invariant forall id :: id in moved ==> Movable(before, id, status, reason)
      {
        var b := list[i];
        assert b in list;
        SweepOne(before, done, b.id, status, reason);
        if b.status != status || b.reason != reason {
          UpdateBulletStatusAndReason(b.id, status, reason);
          MovableIs(before, b, status, reason);
          moved := moved + [b.id];
        } else {
          SweepSkips(before, done, b, status, reason);
        }
        done := done + {b.id};
        IDsGrow(list, i);
      }
      assert list[..|list|] == list;
      SweptAll(before, intent, status, reason);
    }

    /** Seals the repo's bullet, and only from green; on any refusal it writes nothing. */
    method SealBulletForRun(run: string, repo: string) returns (ok: bool)
      requires Valid()
      modifies this`bullets
      ensures Valid() && Contents() == SealedFor(old(Contents()), run, repo)
      ensures !ok ==> bullets == old(bullets)
      ensures ok <==>
        && run in runs && runs[run].intent != ""
        && exists i :: FirstForRepo(old(bullets), runs[run].intent, repo, i) && old(bullets)[i].status == Green
    {
      if run !in runs || runs[run].intent == "" {
        return false;
      }
      FirstIs(bullets, runs[run].intent, repo);
      var list := BulletsOf(bullets, runs[run].intent);
      assert list[0..] == list;
      for i := 0 to |list|
        invariant FirstOfRepo(list, repo) == FirstOfRepo(list[i..], repo) && bullets == old(bullets)
      {
        assert list[i..][1..] == list[i + 1..];
        if list[i].repo != repo {
          continue;
        }
        if list[i].status != Green {
          return false;
        }
        UpdateBulletStatus(list[i].id, Sealed);
        return true;
      }
      return false;
    }

    /** The run's row first, then its bullets, then its intent. */
    method RecordTerminalRunWithReason(run: string, status: RunStatus, reason: string)
      requires Valid()
      modifies this
      ensures Valid() && Contents() == Outcome(old(Contents()), run, status, if status == Failed then reason else "")
    {
      UpdateRunStatus(run, status);
      var to := BulletStatusForRunOutcome(status);
      if to.Some? {
        var moved := AdvanceBulletsForRun(run, to.value, if to.value == Blocked then reason else "");
      }
    }

    method RecordTerminalRun(run: string, status: RunStatus, voices: seq<Voice>)
      requires Valid() && status != Running
      modifies this
      ensures Valid()
      ensures Contents() == Next(old(Contents()), Conclude(run, status, if status == Failed then ReasonFor(voices, Blocked) else ""))
    {
      var reason := "";
      var to := BulletStatusForRunOutcome(status);
      if to.Some? {
        reason := BlockedReasonForRun(voices, to.value);
      }
      RecordTerminalRunWithReason(run, status, reason);
    }

    method HandleRunResume(run: string, targeted: set<string>) returns (ok: bool)
      requires Valid()
      modifies this
      ensures Valid() && Contents() == Next(old(Contents()), Resume(run, targeted))
      ensures ok <==> run in old(runs) && IsResumable(old(runs)[run].status)
    {
      if run !in runs || !IsResumable(runs[run].status) {
        return false;
      }
      var intent := runs[run].intent;
      if intent != "" {
        ClearBlocked(intent, targeted);
      }
      UpdateRunStatus(run, Running);
      return true;
    }

    method ClearBlocked(intent: string, targeted: set<string>)
      requires Valid()
      modifies this`bullets
      ensures Valid() && bullets == Cleared(old(bullets), intent, targeted)
    {
      var list := BulletsOf(bullets, intent);
      BulletsOfMeans(bullets, intent);
      ghost var done: set<BulletID> := {};
      for i := 0 to |list|
        invariant Valid() && |bullets| == |old(bullets)|
        invariant forall k :: 0 <= k < i ==> list[k].id in done
        invariant forall k :: 0 <= k < |bullets| ==> 
          bullets[k] == (if old(bullets)[k].id in done then Cleared(old(bullets), intent, targeted)[k] else old(bullets)[k])
      {
        var b := list[i];
        assert b in list;
        if b.status == Blocked && b.repo in targeted {
          UpdateBulletStatusAndReason(b.id, BulletPending, "");
        }
        done := done + {b.id};
      }
      forall k | 0 <= k < |bullets| && old(bullets)[k].id.intent == intent ensures old(bullets)[k].id in done {
        assert old(bullets)[k] in list;
      }
    }

    method HandleApprovePlan(intent: string, run: string)
      requires Valid() && run !in runs
      modifies this
      ensures Valid() && Contents() == Next(old(Contents()), Approve(intent, run))
    {
      if intent !in intents || intents[intent] != PlanProposed {
        return;
      }
      var list := BulletsOf(bullets, intent);
      BulletsOfMeans(bullets, intent);
      intents := intents[intent := InProgress];
      ghost var done: set<BulletID> := {};
      for i := 0 to |list|
        invariant Valid() && |bullets| == |old(bullets)|
        invariant runs == old(runs) && intents == old(intents)[intent := InProgress]
        invariant forall k :: 0 <= k < i ==> list[k].id in done
        invariant forall id :: id in done ==> id.intent == intent
        invariant forall k :: 0 <= k < |bullets| ==> 
          bullets[k] == (if old(bullets)[k].id in done then old(bullets)[k].(status := BulletPending) else old(bullets)[k])
      {
        assert list[i] in list;
        UpdateBulletStatus(list[i].id, BulletPending);
        done := done + {list[i].id};
      }
      forall k | 0 <= k < |bullets| && old(bullets)[k].id.intent == intent ensures old(bullets)[k].id in done {
        assert old(bullets)[k] in list;
      }
      runs := runs[run := Run(intent, Running, "")];
    }

    /** Checks one bullet at a time, from rows listed once at the start. */
    method HandleCheckMergeStatus(run: string, found: BulletID -> string, merges: BulletID -> Merge)
      requires Valid()
      modifies this`bullets
      ensures Contents() == Next(old(Contents()), Check(run, found, merges))
      ensures |bullets| == |old(bullets)| && forall i :: 0 <= i < |bullets| ==>
        if run in runs && runs[run].intent != ""
        then ChecksOut(old(bullets)[i], bullets[i], runs[run], found(old(bullets)[i].id), merges(old(bullets)[i].id))
        else bullets[i] == old(bullets)[i]
    {
      CheckMeans(Contents(), run, found, merges);
      if run !in runs || runs[run].intent == "" {
        return;
      }
      var base := runs[run].base;
      var list := BulletsOf(bullets, runs[run].intent);
      assert list[0..] == list;
      for i := 0 to |list|
        invariant Valid()
        invariant CheckAll(old(bullets), list, base, found, merges) == CheckAll(bullets, list[i..], base, found, merges)
      {
        assert list[i..][1..] == list[i + 1..];
        var b := list[i];
        if (b.status == Sealed && b.url != "") || (b.status == Green && b.url == "") {
          CheckBulletMergeStatus(b, base, found(b.id), merges(b.id));
        }
      }
    }

    method CheckBulletMergeStatus(b: Bullet, base: string, found: string, merge: Merge)
      requires Valid() && ((b.status == Sealed && b.url != "") || (b.status == Green && b.url == ""))
      modifies this`bullets
      ensures Valid() && bullets == Checked(old(bullets), b, base, found, merge)
    {
      var url := b.url;
      if url == "" {
        if found == "" {
          return;
        }
        bullets := WithURL(bullets, b.id, found);
        UpdateBulletStatusAndReason(b.id, Sealed, "");
        url := found;
      }
      if !merge.MergedInto? {
        return;
      }
      if merge.branch == base {
        UpdateBulletStatusAndReason(b.id, Merged, "");
      } else {
        UpdateBulletStatusAndReason(b.id, Blocked, MismatchReason(merge.branch, base));
      }
    }
  }
}
