/** A handler that no other comes between does what the one-step lifecycle says of it: the
    interleaved system refines the atomic one. */
module BulletAlone {
  import opened Wrappers
  import opened Records
  import opened BulletHistory
  import L = Lifecycle
  import S = LifecycleStore

  function TablesOf(s: Sys): L.Tables {
    L.Tables(s.runs, s.intents, s.bullets)
  }

  /** One handler's steps alone, with what it is answered at each. */
  function Alone(s: Sys, id: nat, replies: seq<Reply>): Sys
    decreases |replies|
  {
    if replies == [] then s else Alone(Next(s, Go(id, replies[0])), id, replies[1..])
  }

  /** These replies take the handler to its end, and the tables to `t`. */
  ghost predicate EndsBy(s: Sys, id: nat, replies: seq<Reply>, t: L.Tables) {
    var end := Alone(s, id, replies);
    id in end.actors && end.actors[id].Done? && TablesOf(end) == t
  }

  /** Left alone, the handler can come to its end with the tables at `t`. */
  ghost predicate EndsIn(s: Sys, id: nat, t: L.Tables) {
    exists replies :: EndsBy(s, id, replies, t)
  }

  const SILENT := Reply("", None, map[])

  lemma Ended(s: Sys, id: nat)
    requires id in s.actors && s.actors[id].Done?
    ensures EndsIn(s, id, TablesOf(s))
  {
    assert EndsBy(s, id, [], TablesOf(s));
  }

  lemma OneStep(s: Sys, id: nat, reply: Reply, t: L.Tables)
    requires EndsIn(Next(s, Go(id, reply)), id, t)
    ensures EndsIn(s, id, t)
  {
    var replies :| EndsBy(Next(s, Go(id, reply)), id, replies, t);
    var all := [reply] + replies;
    assert all[0] == reply && all[1..] == replies;
    assert EndsBy(s, id, all, t);
  }

  /** A step to a handler's next access. */
  lemma Steps(s: Sys, id: nat, a: Actor, reply: Reply, s': Sys, t: L.Tables)
    requires id in s.actors && s.actors[id] == a && Goes(s, id, a, reply) == s' && EndsIn(s', id, t)
    ensures EndsIn(s, id, t)
  {
    OneStep(s, id, reply, t);
  }

  // ---- a check

  /** What a merge answer does to the bullet it is about. */
  function Told(bullets: seq<Bullet>, b: BulletID, base: string, merge: L.Merge): seq<Bullet> {
    match merge
    case Unknown => bullets
    case Open => bullets
    case MergedInto(branch) =>
      if branch == base then WithReason(bullets, b, Merged, "")
      else WithReason(bullets, b, Blocked, L.MismatchReason(branch, base))
  }

  /** What checking a row does, by where its URL comes from. */
  lemma CheckedByUrl(bullets: seq<Bullet>, b: Bullet, base: string, found: string, merge: L.Merge)
    ensures L.Checked(bullets, b, base, found, merge) ==
      if !Eligible(b) || (b.url == "" && found == "") then bullets
      else if b.url == "" then Told(WithReason(WithURL(bullets, b.id, found), b.id, Sealed, ""), b.id, base, merge)
      else Told(bullets, b.id, base, merge)
  {
  }

  /** The jobs that are left do to the bullets what checking those rows does. */
  lemma {:induction false} ChecksAlone(s: Sys, id: nat, ref: Ref, todo: seq<Bullet>,
                                       found: BulletID -> string, merges: BulletID -> L.Merge)
    requires id in s.actors && s.actors[id] == Checking(Jobs(ref, todo))
    ensures EndsIn(s, id, TablesOf(s).(bullets := L.CheckAll(s.bullets, todo, ref.base, found, merges)))
    decreases |todo|, 0
  {
    if todo == [] {
      Ended(At(s, id, Done), id);
      Steps(s, id, Checking([]), SILENT, At(s, id, Done), TablesOf(s));
    } else {
      var b, rest := todo[0], todo[1..];
      CheckedByUrl(s.bullets, b, ref.base, found(b.id), merges(b.id));
      if !Eligible(b) {
        ChecksAlone(s, id, ref, rest, found, merges);
      } else {
        FirstJob(ref, todo);
        JobAlone(s, id, ref, b, rest, found, merges);
      }
    }
  }

  lemma FirstJob(ref: Ref, todo: seq<Bullet>)
    requires todo != [] && Eligible(todo[0])
    ensures Jobs(ref, todo) == [Job(ref, todo[0])] + Jobs(ref, todo[1..])
  {
  }

  lemma {:induction false} JobAlone(s: Sys, id: nat, ref: Ref, b: Bullet, rest: seq<Bullet>,
                                    found: BulletID -> string, merges: BulletID -> L.Merge)
    requires Eligible(b) && id in s.actors && s.actors[id] == Checking([Job(ref, b)] + Jobs(ref, rest))
    ensures EndsIn(s, id, TablesOf(s).(bullets :=
      L.CheckAll(L.Checked(s.bullets, b, ref.base, found(b.id), merges(b.id)), rest, ref.base, found, merges)))
    decreases |rest|, 3
  {
    var checked := L.Checked(s.bullets, b, ref.base, found(b.id), merges(b.id));
    var t := TablesOf(s).(bullets := L.CheckAll(checked, rest, ref.base, found, merges));
    var jobs := Jobs(ref, rest);
    assert ([Job(ref, b)] + jobs)[1..] == jobs;
    CheckedByUrl(s.bullets, b, ref.base, found(b.id), merges(b.id));
    if b.url == "" && found(b.id) == "" {
      var next := At(s, id, Checking(jobs));
      ChecksAlone(next, id, ref, rest, found, merges);
      Steps(s, id, s.actors[id], SILENT, next, t);
    } else if b.url == "" {
      var url := found(b.id);
      var linked := At(Became(s, WithURL(s.bullets, b.id, url), UrlSet(b.id, url)), id, Discovered(ref, b.id, url, jobs));
      DiscoversAlone(linked, id, ref, b.id, url, rest, found, merges);
      Steps(s, id, s.actors[id], Reply(url, None, map[]), linked, t);
    } else {
      var asked := At(s, id, Asking(ref, b.id, b.url, jobs));
      AsksAlone(asked, id, ref, b.id, b.url, rest, found, merges);
      Steps(s, id, s.actors[id], SILENT, asked, t);
    }
  }

  lemma {:induction false} DiscoversAlone(s: Sys, id: nat, ref: Ref, b: BulletID, url: string, rest: seq<Bullet>,
                                          found: BulletID -> string, merges: BulletID -> L.Merge)
    requires id in s.actors && s.actors[id] == Discovered(ref, b, url, Jobs(ref, rest))
    ensures EndsIn(s, id, TablesOf(s).(bullets :=
      L.CheckAll(Told(WithReason(s.bullets, b, Sealed, ""), b, ref.base, merges(b)), rest, ref.base, found, merges)))
    decreases |rest|, 2
  {
    var sealed := WithReason(s.bullets, b, Sealed, "");
    var next := At(Became(s, sealed, BulletBecame(b, Sealed)), id, Asking(ref, b, url, Jobs(ref, rest)));
    AsksAlone(next, id, ref, b, url, rest, found, merges);
    Steps(s, id, s.actors[id], SILENT, next,
          TablesOf(s).(bullets := L.CheckAll(Told(sealed, b, ref.base, merges(b)), rest, ref.base, found, merges)));
  }

  lemma {:induction false} AsksAlone(s: Sys, id: nat, ref: Ref, b: BulletID, url: string, rest: seq<Bullet>,
                                     found: BulletID -> string, merges: BulletID -> L.Merge)
    requires id in s.actors && s.actors[id] == Asking(ref, b, url, Jobs(ref, rest))
    ensures EndsIn(s, id, TablesOf(s).(bullets := L.CheckAll(Told(s.bullets, b, ref.base, merges(b)), rest, ref.base, found, merges)))
    decreases |rest|, 1
  {
    var t := TablesOf(s).(bullets := L.CheckAll(Told(s.bullets, b, ref.base, merges(b)), rest, ref.base, found, merges));
    var jobs := Jobs(ref, rest);
    match merges(b)
    case MergedInto(branch) =>
      var seen := At(s.(past := s.past + [MergeSeen(b, ref.run, url, branch, ref.base)]), id, Judging(ref, b, url, branch, jobs));
      var told := Goes(seen, id, seen.actors[id], SILENT);
      ChecksAlone(told, id, ref, rest, found, merges);
      Steps(seen, id, seen.actors[id], SILENT, told, t);
      Steps(s, id, s.actors[id], Reply("", Some(branch), map[]), seen, t);
    case _ =>
      var next := At(s, id, Checking(jobs));
      ChecksAlone(next, id, ref, rest, found, merges);
      Steps(s, id, s.actors[id], SILENT, next, t);
  }

  lemma ListedAlone(s: Sys, id: nat, ref: Ref, intent: string, found: BulletID -> string, merges: BulletID -> L.Merge)
    requires id in s.actors && s.actors[id] == CheckListing(ref, intent)
    ensures EndsIn(s, id, TablesOf(s).(bullets := L.CheckAll(s.bullets, BulletsOf(s.bullets, intent), ref.base, found, merges)))
  {
    var mine := BulletsOf(s.bullets, intent);
    var checking := At(s, id, Checking(Jobs(ref, mine)));
    ChecksAlone(checking, id, ref, mine, found, merges);
    Steps(s, id, s.actors[id], SILENT, checking,
          TablesOf(s).(bullets := L.CheckAll(s.bullets, mine, ref.base, found, merges)));
  }

  /** A check of a run's bullets, alone, is the one-step check. */
  lemma CheckAlone(s: Sys, id: nat, run: string, found: BulletID -> string, merges: BulletID -> L.Merge)
    requires id in s.actors && s.actors[id] == CheckAsked(run)
    ensures EndsIn(s, id, L.Next(TablesOf(s), L.Check(run, found, merges)))
  {
    if run !in s.runs || s.runs[run].intent == "" {
      Ended(At(s, id, Done), id);
      Steps(s, id, CheckAsked(run), SILENT, At(s, id, Done), TablesOf(s));
    } else {
      var ref, intent := Ref(run, s.runs[run].base), s.runs[run].intent;
      var listing := At(s, id, CheckListing(ref, intent));
      ListedAlone(listing, id, ref, intent, found, merges);
      Steps(s, id, CheckAsked(run), SILENT, listing,
            TablesOf(s).(bullets := L.CheckAll(s.bullets, BulletsOf(s.bullets, intent), ref.base, found, merges)));
    }
  }

  // ---- a run outcome

  /** What is left of a sweep, and then the intent. */
  lemma {:induction false} SweepsAlone(s: Sys, id: nat, intent: string, to: BulletStatus, reason: string, since: nat,
                                       todo: seq<Bullet>, before: seq<Bullet>, done: set<BulletID>)
    requires id in s.actors && s.actors[id] == Advancing(intent, to, reason, since, todo)
    requires DistinctIDs(before) && forall b :: b in todo ==> b in before
    requires s.bullets == S.SweptOnly(before, done, to, reason)
    requires done + S.IDsOf(todo) == S.IDsOf(BulletsOf(before, intent))
    ensures EndsIn(s, id, L.Recomputed(TablesOf(s).(bullets := L.Swept(before, intent, to, reason)), intent))
    decreases |todo|
  {
    var t := L.Recomputed(TablesOf(s).(bullets := L.Swept(before, intent, to, reason)), intent);
    var a := s.actors[id];
    if todo == [] {
      assert done == S.IDsOf(BulletsOf(before, intent));
      S.SweptAll(before, intent, to, reason);
      assert s.bullets == L.Swept(before, intent, to, reason);
      DerivesAlone(s, id, intent, to, reason, since);
    } else {
      var b, rest := todo[0], todo[1..];
      var next := Goes(s, id, a, SILENT);
      assert b in todo && forall x :: x in rest ==> x in todo;
      FirstID(todo);
      S.SweepOne(before, done, b.id, to, reason);
      if b.status == to && b.reason == reason {
        S.SweepSkips(before, done, b, to, reason);
      }
      SweepsAlone(next, id, intent, to, reason, since, rest, before, done + {b.id});
      Steps(s, id, a, SILENT, next, t);
    }
  }

  lemma FirstID(todo: seq<Bullet>)
    requires todo != []
    ensures S.IDsOf(todo) == {todo[0].id} + S.IDsOf(todo[1..])
  {
    forall id ensures id in S.IDsOf(todo) <==> id in {todo[0].id} + S.IDsOf(todo[1..]) {
      if i :| 0 <= i < |todo[1..]| && todo[1..][i].id == id {
        assert todo[i + 1].id == id;
      }
      if i :| 0 <= i < |todo| && todo[i].id == id {
        assert i > 0 ==> todo[1..][i - 1].id == id;
      }
    }
  }

  lemma DerivesAlone(s: Sys, id: nat, intent: string, to: BulletStatus, reason: string, since: nat)
    requires id in s.actors && s.actors[id] == Advancing(intent, to, reason, since, [])
    ensures EndsIn(s, id, L.Recomputed(TablesOf(s), intent))
  {
    var t := L.Recomputed(TablesOf(s), intent);
    var deriving := Goes(s, id, s.actors[id], SILENT);
    if intent !in s.intents {
      Ended(deriving, id);
    } else {
      var derived := Goes(deriving, id, deriving.actors[id], SILENT);
      if derived.actors[id].Done? {
        assert s.intents[intent := s.intents[intent]] == s.intents;
        Ended(derived, id);
      } else {
        var stored := Goes(derived, id, derived.actors[id], SILENT);
        Ended(stored, id);
        Steps(derived, id, derived.actors[id], SILENT, stored, t);
      }
      Steps(deriving, id, deriving.actors[id], SILENT, derived, t);
    }
    Steps(s, id, s.actors[id], SILENT, deriving, t);
  }

  /** A run outcome, alone, is the one-step outcome, with its reason where it blocks. */
  lemma OutcomeAlone(s: Sys, id: nat, run: string, status: RunStatus, reason: string)
    requires DistinctIDs(s.bullets) && id in s.actors && s.actors[id] == Concluding(run, status, reason)
    ensures EndsIn(s, id, L.Outcome(TablesOf(s), run, status, reason))
  {
    var t := L.Outcome(TablesOf(s), run, status, reason);
    var to := BulletStatusForRunOutcome(status);
    var began := Goes(s, id, s.actors[id], SILENT);
    if run !in s.runs || to.None? || s.runs[run].intent == "" {
      Ended(began, id);
    } else {
      var intent, why := s.runs[run].intent, if to.value == Blocked then reason else "";
      var listed := Goes(began, id, began.actors[id], SILENT);
      var todo := BulletsOf(s.bullets, intent);
      BulletsOfMeans(s.bullets, intent);
      assert S.SweptOnly(s.bullets, {}, to.value, why) == s.bullets;
      SweepsAlone(listed, id, intent, to.value, why, |s.past|, todo, s.bullets, {});
      Steps(began, id, began.actors[id], SILENT, listed, t);
    }
    Steps(s, id, s.actors[id], SILENT, began, t);
  }

  // ---- sealing

  lemma SealingMoves(bullets: seq<Bullet>, intent: string, repo: string, b: Bullet)
    requires FirstOfRepo(BulletsOf(bullets, intent), repo) == Some(b) && b.status == Green
    ensures WithStatus(bullets, b.id, Sealed) != bullets
  {
    FirstOfRepoMeans(BulletsOf(bullets, intent), repo);
    BulletsOfMeans(bullets, intent);
    var i :| 0 <= i < |bullets| && bullets[i] == b;
    assert WithStatus(bullets, b.id, Sealed)[i].status == Sealed;
  }

  lemma ReadyAlone(s: Sys, id: nat, intent: string, repo: string, b: BulletID, url: string)
    requires id in s.actors && s.actors[id] == SealReady(intent, repo, b)
    ensures EndsIn(s, id, LinkedTo(TablesOf(s).(bullets := WithStatus(s.bullets, b, Sealed)), intent, repo, url))
  {
    var done := Goes(s, id, s.actors[id], SILENT);
    LinksAlone(done, id, intent, repo, url);
    Steps(s, id, s.actors[id], SILENT, done, LinkedTo(TablesOf(done), intent, repo, url));
  }

  /** What the one step does where the seal is not refused before the bullets are read. */
  lemma SealIs(t: L.Tables, run: string, repo: string, url: string)
    requires run in t.runs && t.runs[run].intent != ""
    ensures var b := FirstOfRepo(BulletsOf(t.bullets, t.runs[run].intent), repo);
      L.Next(t, L.Seal(run, repo, url)) ==
        if b.Some? && b.value.status == Green
        then LinkedTo(t.(bullets := WithStatus(t.bullets, b.value.id, Sealed)), t.runs[run].intent, repo, url) else t
  {
    var b := FirstOfRepo(BulletsOf(t.bullets, t.runs[run].intent), repo);
    if b.Some? && b.value.status == Green {
      SealingMoves(t.bullets, t.runs[run].intent, repo, b.value);
    }
  }

  /** Sealing a repo's bullet and opening its change request, alone, is the one step. */
  lemma SealAlone(s: Sys, id: nat, run: string, repo: string, url: string)
    requires id in s.actors && s.actors[id] == SealAsked(run, repo)
    ensures EndsIn(s, id, L.Next(TablesOf(s), L.Seal(run, repo, url)))
  {
    var t := L.Next(TablesOf(s), L.Seal(run, repo, url));
    var listing := Goes(s, id, s.actors[id], SILENT);
    if run !in s.runs || s.runs[run].intent == "" {
      Ended(listing, id);
    } else {
      SealIs(TablesOf(s), run, repo, url);
      var ready := Goes(listing, id, listing.actors[id], SILENT);
      var b := FirstOfRepo(BulletsOf(s.bullets, s.runs[run].intent), repo);
      if b.Some? && b.value.status == Green {
        ReadyAlone(ready, id, s.runs[run].intent, repo, b.value.id, url);
      } else {
        Ended(ready, id);
      }
      Steps(listing, id, listing.actors[id], SILENT, ready, t);
    }
    Steps(s, id, s.actors[id], SILENT, listing, t);
  }

  function LinkedTo(t: L.Tables, intent: string, repo: string, url: string): L.Tables {
    var b := FirstOfRepo(BulletsOf(t.bullets, intent), repo);
    if url == "" || b.None? then t else t.(bullets := WithURL(t.bullets, b.value.id, url))
  }

  lemma LinksAlone(s: Sys, id: nat, intent: string, repo: string, url: string)
    requires id in s.actors && s.actors[id] == SealDone(intent, repo)
    ensures EndsIn(s, id, LinkedTo(TablesOf(s), intent, repo, url))
  {
    var t := LinkedTo(TablesOf(s), intent, repo, url);
    var linking := Goes(s, id, s.actors[id], SILENT);
    if linking.actors[id].Done? {
      Ended(linking, id);
    } else {
      var linked := Goes(linking, id, linking.actors[id], Reply(url, None, map[]));
      Ended(linked, id);
      Steps(linking, id, linking.actors[id], Reply(url, None, map[]), linked, t);
    }
    Steps(s, id, s.actors[id], SILENT, linking, t);
  }

  // ---- resuming

  lemma {:induction false} BlockedIDsMean(bullets: seq<Bullet>, targeted: set<string>, id: BulletID)
    ensures id in BlockedIDs(bullets, targeted) <==>
      exists b :: b in bullets && b.id == id && b.status == Blocked && b.repo in targeted
  {
    if bullets != [] {
      BlockedIDsMean(bullets[1..], targeted, id);
      assert bullets == [bullets[0]] + bullets[1..];
    }
  }

  /** The bullets part way through clearing these ids. */
  ghost predicate PartCleared(bullets: seq<Bullet>, before: seq<Bullet>, intent: string, targeted: set<string>, ids: seq<BulletID>) {
    && |bullets| == |before|
    && forall k :: 0 <= k < |before| ==>
      || bullets[k] == L.Cleared(before, intent, targeted)[k]
      || (bullets[k] == before[k] && before[k].id in ids)
  }

  ghost predicate Clears(before: seq<Bullet>, intent: string, targeted: set<string>, id: BulletID) {
    forall k :: 0 <= k < |before| && before[k].id == id ==>
      before[k].id.intent == intent && before[k].status == Blocked && before[k].repo in targeted
  }

  lemma {:induction false} ClearsAlone(s: Sys, id: nat, run: string, ids: seq<BulletID>, before: seq<Bullet>,
                                       intent: string, targeted: set<string>)
    requires id in s.actors && s.actors[id] == Clearing(run, ids)
    requires PartCleared(s.bullets, before, intent, targeted, ids)
    requires forall b :: b in ids ==> Clears(before, intent, targeted, b)
    ensures EndsIn(s, id, L.RunSet(TablesOf(s).(bullets := L.Cleared(before, intent, targeted)), run, Running))
    decreases |ids|
  {
    var t := L.RunSet(TablesOf(s).(bullets := L.Cleared(before, intent, targeted)), run, Running);
    var next := Goes(s, id, s.actors[id], SILENT);
    if ids == [] {
      assert s.bullets == L.Cleared(before, intent, targeted);
      Ended(next, id);
    } else {
      ClearOne(s.bullets, before, intent, targeted, ids);
      ClearsAlone(next, id, run, ids[1..], before, intent, targeted);
    }
    Steps(s, id, s.actors[id], SILENT, next, t);
  }

  lemma ClearOne(bullets: seq<Bullet>, before: seq<Bullet>, intent: string, targeted: set<string>, ids: seq<BulletID>)
    requires ids != [] && PartCleared(bullets, before, intent, targeted, ids)
    requires forall b :: b in ids ==> Clears(before, intent, targeted, b)
    ensures PartCleared(WithReason(bullets, ids[0], BulletPending, ""), before, intent, targeted, ids[1..])
    ensures forall b :: b in ids[1..] ==> Clears(before, intent, targeted, b)
  {
    assert ids == [ids[0]] + ids[1..];
    assert Clears(before, intent, targeted, ids[0]);
  }

  /** A resume, alone, is the one-step resume. */
  lemma ResumeAlone(s: Sys, id: nat, run: string, targeted: set<string>)
    requires DistinctIDs(s.bullets) && id in s.actors && s.actors[id] == ResumeAsked(run, targeted)
    ensures EndsIn(s, id, L.Next(TablesOf(s), L.Resume(run, targeted)))
  {
    var t := L.Next(TablesOf(s), L.Resume(run, targeted));
    var asked := Goes(s, id, s.actors[id], SILENT);
    if run !in s.runs || !IsResumable(s.runs[run].status) {
      Ended(asked, id);
    } else if s.runs[run].intent == "" {
      var resumed := Goes(asked, id, asked.actors[id], SILENT);
      Ended(resumed, id);
      Steps(asked, id, asked.actors[id], SILENT, resumed, t);
    } else {
      var intent := s.runs[run].intent;
      var mine := BulletsOf(s.bullets, intent);
      var ids := BlockedIDs(mine, targeted);
      var listed := Goes(asked, id, asked.actors[id], SILENT);
      BulletsOfMeans(s.bullets, intent);
      forall b: BulletID ensures b in ids <==> exists x :: x in mine && x.id == b && x.status == Blocked && x.repo in targeted {
        BlockedIDsMean(mine, targeted, b);
      }
      forall k | 0 <= k < |s.bullets| && s.bullets[k].id !in ids
        ensures s.bullets[k] == L.Cleared(s.bullets, intent, targeted)[k]
      {
        assert s.bullets[k] in s.bullets;
      }
      ClearsAlone(listed, id, run, ids, s.bullets, intent, targeted);
      Steps(asked, id, asked.actors[id], SILENT, listed, t);
    }
    Steps(s, id, s.actors[id], SILENT, asked, t);
  }

  // ---- plans

  ghost predicate PartReleased(bullets: seq<Bullet>, before: seq<Bullet>, intent: string, ids: seq<BulletID>) {
    && |bullets| == |before|
    && forall k :: 0 <= k < |before| ==>
      || bullets[k] == L.Approved(before, intent)[k]
      || (bullets[k] == before[k] && before[k].id in ids)
  }

  lemma ReleaseOne(bullets: seq<Bullet>, before: seq<Bullet>, intent: string, ids: seq<BulletID>)
    requires ids != [] && PartReleased(bullets, before, intent, ids) && forall b :: b in ids ==> b.intent == intent
    ensures PartReleased(WithStatus(bullets, ids[0], BulletPending), before, intent, ids[1..])
    ensures forall b :: b in ids[1..] ==> b.intent == intent
  {
    assert ids == [ids[0]] + ids[1..];
  }

  lemma {:induction false} ReleasesAlone(s: Sys, id: nat, intent: string, ids: seq<BulletID>, before: seq<Bullet>)
    requires id in s.actors && s.actors[id] == Releasing(intent, ids, true)
    requires PartReleased(s.bullets, before, intent, ids) && forall b :: b in ids ==> b.intent == intent
    ensures EndsIn(s, id, TablesOf(s).(bullets := L.Approved(before, intent)))
    decreases |ids|
  {
    var t := TablesOf(s).(bullets := L.Approved(before, intent));
    var next := Goes(s, id, s.actors[id], SILENT);
    if ids == [] {
      assert s.bullets == L.Approved(before, intent);
      Ended(next, id);
    } else {
      ReleaseOne(s.bullets, before, intent, ids);
      ReleasesAlone(next, id, intent, ids[1..], before);
    }
    Steps(s, id, s.actors[id], SILENT, next, t);
  }

  /** The tables an approval leaves before its run is created. */
  function ReleasedBy(t: L.Tables, intent: string): L.Tables {
    if intent in t.intents && t.intents[intent] == PlanProposed
    then t.(intents := t.intents[intent := InProgress], bullets := L.Approved(t.bullets, intent)) else t
  }

  /** With the run it starts that is the one-step approval. */
  lemma ReleasedThenRun(s: Sys, e: Sys, intent: string, run: string)
    requires run !in s.runs && TablesOf(e) == ReleasedBy(TablesOf(s), intent)
    ensures L.Next(TablesOf(s), L.Approve(intent, run)) ==
      if intent in s.intents && s.intents[intent] == PlanProposed then TablesOf(Next(e, CreateRun(run, intent, "")))
      else TablesOf(e)
  {
  }

  /** An approval, alone, releases the bullets of a proposed plan, and only then is a run started. */
  lemma ApproveAlone(s: Sys, id: nat, intent: string)
    requires id in s.actors && s.actors[id] == ApproveAsked(intent)
    ensures EndsIn(s, id, ReleasedBy(TablesOf(s), intent))
  {
    var t := ReleasedBy(TablesOf(s), intent);
    var asked := Goes(s, id, s.actors[id], SILENT);
    if asked.actors[id].Done? {
      Ended(asked, id);
    } else {
      var ids := IDs(BulletsOf(s.bullets, intent));
      var listed := Goes(asked, id, asked.actors[id], SILENT);
      var begun := Goes(listed, id, listed.actors[id], SILENT);
      BulletsOfMeans(s.bullets, intent);
      OwnIDs(s.bullets, intent);
      ReleasesAlone(begun, id, intent, ids, s.bullets);
      Steps(listed, id, listed.actors[id], SILENT, begun, t);
      Steps(asked, id, asked.actors[id], SILENT, listed, t);
    }
    Steps(s, id, s.actors[id], SILENT, asked, t);
  }

  lemma OwnIDs(bullets: seq<Bullet>, intent: string)
    ensures forall b :: b in IDs(BulletsOf(bullets, intent)) ==> b.intent == intent
    ensures forall k :: 0 <= k < |bullets| && bullets[k].id.intent == intent ==> bullets[k].id in IDs(BulletsOf(bullets, intent))
  {
    var mine := BulletsOf(bullets, intent);
    BulletsOfMeans(bullets, intent);
    forall i | 0 <= i < |mine| ensures IDs(mine)[i].intent == intent {
      assert mine[i] in mine;
    }
    forall k | 0 <= k < |bullets| && bullets[k].id.intent == intent ensures bullets[k].id in IDs(mine) {
      var i :| 0 <= i < |mine| && mine[i] == bullets[k];
      assert IDs(mine)[i] == bullets[k].id;
    }
  }

  /** A rejection, alone, is the one-step rejection. */
  lemma RejectAlone(s: Sys, id: nat, intent: string)
    requires id in s.actors && s.actors[id] == RejectAsked(intent)
    ensures EndsIn(s, id, L.Next(TablesOf(s), L.Reject(intent)))
  {
    var t := L.Next(TablesOf(s), L.Reject(intent));
    var asked := Goes(s, id, s.actors[id], SILENT);
    if asked.actors[id].Done? {
      Ended(asked, id);
    } else {
      var rejected := Goes(asked, id, asked.actors[id], SILENT);
      Ended(rejected, id);
      Steps(asked, id, asked.actors[id], SILENT, rejected, t);
    }
    Steps(s, id, s.actors[id], SILENT, asked, t);
  }
}
