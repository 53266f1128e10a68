/** The lifecycle with handlers interleaved row by row: every read and every write of a table
    is a step of its own, so handlers act on reads that may be stale by then. What is proved
    is about the order in which things were ever written. */
module BulletHistory {
  import opened Wrappers
  import opened Records
  import Lifecycle

  /** What was written, in order; a write of an intent by a run outcome keeps the positions of
      that outcome's run write and of its read of the bullets, and the bullets it read. */
  datatype Event =
    | RunCreated(run: string, intent: string)
    | BaseSet(run: string, base: string)
    | RunBecame(run: string, intent: string, status: RunStatus)
    | BulletCreated(bullet: BulletID, to: BulletStatus)
    | BulletBecame(bullet: BulletID, to: BulletStatus)
    | UrlSet(bullet: BulletID, url: string)
    | MergeSeen(bullet: BulletID, run: string, url: string, into: string, base: string)
    | IntentBecame(intent: string, derived: IntentStatus, since: nat, at: nat, read: seq<BulletID>)

  /** The run a check was made for and its base branch, as read. */
  datatype Ref = Ref(run: string, base: string)

  datatype Job = Job(ref: Ref, bullet: Bullet)

  /** A handler between two store accesses, with what it has read so far. */
  datatype Actor =
    // a run outcome
    | Concluding(run: string, status: RunStatus, reason: string)
    | Listing(intent: string, to: BulletStatus, reason: string, since: nat)
    | Advancing(intent: string, to: BulletStatus, reason: string, since: nat, todo: seq<Bullet>)
    | Deriving(intent: string, stored: IntentStatus, since: nat)
    | Storing(intent: string, derived: IntentStatus, since: nat, at: nat, read: seq<BulletID>)
    // sealing and opening a change request
    | SealAsked(run: string, repo: string)
    | SealListing(intent: string, repo: string)
    | SealReady(intent: string, repo: string, bullet: BulletID)
    | SealDone(intent: string, repo: string)
    | Linking(bullet: BulletID)
    // checking merge status
    | CheckAsked(run: string)
    | CheckListing(ref: Ref, intent: string)
    | SweepAsked
    | Sweeping(rows: seq<Bullet>)
    | Checking(jobs: seq<Job>)
    | Discovered(ref: Ref, bullet: BulletID, url: string, jobs: seq<Job>)
    | Asking(ref: Ref, bullet: BulletID, url: string, jobs: seq<Job>)
    | Judging(ref: Ref, bullet: BulletID, url: string, into: string, jobs: seq<Job>)
    // resuming, approving, rejecting
    | ResumeAsked(run: string, targeted: set<string>)
    | ResumeListing(run: string, intent: string, targeted: set<string>)
    | Clearing(run: string, ids: seq<BulletID>)
    | ApproveAsked(intent: string)
    | ApproveListing(intent: string)
    | Releasing(intent: string, ids: seq<BulletID>, begun: bool)
    | RejectAsked(intent: string)
    | Rejecting(intent: string)
    | Done

  datatype Sys = Sys(
    runs: map<string, Run>, intents: map<string, IntentStatus>, bullets: seq<Bullet>,
    actors: map<nat, Actor>, past: seq<Event>)

  const EMPTY_SYS := Sys(map[], map[], [], map[], [])

  /** What the outside answers during one access: a URL, a merge, a run for each intent. */
  datatype Reply = Reply(url: string, into: Option<string>, refs: map<string, string>)

  datatype Step =
    | CreateRun(run: string, intent: string, base: string)
    | SetBase(run: string, base: string)
    | CreateIntent(intent: string, proposed: bool)
    | CreateBullet(bullet: BulletID, repo: string, proposed: bool)
    | Begin(id: nat, actor: Actor)
    | Go(id: nat, reply: Reply)

  predicate Starts(a: Actor) {
    a.Concluding? || a.SealAsked? || a.CheckAsked? || a.SweepAsked? || a.ResumeAsked?
    || a.ApproveAsked? || a.RejectAsked?
  }

  function Became(s: Sys, bullets: seq<Bullet>, e: Event): Sys {
    s.(bullets := bullets, past := s.past + [e])
  }

  function At(s: Sys, id: nat, a: Actor): Sys {
    s.(actors := s.actors[id := a])
  }

  function IDs(bullets: seq<Bullet>): seq<BulletID> {
    seq(|bullets|, i requires 0 <= i < |bullets| => bullets[i].id)
  }

  // ---- the next access of each handler

  function GoOutcome(s: Sys, id: nat, a: Actor): Sys
    requires a.Concluding? || a.Listing? || a.Advancing? || a.Deriving? || a.Storing?
  {
    match a
    case Concluding(run, status, reason) =>
      if run !in s.runs then At(s, id, Done)
      else
        var intent, to := s.runs[run].intent, BulletStatusForRunOutcome(status);
        var s' := s.(runs := s.runs[run := s.runs[run].(status := status)],
                     past := s.past + [RunBecame(run, intent, status)]);
        At(s', id, if to.None? || intent == "" then Done
                   else Listing(intent, to.value, if to.value == Blocked then reason else "", |s.past|))
    case Listing(intent, to, reason, since) =>
      At(s, id, Advancing(intent, to, reason, since, BulletsOf(s.bullets, intent)))
    case Advancing(intent, to, reason, since, todo) =>
      if todo == [] then
        At(s, id, if intent in s.intents then Deriving(intent, s.intents[intent], since) else Done)
      else
        var b, next := todo[0], Advancing(intent, to, reason, since, todo[1..]);
        if b.status == to && b.reason == reason then At(s, id, next)
        else At(Became(s, WithReason(s.bullets, b.id, to, reason), BulletBecame(b.id, to)), id, next)
    case Deriving(intent, stored, since) =>
      var mine := BulletsOf(s.bullets, intent);
      var derived := DeriveIntentStatus(mine);
      At(s, id, if derived == stored then Done else Storing(intent, derived, since, |s.past|, IDs(mine)))
    case Storing(intent, derived, since, at, read) =>
      At(s.(intents := s.intents[intent := derived], past := s.past + [IntentBecame(intent, derived, since, at, read)]), id, Done)
  }

  function GoSeal(s: Sys, id: nat, a: Actor, url: string): Sys
    requires a.SealAsked? || a.SealListing? || a.SealReady? || a.SealDone? || a.Linking?
  {
    match a
    case SealAsked(run, repo) =>
      At(s, id, if run !in s.runs || s.runs[run].intent == "" then Done else SealListing(s.runs[run].intent, repo))
    case SealListing(intent, repo) =>
      var b := FirstOfRepo(BulletsOf(s.bullets, intent), repo);
      At(s, id, if b.Some? && b.value.status == Green then SealReady(intent, repo, b.value.id) else Done)
    case SealReady(intent, repo, b) =>
      At(Became(s, WithStatus(s.bullets, b, Sealed), BulletBecame(b, Sealed)), id, SealDone(intent, repo))
    case SealDone(intent, repo) =>
      var b := FirstOfRepo(BulletsOf(s.bullets, intent), repo);
      At(s, id, if b.Some? then Linking(b.value.id) else Done)
    case Linking(b) =>
      if url == "" then At(s, id, Done)
      else At(Became(s, WithURL(s.bullets, b, url), UrlSet(b, url)), id, Done)
  }

  predicate Eligible(b: Bullet) {
    (b.status == Sealed && b.url != "") || (b.status == Green && b.url == "")
  }

  function Jobs(ref: Ref, bullets: seq<Bullet>): seq<Job> {
    if bullets == [] then []
    else (if Eligible(bullets[0]) then [Job(ref, bullets[0])] else []) + Jobs(ref, bullets[1..])
  }

  function SealedWithURL(bullets: seq<Bullet>): seq<Bullet> {
    if bullets == [] then []
    else (if bullets[0].status == Sealed && bullets[0].url != "" then [bullets[0]] else []) + SealedWithURL(bullets[1..])
  }

  /** A sweep takes some run that names the bullet's intent; a bullet without one is skipped. */
  function SweepJobs(runs: map<string, Run>, refs: map<string, string>, bullets: seq<Bullet>): seq<Job> {
    if bullets == [] then []
    else
      var b, rest := bullets[0], SweepJobs(runs, refs, bullets[1..]);
      if b.id.intent in refs && refs[b.id.intent] in runs && runs[refs[b.id.intent]].intent == b.id.intent
      then [Job(Ref(refs[b.id.intent], runs[refs[b.id.intent]].base), b)] + rest
      else rest
  }

  function GoCheck(s: Sys, id: nat, a: Actor, reply: Reply): Sys
    requires a.CheckAsked? || a.CheckListing? || a.SweepAsked? || a.Sweeping? || a.Checking? || a.Discovered? || a.Asking? || a.Judging?
  {
    match a
    case CheckAsked(run) =>
      At(s, id, if run !in s.runs || s.runs[run].intent == "" then Done
                else CheckListing(Ref(run, s.runs[run].base), s.runs[run].intent))
    case CheckListing(ref, intent) => At(s, id, Checking(Jobs(ref, BulletsOf(s.bullets, intent))))
    case SweepAsked => At(s, id, Sweeping(SealedWithURL(s.bullets)))
    case Sweeping(rows) => At(s, id, Checking(SweepJobs(s.runs, reply.refs, rows)))
    case Checking(todo) =>
      if todo == [] then At(s, id, Done)
      else
        var ref, b := todo[0].ref, todo[0].bullet;
        if b.url != "" then At(s, id, Asking(ref, b.id, b.url, todo[1..]))
        else if reply.url == "" then At(s, id, Checking(todo[1..]))
        else At(Became(s, WithURL(s.bullets, b.id, reply.url), UrlSet(b.id, reply.url)), id,
                Discovered(ref, b.id, reply.url, todo[1..]))
    case Discovered(ref, b, url, todo) =>
      At(Became(s, WithReason(s.bullets, b, Sealed, ""), BulletBecame(b, Sealed)), id, Asking(ref, b, url, todo))
    case Asking(ref, b, url, todo) =>
      if reply.into.None? then At(s, id, Checking(todo))
      else At(s.(past := s.past + [MergeSeen(b, ref.run, url, reply.into.value, ref.base)]), id,
              Judging(ref, b, url, reply.into.value, todo))
    case Judging(ref, b, url, into, todo) =>
      if into == ref.base
      then At(Became(s, WithReason(s.bullets, b, Merged, ""), BulletBecame(b, Merged)), id, Checking(todo))
      else At(Became(s, WithReason(s.bullets, b, Blocked, Lifecycle.MismatchReason(into, ref.base)), BulletBecame(b, Blocked)),
              id, Checking(todo))
  }

  function BlockedIDs(bullets: seq<Bullet>, targeted: set<string>): seq<BulletID> {
    if bullets == [] then []
    else (if bullets[0].status == Blocked && bullets[0].repo in targeted then [bullets[0].id] else [])
         + BlockedIDs(bullets[1..], targeted)
  }

  function GoOther(s: Sys, id: nat, a: Actor): Sys
    requires a.ResumeAsked? || a.ResumeListing? || a.Clearing? || a.ApproveAsked? || a.ApproveListing? || a.Releasing?
      || a.RejectAsked? || a.Rejecting?
  {
    match a
    case ResumeAsked(run, targeted) =>
      At(s, id, if run !in s.runs || !IsResumable(s.runs[run].status) then Done
                else if s.runs[run].intent == "" then Clearing(run, [])
                else ResumeListing(run, s.runs[run].intent, targeted))
    case ResumeListing(run, intent, targeted) =>
      At(s, id, Clearing(run, BlockedIDs(BulletsOf(s.bullets, intent), targeted)))
    case Clearing(run, ids) =>
      if ids != [] then
        At(Became(s, WithReason(s.bullets, ids[0], BulletPending, ""), BulletBecame(ids[0], BulletPending)), id, Clearing(run, ids[1..]))
      else if run !in s.runs then At(s, id, Done)
      else At(s.(runs := s.runs[run := s.runs[run].(status := Running)],
                 past := s.past + [RunBecame(run, s.runs[run].intent, Running)]), id, Done)
    case ApproveAsked(intent) =>
      At(s, id, if intent !in s.intents || s.intents[intent] != PlanProposed then Done else ApproveListing(intent))
    case ApproveListing(intent) => At(s, id, Releasing(intent, IDs(BulletsOf(s.bullets, intent)), false))
    case Releasing(intent, ids, begun) =>
      if !begun then At(s.(intents := s.intents[intent := InProgress]), id, Releasing(intent, ids, true))
      else if ids == [] then At(s, id, Done)
      else At(Became(s, WithStatus(s.bullets, ids[0], BulletPending), BulletBecame(ids[0], BulletPending)), id,
              Releasing(intent, ids[1..], true))
    case RejectAsked(intent) =>
      At(s, id, if intent !in s.intents || s.intents[intent] != PlanProposed then Done else Rejecting(intent))
    case Rejecting(intent) => At(s.(intents := s.intents[intent := Abandoned]), id, Done)
  }

  function Goes(s: Sys, id: nat, a: Actor, reply: Reply): Sys {
    if a.Done? then s
    else if a.Concluding? || a.Listing? || a.Advancing? || a.Deriving? || a.Storing? then GoOutcome(s, id, a)
    else if a.SealAsked? || a.SealListing? || a.SealReady? || a.SealDone? || a.Linking? then GoSeal(s, id, a, reply.url)
    else if a.CheckAsked? || a.CheckListing? || a.SweepAsked? || a.Sweeping? || a.Checking? || a.Discovered? || a.Asking? || a.Judging?
    then GoCheck(s, id, a, reply)
    else GoOther(s, id, a)
  }

  function Next(s: Sys, step: Step): Sys {
    match step
    case CreateRun(run, intent, base) =>
      if run in s.runs then s
      else s.(runs := s.runs[run := Run(intent, Running, base)],
              past := s.past + [RunCreated(run, intent), BaseSet(run, base)])
    case SetBase(run, base) =>
      if run !in s.runs then s
      else s.(runs := s.runs[run := s.runs[run].(base := base)], past := s.past + [BaseSet(run, base)])
    case CreateIntent(intent, proposed) =>
      if intent in s.intents then s
      else s.(intents := s.intents[intent := if proposed then PlanProposed else InProgress])
    case CreateBullet(b, repo, proposed) =>
      if exists i :: 0 <= i < |s.bullets| && s.bullets[i].id == b then s
      else
        var status := if proposed then BulletProposed else BulletPending;
        s.(bullets := s.bullets + [Bullet(b, repo, status, "", "")], past := s.past + [BulletCreated(b, status)])
    case Begin(id, actor) => if id in s.actors || !Starts(actor) then s else At(s, id, actor)
    case Go(id, reply) => if id in s.actors then Goes(s, id, s.actors[id], reply) else s
  }

  function RunAll(steps: seq<Step>): Sys {
    if steps == [] then EMPTY_SYS else Next(RunAll(steps[..|steps| - 1]), steps[|steps| - 1])
  }

  // ---- what the history keeps

  ghost predicate MergedSince(past: seq<Event>, b: BulletID, since: nat) {
    exists j :: since < j < |past| && past[j] == BulletBecame(b, Merged)
  }

  ghost predicate PassedRun(past: seq<Event>, intent: string) {
    exists run :: RunBecame(run, intent, Passed) in past
  }

  ghost predicate SeenMerged(past: seq<Event>, b: BulletID) {
    exists run, url, base :: url != "" && UrlSet(b, url) in past && MergeSeen(b, run, url, base, base) in past
  }

  ghost predicate Justified(past: seq<Event>, e: Event) {
    match e
    case BulletBecame(b, status) =>
      && (status == Green ==> PassedRun(past, b.intent))
      && (status == Sealed ==> BulletBecame(b, Green) in past)
      && (status == Merged ==> BulletBecame(b, Sealed) in past && SeenMerged(past, b))
    case MergeSeen(b, run, _, _, base) => RunCreated(run, b.intent) in past && BaseSet(run, base) in past
    case IntentBecame(intent, status, since, at, read) =>
      && since < at <= |past| && past[since].RunBecame? && past[since].intent == intent
      && (status == Satisfied ==> read != [] && forall i :: 0 <= i < |read| ==> MergedSince(past[..at], read[i], since))
    case _ => true
  }

  ghost predicate HistoryOk(past: seq<Event>) {
    past == [] || (HistoryOk(past[..|past| - 1]) && Justified(past[..|past| - 1], past[|past| - 1]))
  }

  ghost predicate RowOk(past: seq<Event>, b: Bullet) {
    && (b.status in {Green, Sealed, Merged} ==> BulletBecame(b.id, b.status) in past)
    && (b.url != "" ==> UrlSet(b.id, b.url) in past)
  }

  ghost predicate RefOk(past: seq<Event>, ref: Ref, b: BulletID) {
    RunCreated(ref.run, b.intent) in past && BaseSet(ref.run, ref.base) in past
  }

  ghost predicate JobOk(past: seq<Event>, job: Job) {
    RowOk(past, job.bullet) && RefOk(past, job.ref, job.bullet.id) && Eligible(job.bullet)
  }

  ghost predicate JobsOk(past: seq<Event>, todo: seq<Job>) {
    forall i :: 0 <= i < |todo| ==> JobOk(past, todo[i])
  }

  ghost predicate SinceOk(past: seq<Event>, intent: string, since: nat) {
    since < |past| && past[since].RunBecame? && past[since].intent == intent
  }

  ghost predicate AdvanceOk(past: seq<Event>, intent: string, to: BulletStatus, since: nat) {
    && SinceOk(past, intent, since) && to in {Green, Blocked, BulletPending}
    && (to == Green ==> PassedRun(past, intent))
  }

  /** The outcome still has to rewrite this bullet, which it read as merged. */
  ghost predicate Covered(todo: seq<Bullet>, b: BulletID) {
    exists k :: 0 <= k < |todo| && todo[k].id == b && todo[k].status == Merged
  }

  /** A bullet the outcome has dealt with reads merged only by a merge since its run write. */
  ghost predicate WindowOk(s: Sys, intent: string, since: nat, todo: seq<Bullet>) {
    forall i :: 0 <= i < |s.bullets| && s.bullets[i].id.intent == intent && s.bullets[i].status == Merged ==>
      Covered(todo, s.bullets[i].id) || MergedSince(s.past, s.bullets[i].id, since)
  }

  ghost predicate ActorOk(s: Sys, a: Actor) {
    match a
    case Listing(intent, to, _, since) => AdvanceOk(s.past, intent, to, since)
    case Advancing(intent, to, _, since, todo) =>
      && AdvanceOk(s.past, intent, to, since) && WindowOk(s, intent, since, todo)
      && forall i :: 0 <= i < |todo| ==> todo[i].id.intent == intent
    case Deriving(intent, _, since) => SinceOk(s.past, intent, since) && WindowOk(s, intent, since, [])
    case Storing(intent, derived, since, at, read) =>
      && SinceOk(s.past, intent, since) && since < at <= |s.past|
      && (derived == Satisfied ==> read != [] && forall i :: 0 <= i < |read| ==> MergedSince(s.past[..at], read[i], since))
    case CheckListing(ref, intent) => RunCreated(ref.run, intent) in s.past && BaseSet(ref.run, ref.base) in s.past
    case SealReady(_, _, b) => BulletBecame(b, Green) in s.past
    case Sweeping(rows) => forall i :: 0 <= i < |rows| ==> RowOk(s.past, rows[i]) && Eligible(rows[i])
    case Checking(todo) => JobsOk(s.past, todo)
    case Discovered(ref, b, url, todo) =>
      && BulletBecame(b, Green) in s.past && url != "" && UrlSet(b, url) in s.past
      && RefOk(s.past, ref, b) && JobsOk(s.past, todo)
    case Asking(ref, b, url, todo) =>
      && BulletBecame(b, Sealed) in s.past && url != "" && UrlSet(b, url) in s.past
      && RefOk(s.past, ref, b) && JobsOk(s.past, todo)
    case Judging(ref, b, url, into, todo) =>
      && BulletBecame(b, Sealed) in s.past && url != "" && UrlSet(b, url) in s.past
      && MergeSeen(b, ref.run, url, into, ref.base) in s.past && JobsOk(s.past, todo)
    case _ => true
  }

  ghost predicate RowsOk(s: Sys) {
    forall i :: 0 <= i < |s.bullets| ==> RowOk(s.past, s.bullets[i])
  }

  ghost predicate RunsOk(s: Sys) {
    forall run :: run in s.runs ==>
      RunCreated(run, s.runs[run].intent) in s.past && BaseSet(run, s.runs[run].base) in s.past
  }

  ghost predicate Inv(s: Sys) {
    && HistoryOk(s.past) && RowsOk(s) && RunsOk(s)
    && forall id :: id in s.actors ==> ActorOk(s, s.actors[id])
  }

  // ---- how a step may change what others rely on

  /** The past is only added to, and a bullet becomes merged only with that event. */
  ghost predicate Evolves(s: Sys, s': Sys) {
    && s.past <= s'.past
    && forall i :: 0 <= i < |s'.bullets| && s'.bullets[i].status == Merged ==>
      || (i < |s.bullets| && s.bullets[i].id == s'.bullets[i].id && s.bullets[i].status == Merged)
      || (exists j :: |s.past| <= j < |s'.past| && s'.past[j] == BulletBecame(s'.bullets[i].id, Merged))
  }

  lemma StillIn(past: seq<Event>, past': seq<Event>, e: Event)
    requires past <= past' && e in past
    ensures e in past'
  {
    var i :| 0 <= i < |past| && past[i] == e;
    assert past'[i] == e;
  }

  lemma AllStillIn(past: seq<Event>, past': seq<Event>)
    requires past <= past'
    ensures forall e :: e in past ==> e in past'
  {
    forall e | e in past ensures e in past' {
      StillIn(past, past', e);
    }
  }

  lemma MergedSinceGrows(past: seq<Event>, past': seq<Event>, b: BulletID, since: nat)
    requires past <= past' && MergedSince(past, b, since)
    ensures MergedSince(past', b, since)
  {
    var j :| since < j < |past| && past[j] == BulletBecame(b, Merged);
    assert past'[j] == past[j];
  }

  lemma WindowEvolves(s: Sys, s': Sys, intent: string, since: nat, todo: seq<Bullet>)
    requires Evolves(s, s') && since < |s.past| && WindowOk(s, intent, since, todo)
    ensures WindowOk(s', intent, since, todo)
  {
    forall i | 0 <= i < |s'.bullets| && s'.bullets[i].id.intent == intent && s'.bullets[i].status == Merged
      ensures Covered(todo, s'.bullets[i].id) || MergedSince(s'.past, s'.bullets[i].id, since)
    {
      if i < |s.bullets| && s.bullets[i].id == s'.bullets[i].id && s.bullets[i].status == Merged {
        if !Covered(todo, s.bullets[i].id) {
          MergedSinceGrows(s.past, s'.past, s.bullets[i].id, since);
        }
      }
    }
  }

  lemma ActorEvolves(s: Sys, s': Sys, a: Actor)
    requires Evolves(s, s') && ActorOk(s, a)
    ensures ActorOk(s', a)
  {
    AllStillIn(s.past, s'.past);
    match a
    case Advancing(intent, to, _, since, todo) => WindowEvolves(s, s', intent, since, todo);
    case Deriving(intent, _, since) => WindowEvolves(s, s', intent, since, []);
    case Storing(intent, derived, since, at, read) => assert s'.past[..at] == s.past[..at];
    case _ =>
  }

  /** A step of one handler keeps the invariant when its own next state is fine. */
  lemma FrameKeeps(s: Sys, s': Sys, id: nat)
    requires Inv(s) && Evolves(s, s') && HistoryOk(s'.past) && RowsOk(s') && RunsOk(s')
    requires forall n :: n in s'.actors && n != id ==> n in s.actors && s'.actors[n] == s.actors[n]
    requires id in s'.actors ==> ActorOk(s', s'.actors[id])
    ensures Inv(s')
  {
    forall n | n in s'.actors ensures ActorOk(s', s'.actors[n]) {
      if n != id {
        ActorEvolves(s, s', s.actors[n]);
      }
    }
  }

  /** A handler's next step after what it did to the rows and the past. */
  lemma MovesOn(s: Sys, s1: Sys, id: nat, a: Actor)
    requires Inv(s) && Evolves(s, s1) && HistoryOk(s1.past) && RowsOk(s1) && RunsOk(s1)
    requires s1.actors == s.actors && ActorOk(s1, a)
    ensures Inv(At(s1, id, a))
  {
    var s' := At(s1, id, a);
    assert Evolves(s1, s');
    ActorEvolves(s1, s', a);
    FrameKeeps(s, s', id);
  }

  lemma HistoryGrows(past: seq<Event>, e: Event)
    requires HistoryOk(past) && Justified(past, e)
    ensures HistoryOk(past + [e])
  {
    assert (past + [e])[..|past|] == past;
  }

  // ---- each handler

  /** Writing a status with its event keeps every row accounted for. */
  lemma StatusWriteKeeps(s: Sys, b: BulletID, to: BulletStatus, bullets: seq<Bullet>)
    requires Inv(s) && Justified(s.past, BulletBecame(b, to))
    requires |bullets| == |s.bullets|
    requires forall i :: 0 <= i < |bullets| ==>
      && bullets[i].id == s.bullets[i].id && bullets[i].url == s.bullets[i].url
      && bullets[i].status == if s.bullets[i].id == b then to else s.bullets[i].status
    ensures var s' := Became(s, bullets, BulletBecame(b, to));
      Evolves(s, s') && HistoryOk(s'.past) && RowsOk(s') && RunsOk(s')
  {
    var s' := Became(s, bullets, BulletBecame(b, to));
    HistoryGrows(s.past, BulletBecame(b, to));
    AllStillIn(s.past, s'.past);
    assert s'.past[|s.past|] == BulletBecame(b, to);
    forall i | 0 <= i < |bullets| ensures RowOk(s'.past, bullets[i]) {
      assert RowOk(s.past, s.bullets[i]);
    }
  }

  lemma UrlWriteKeeps(s: Sys, b: BulletID, url: string)
    requires Inv(s)
    ensures var s' := Became(s, WithURL(s.bullets, b, url), UrlSet(b, url));
      Evolves(s, s') && HistoryOk(s'.past) && RowsOk(s') && RunsOk(s')
  {
    var bullets := WithURL(s.bullets, b, url);
    var s' := Became(s, bullets, UrlSet(b, url));
    HistoryGrows(s.past, UrlSet(b, url));
    AllStillIn(s.past, s'.past);
    assert s'.past[|s.past|] == UrlSet(b, url);
    forall i | 0 <= i < |bullets| ensures RowOk(s'.past, bullets[i]) {
      assert RowOk(s.past, s.bullets[i]);
    }
  }

  /** An event that is no bullet write only adds to the past. */
  lemma NoteKeeps(s: Sys, s': Sys, e: Event)
    requires Inv(s) && Justified(s.past, e) && s'.past == s.past + [e] && s'.bullets == s.bullets
    requires forall run :: run in s'.runs ==>
      run in s.runs && s'.runs[run].intent == s.runs[run].intent && s'.runs[run].base == s.runs[run].base
    ensures Evolves(s, s') && HistoryOk(s'.past) && RowsOk(s') && RunsOk(s')
  {
    HistoryGrows(s.past, e);
    AllStillIn(s.past, s'.past);
    forall i | 0 <= i < |s'.bullets| ensures RowOk(s'.past, s'.bullets[i]) {
      assert RowOk(s.past, s.bullets[i]);
    }
  }

  /** Right after the list, every merged bullet is one the outcome still has to rewrite. */
  lemma ListedWindow(s: Sys, intent: string, since: nat)
    ensures WindowOk(s, intent, since, BulletsOf(s.bullets, intent))
  {
    var todo := BulletsOf(s.bullets, intent);
    BulletsOfMeans(s.bullets, intent);
    forall i | 0 <= i < |s.bullets| && s.bullets[i].id.intent == intent && s.bullets[i].status == Merged
      ensures Covered(todo, s.bullets[i].id)
    {
      assert s.bullets[i] in todo;
      var k :| 0 <= k < |todo| && todo[k] == s.bullets[i];
    }
  }

  lemma CoveredRest(todo: seq<Bullet>, b: BulletID)
    requires todo != [] && Covered(todo, b)
    ensures (todo[0].id == b && todo[0].status == Merged) || Covered(todo[1..], b)
  {
    var k :| 0 <= k < |todo| && todo[k].id == b && todo[k].status == Merged;
    if k > 0 {
      assert todo[1..][k - 1] == todo[k];
    }
  }

  /** The next bullet of a list is dealt with: it is skipped, or no longer merged. */
  lemma WindowRest(s: Sys, intent: string, since: nat, todo: seq<Bullet>)
    requires todo != [] && WindowOk(s, intent, since, todo)
    requires todo[0].status != Merged
      || forall i :: 0 <= i < |s.bullets| && s.bullets[i].id == todo[0].id ==> s.bullets[i].status != Merged
    ensures WindowOk(s, intent, since, todo[1..])
  {
    forall i | 0 <= i < |s.bullets| && s.bullets[i].id.intent == intent && s.bullets[i].status == Merged
      ensures Covered(todo[1..], s.bullets[i].id) || MergedSince(s.past, s.bullets[i].id, since)
    {
      if Covered(todo, s.bullets[i].id) {
        CoveredRest(todo, s.bullets[i].id);
      }
    }
  }

  lemma AdvanceWrites(s: Sys, a: Actor) returns (s1: Sys)
    requires Inv(s) && a.Advancing? && a.todo != [] && ActorOk(s, a)
    ensures var b := a.todo[0]; s1 == Became(s, WithReason(s.bullets, b.id, a.to, a.reason), BulletBecame(b.id, a.to))
    ensures Evolves(s, s1) && HistoryOk(s1.past) && RowsOk(s1) && RunsOk(s1) && ActorOk(s1, a.(todo := a.todo[1..]))
  {
    var b := a.todo[0];
    s1 := Became(s, WithReason(s.bullets, b.id, a.to, a.reason), BulletBecame(b.id, a.to));
    StatusWriteKeeps(s, b.id, a.to, WithReason(s.bullets, b.id, a.to, a.reason));
    ActorEvolves(s, s1, a);
    WindowRest(s1, a.intent, a.since, a.todo);
  }

  lemma AdvanceGoes(s: Sys, id: nat, a: Actor)
    requires Inv(s) && a.Advancing? && a.todo != [] && ActorOk(s, a)
    ensures Inv(GoOutcome(s, id, a))
  {
    var b := a.todo[0];
    if b.status == a.to && b.reason == a.reason {
      WindowRest(s, a.intent, a.since, a.todo);
      MovesOn(s, s, id, a.(todo := a.todo[1..]));
    } else {
      var s1 := AdvanceWrites(s, a);
      MovesOn(s, s1, id, a.(todo := a.todo[1..]));
    }
  }

  /** Deriving satisfied means that every bullet read was merged since the run write. */
  lemma DeriveGoes(s: Sys, id: nat, a: Actor)
    requires Inv(s) && id in s.actors && s.actors[id] == a && a.Deriving?
    ensures Inv(GoOutcome(s, id, a))
  {
    assert ActorOk(s, a);
    var mine := BulletsOf(s.bullets, a.intent);
    BulletsOfMeans(s.bullets, a.intent);
    if DeriveIntentStatus(mine) == Satisfied {
      forall i | 0 <= i < |mine| ensures MergedSince(s.past, mine[i].id, a.since) {
        assert mine[i] in mine && mine[i].status == Merged;
        var k :| 0 <= k < |s.bullets| && s.bullets[k] == mine[i];
        assert !Covered([], mine[i].id);
      }
    }
    assert s.past[..|s.past|] == s.past;
    FrameKeeps(s, GoOutcome(s, id, a), id);
  }

  lemma RunWriteKeeps(s: Sys, run: string, status: RunStatus) returns (s1: Sys)
    requires Inv(s) && run in s.runs
    ensures var e := RunBecame(run, s.runs[run].intent, status);
      && s1 == s.(runs := s.runs[run := s.runs[run].(status := status)], past := s.past + [e])
      && s1.past[|s.past|] == e && e in s1.past
    ensures Evolves(s, s1) && HistoryOk(s1.past) && RowsOk(s1) && RunsOk(s1)
  {
    var e := RunBecame(run, s.runs[run].intent, status);
    s1 := s.(runs := s.runs[run := s.runs[run].(status := status)], past := s.past + [e]);
    NoteKeeps(s, s1, e);
    assert s1.past[|s.past|] == e;
  }

  lemma ConcludeGoes(s: Sys, id: nat, a: Actor)
    requires Inv(s) && id in s.actors && s.actors[id] == a && a.Concluding?
    ensures Inv(GoOutcome(s, id, a))
  {
    if a.run !in s.runs {
      MovesOn(s, s, id, Done);
    } else {
      var intent, to := s.runs[a.run].intent, BulletStatusForRunOutcome(a.status);
      var s1 := RunWriteKeeps(s, a.run, a.status);
      if to.None? || intent == "" {
        MovesOn(s, s1, id, Done);
      } else {
        MovesOn(s, s1, id, Listing(intent, to.value, if to.value == Blocked then a.reason else "", |s.past|));
      }
    }
  }

  lemma ListingGoes(s: Sys, id: nat, a: Actor)
    requires Inv(s) && id in s.actors && s.actors[id] == a && a.Listing?
    ensures Inv(GoOutcome(s, id, a))
  {
    assert ActorOk(s, a);
    var todo := BulletsOf(s.bullets, a.intent);
    ListedWindow(s, a.intent, a.since);
    BulletsOfMeans(s.bullets, a.intent);
    forall i | 0 <= i < |todo| ensures todo[i].id.intent == a.intent {
      assert todo[i] in todo;
    }
    MovesOn(s, s, id, Advancing(a.intent, a.to, a.reason, a.since, todo));
  }

  lemma StoringGoes(s: Sys, id: nat, a: Actor)
    requires Inv(s) && id in s.actors && s.actors[id] == a && a.Storing?
    ensures Inv(GoOutcome(s, id, a))
  {
    assert ActorOk(s, a);
    var e := IntentBecame(a.intent, a.derived, a.since, a.at, a.read);
    var s1 := s.(intents := s.intents[a.intent := a.derived], past := s.past + [e]);
    NoteKeeps(s, s1, e);
    MovesOn(s, s1, id, Done);
  }

  lemma OutcomeGoes(s: Sys, id: nat, a: Actor)
    requires Inv(s) && id in s.actors && s.actors[id] == a
    requires a.Concluding? || a.Listing? || a.Advancing? || a.Deriving? || a.Storing?
    ensures Inv(GoOutcome(s, id, a))
  {
    assert ActorOk(s, a);
    match a
    case Concluding(_, _, _) => ConcludeGoes(s, id, a);
    case Listing(_, _, _, _) => ListingGoes(s, id, a);
    case Advancing(intent, _, _, since, todo) =>
      if todo == [] {
        MovesOn(s, s, id, if intent in s.intents then Deriving(intent, s.intents[intent], since) else Done);
      } else {
        AdvanceGoes(s, id, a);
      }
    case Deriving(_, _, _) => DeriveGoes(s, id, a);
    case Storing(_, _, _, _, _) => StoringGoes(s, id, a);
  }

  lemma SealListingGoes(s: Sys, id: nat, intent: string, repo: string)
    requires Inv(s)
    ensures Inv(GoSeal(s, id, SealListing(intent, repo), ""))
  {
    BulletsOfMeans(s.bullets, intent);
    FirstOfRepoMeans(BulletsOf(s.bullets, intent), repo);
    var b := FirstOfRepo(BulletsOf(s.bullets, intent), repo);
    if b.Some? && b.value.status == Green {
      assert RowOk(s.past, b.value);
      MovesOn(s, s, id, SealReady(intent, repo, b.value.id));
    } else {
      MovesOn(s, s, id, Done);
    }
  }

  lemma SealGoes(s: Sys, id: nat, a: Actor, url: string)
    requires Inv(s) && id in s.actors && s.actors[id] == a
    requires a.SealAsked? || a.SealListing? || a.SealReady? || a.SealDone? || a.Linking?
    ensures Inv(GoSeal(s, id, a, url))
  {
    assert ActorOk(s, a);
    match a
    case SealAsked(run, repo) =>
      MovesOn(s, s, id, if run !in s.runs || s.runs[run].intent == "" then Done else SealListing(s.runs[run].intent, repo));
    case SealListing(intent, repo) => SealListingGoes(s, id, intent, repo);
    case SealReady(intent, repo, b) =>
      StatusWriteKeeps(s, b, Sealed, WithStatus(s.bullets, b, Sealed));
      MovesOn(s, Became(s, WithStatus(s.bullets, b, Sealed), BulletBecame(b, Sealed)), id, SealDone(intent, repo));
    case SealDone(intent, repo) =>
      var b := FirstOfRepo(BulletsOf(s.bullets, intent), repo);
      MovesOn(s, s, id, if b.Some? then Linking(b.value.id) else Done);
    case Linking(b) =>
      if url == "" {
        MovesOn(s, s, id, Done);
      } else {
        UrlWriteKeeps(s, b, url);
        MovesOn(s, Became(s, WithURL(s.bullets, b, url), UrlSet(b, url)), id, Done);
      }
  }

  lemma {:induction false} JobsAreOk(past: seq<Event>, ref: Ref, bullets: seq<Bullet>)
    requires forall i :: 0 <= i < |bullets| ==> RowOk(past, bullets[i]) && RefOk(past, ref, bullets[i].id)
    ensures JobsOk(past, Jobs(ref, bullets))
  {
    if bullets != [] {
      JobsAreOk(past, ref, bullets[1..]);
    }
  }

  lemma {:induction false} SweepJobsAreOk(s: Sys, refs: map<string, string>, bullets: seq<Bullet>)
    requires RunsOk(s)
    requires forall i :: 0 <= i < |bullets| ==> RowOk(s.past, bullets[i]) && Eligible(bullets[i])
    ensures JobsOk(s.past, SweepJobs(s.runs, refs, bullets))
  {
    if bullets != [] {
      SweepJobsAreOk(s, refs, bullets[1..]);
    }
  }

  lemma {:induction false} SealedWithURLAreOk(past: seq<Event>, bullets: seq<Bullet>)
    requires forall i :: 0 <= i < |bullets| ==> RowOk(past, bullets[i])
    ensures forall i :: 0 <= i < |SealedWithURL(bullets)| ==>
      RowOk(past, SealedWithURL(bullets)[i]) && Eligible(SealedWithURL(bullets)[i])
  {
    if bullets != [] {
      SealedWithURLAreOk(past, bullets[1..]);
    }
  }

  lemma CheckListingGoes(s: Sys, id: nat, ref: Ref, intent: string, reply: Reply)
    requires Inv(s) && RunCreated(ref.run, intent) in s.past && BaseSet(ref.run, ref.base) in s.past
    ensures Inv(GoCheck(s, id, CheckListing(ref, intent), reply))
  {
    var mine := BulletsOf(s.bullets, intent);
    BulletsOfMeans(s.bullets, intent);
    forall i | 0 <= i < |mine| ensures RowOk(s.past, mine[i]) && RefOk(s.past, ref, mine[i].id) {
      assert mine[i] in mine;
    }
    JobsAreOk(s.past, ref, mine);
    MovesOn(s, s, id, Checking(Jobs(ref, mine)));
  }

  lemma ListForCheckGoes(s: Sys, id: nat, a: Actor, reply: Reply)
    requires Inv(s) && ActorOk(s, a) && (a.CheckAsked? || a.CheckListing? || a.SweepAsked? || a.Sweeping?)
    ensures Inv(GoCheck(s, id, a, reply))
  {
    match a
    case CheckAsked(run) =>
      MovesOn(s, s, id, if run !in s.runs || s.runs[run].intent == "" then Done
                        else CheckListing(Ref(run, s.runs[run].base), s.runs[run].intent));
    case CheckListing(ref, intent) => CheckListingGoes(s, id, ref, intent, reply);
    case SweepAsked =>
      SealedWithURLAreOk(s.past, s.bullets);
      MovesOn(s, s, id, Sweeping(SealedWithURL(s.bullets)));
    case Sweeping(rows) =>
      SweepJobsAreOk(s, reply.refs, rows);
      MovesOn(s, s, id, Checking(SweepJobs(s.runs, reply.refs, rows)));
  }

  /** Jobs read earlier stay fine as the past grows. */
  lemma JobsGrow(past: seq<Event>, past': seq<Event>, jobs: seq<Job>)
    requires past <= past' && JobsOk(past, jobs)
    ensures JobsOk(past', jobs)
  {
    AllStillIn(past, past');
  }

  lemma CheckingGoes(s: Sys, id: nat, jobs: seq<Job>, reply: Reply)
    requires Inv(s) && JobsOk(s.past, jobs)
    ensures Inv(GoCheck(s, id, Checking(jobs), reply))
  {
    if jobs == [] {
      MovesOn(s, s, id, Done);
    } else {
      var ref, b := jobs[0].ref, jobs[0].bullet;
      assert JobOk(s.past, jobs[0]);
      if b.url != "" {
        MovesOn(s, s, id, Asking(ref, b.id, b.url, jobs[1..]));
      } else if reply.url == "" {
        MovesOn(s, s, id, Checking(jobs[1..]));
      } else {
        var s1 := Became(s, WithURL(s.bullets, b.id, reply.url), UrlSet(b.id, reply.url));
        UrlWriteKeeps(s, b.id, reply.url);
        JobsGrow(s.past, s1.past, jobs[1..]);
        AllStillIn(s.past, s1.past);
        assert s1.past[|s.past|] == UrlSet(b.id, reply.url);
        MovesOn(s, s1, id, Discovered(ref, b.id, reply.url, jobs[1..]));
      }
    }
  }

  lemma DiscoveredGoes(s: Sys, id: nat, a: Actor, reply: Reply)
    requires Inv(s) && a.Discovered? && ActorOk(s, a)
    ensures Inv(GoCheck(s, id, a, reply))
  {
    var s1 := Became(s, WithReason(s.bullets, a.bullet, Sealed, ""), BulletBecame(a.bullet, Sealed));
    StatusWriteKeeps(s, a.bullet, Sealed, WithReason(s.bullets, a.bullet, Sealed, ""));
    JobsGrow(s.past, s1.past, a.jobs);
    AllStillIn(s.past, s1.past);
    assert s1.past[|s.past|] == BulletBecame(a.bullet, Sealed);
    MovesOn(s, s1, id, Asking(a.ref, a.bullet, a.url, a.jobs));
  }

  lemma AskingGoes(s: Sys, id: nat, a: Actor, reply: Reply)
    requires Inv(s) && a.Asking? && ActorOk(s, a)
    ensures Inv(GoCheck(s, id, a, reply))
  {
    if reply.into.None? {
      MovesOn(s, s, id, Checking(a.jobs));
    } else {
      var e := MergeSeen(a.bullet, a.ref.run, a.url, reply.into.value, a.ref.base);
      var s1 := s.(past := s.past + [e]);
      NoteKeeps(s, s1, e);
      JobsGrow(s.past, s1.past, a.jobs);
      AllStillIn(s.past, s1.past);
      assert s1.past[|s.past|] == e;
      MovesOn(s, s1, id, Judging(a.ref, a.bullet, a.url, reply.into.value, a.jobs));
    }
  }

  lemma JudgingGoes(s: Sys, id: nat, a: Actor, reply: Reply)
    requires Inv(s) && a.Judging? && ActorOk(s, a)
    ensures Inv(GoCheck(s, id, a, reply))
  {
    var to := if a.into == a.ref.base then Merged else Blocked;
    var reason := if a.into == a.ref.base then "" else Lifecycle.MismatchReason(a.into, a.ref.base);
    var s1 := Became(s, WithReason(s.bullets, a.bullet, to, reason), BulletBecame(a.bullet, to));
    assert a.into == a.ref.base ==> SeenMerged(s.past, a.bullet);
    StatusWriteKeeps(s, a.bullet, to, WithReason(s.bullets, a.bullet, to, reason));
    JobsGrow(s.past, s1.past, a.jobs);
    MovesOn(s, s1, id, Checking(a.jobs));
  }

  lemma OtherGoes(s: Sys, id: nat, a: Actor)
    requires Inv(s)
    requires a.ResumeAsked? || a.ResumeListing? || a.Clearing? || a.ApproveAsked? || a.ApproveListing? || a.Releasing?
      || a.RejectAsked? || a.Rejecting?
    ensures Inv(GoOther(s, id, a))
  {
    match a
    case Clearing(run, ids) => ClearingGoes(s, id, run, ids);
    case Releasing(intent, ids, begun) => ReleasingGoes(s, id, intent, ids, begun);
    case Rejecting(intent) => MovesOn(s, s.(intents := s.intents[intent := Abandoned]), id, Done);
    case ResumeAsked(run, targeted) =>
      if run !in s.runs || !IsResumable(s.runs[run].status) {
        MovesOn(s, s, id, Done);
      } else if s.runs[run].intent == "" {
        MovesOn(s, s, id, Clearing(run, []));
      } else {
        MovesOn(s, s, id, ResumeListing(run, s.runs[run].intent, targeted));
      }
    case ResumeListing(run, intent, targeted) =>
      MovesOn(s, s, id, Clearing(run, BlockedIDs(BulletsOf(s.bullets, intent), targeted)));
    case ApproveAsked(intent) =>
      MovesOn(s, s, id, if intent !in s.intents || s.intents[intent] != PlanProposed then Done else ApproveListing(intent));
    case ApproveListing(intent) => MovesOn(s, s, id, Releasing(intent, IDs(BulletsOf(s.bullets, intent)), false));
    case RejectAsked(intent) =>
      MovesOn(s, s, id, if intent !in s.intents || s.intents[intent] != PlanProposed then Done else Rejecting(intent));
  }

  lemma ClearingGoes(s: Sys, id: nat, run: string, ids: seq<BulletID>)
    requires Inv(s)
    ensures Inv(GoOther(s, id, Clearing(run, ids)))
  {
    if ids != [] {
      StatusWriteKeeps(s, ids[0], BulletPending, WithReason(s.bullets, ids[0], BulletPending, ""));
      MovesOn(s, Became(s, WithReason(s.bullets, ids[0], BulletPending, ""), BulletBecame(ids[0], BulletPending)), id,
              Clearing(run, ids[1..]));
    } else if run !in s.runs {
      MovesOn(s, s, id, Done);
    } else {
      var e := RunBecame(run, s.runs[run].intent, Running);
      var s1 := s.(runs := s.runs[run := s.runs[run].(status := Running)], past := s.past + [e]);
      NoteKeeps(s, s1, e);
      MovesOn(s, s1, id, Done);
    }
  }

  lemma ReleasingGoes(s: Sys, id: nat, intent: string, ids: seq<BulletID>, begun: bool)
    requires Inv(s)
    ensures Inv(GoOther(s, id, Releasing(intent, ids, begun)))
  {
    if !begun {
      MovesOn(s, s.(intents := s.intents[intent := InProgress]), id, Releasing(intent, ids, true));
    } else if ids == [] {
      MovesOn(s, s, id, Done);
    } else {
      StatusWriteKeeps(s, ids[0], BulletPending, WithStatus(s.bullets, ids[0], BulletPending));
      MovesOn(s, Became(s, WithStatus(s.bullets, ids[0], BulletPending), BulletBecame(ids[0], BulletPending)), id,
              Releasing(intent, ids[1..], true));
    }
  }

  lemma CreateRunKeeps(s: Sys, run: string, intent: string, base: string)
    requires Inv(s) && run !in s.runs
    ensures Inv(Next(s, CreateRun(run, intent, base)))
  {
    var s' := Next(s, CreateRun(run, intent, base));
    HistoryGrows(s.past, RunCreated(run, intent));
    HistoryGrows(s.past + [RunCreated(run, intent)], BaseSet(run, base));
    assert s'.past == s.past + [RunCreated(run, intent)] + [BaseSet(run, base)];
    AllStillIn(s.past, s'.past);
    assert s'.past[|s.past|] == RunCreated(run, intent) && s'.past[|s.past| + 1] == BaseSet(run, base);
    forall i | 0 <= i < |s'.bullets| ensures RowOk(s'.past, s'.bullets[i]) {
      assert RowOk(s.past, s.bullets[i]);
    }
    var id := Spare(s.actors);
    FrameKeeps(s, s', id);
  }

  lemma SetBaseKeeps(s: Sys, run: string, base: string)
    requires Inv(s) && run in s.runs
    ensures Inv(Next(s, SetBase(run, base)))
  {
    var s' := Next(s, SetBase(run, base));
    HistoryGrows(s.past, BaseSet(run, base));
    AllStillIn(s.past, s'.past);
    assert s'.past[|s.past|] == BaseSet(run, base);
    forall i | 0 <= i < |s'.bullets| ensures RowOk(s'.past, s'.bullets[i]) {
      assert RowOk(s.past, s.bullets[i]);
    }
    var id := Spare(s.actors);
    FrameKeeps(s, s', id);
  }

  /** Intents may change without anything else noticing. */
  lemma IntentsKeep(s: Sys, intents: map<string, IntentStatus>)
    requires Inv(s)
    ensures Inv(s.(intents := intents))
  {
    var id := Spare(s.actors);
    FrameKeeps(s, s.(intents := intents), id);
  }

  lemma CreatedKeeps(s: Sys, b: Bullet)
    requires Inv(s) && b.status in {BulletProposed, BulletPending} && b.url == ""
    ensures Inv(s.(bullets := s.bullets + [b], past := s.past + [BulletCreated(b.id, b.status)]))
  {
    var e := BulletCreated(b.id, b.status);
    var s' := s.(bullets := s.bullets + [b], past := s.past + [e]);
    HistoryGrows(s.past, e);
    AllStillIn(s.past, s'.past);
    forall i | 0 <= i < |s'.bullets| ensures RowOk(s'.past, s'.bullets[i]) {
      assert i < |s.bullets| ==> RowOk(s.past, s.bullets[i]);
    }
    var id := Spare(s.actors);
    FrameKeeps(s, s', id);
  }

  lemma CreateBulletKeeps(s: Sys, b: BulletID, repo: string, proposed: bool)
    requires Inv(s)
    ensures Inv(Next(s, CreateBullet(b, repo, proposed)))
  {
    CreatedKeeps(s, Bullet(b, repo, if proposed then BulletProposed else BulletPending, "", ""));
  }

  lemma BeginKeeps(s: Sys, id: nat, a: Actor)
    requires Inv(s) && Starts(a)
    ensures Inv(At(s, id, a))
  {
    FrameKeeps(s, At(s, id, a), id);
  }

  lemma GoKeeps(s: Sys, id: nat, reply: Reply)
    requires Inv(s) && id in s.actors
    ensures Inv(Goes(s, id, s.actors[id], reply))
  {
    var a := s.actors[id];
    assert ActorOk(s, a);
    if a.Concluding? || a.Listing? || a.Advancing? || a.Deriving? || a.Storing? {
      OutcomeGoes(s, id, a);
    } else if a.SealAsked? || a.SealListing? || a.SealReady? || a.SealDone? || a.Linking? {
      SealGoes(s, id, a, reply.url);
    } else if a.CheckAsked? || a.CheckListing? || a.SweepAsked? || a.Sweeping? {
      ListForCheckGoes(s, id, a, reply);
    } else {
      match a
      case Checking(jobs) => CheckingGoes(s, id, jobs, reply);
      case Discovered(_, _, _, _) => DiscoveredGoes(s, id, a, reply);
      case Asking(_, _, _, _) => AskingGoes(s, id, a, reply);
      case Judging(_, _, _, _, _) => JudgingGoes(s, id, a, reply);
      case Done =>
      case _ => OtherGoes(s, id, a);
    }
  }

  lemma NextKeeps(s: Sys, step: Step)
    requires Inv(s)
    ensures Inv(Next(s, step))
  {
    match step
    case CreateRun(run, intent, base) => if run !in s.runs { CreateRunKeeps(s, run, intent, base); }
    case SetBase(run, base) => if run in s.runs { SetBaseKeeps(s, run, base); }
    case CreateIntent(intent, proposed) => IntentsKeep(s, s.intents[intent := if proposed then PlanProposed else InProgress]);
    case CreateBullet(b, repo, proposed) => CreateBulletKeeps(s, b, repo, proposed);
    case Begin(id, actor) => if Starts(actor) { BeginKeeps(s, id, actor); }
    case Go(id, reply) => if id in s.actors { GoKeeps(s, id, reply); }
  }

  lemma {:induction false} RunKeeps(steps: seq<Step>)
    ensures Inv(RunAll(steps))
  {
    if steps != [] {
      RunKeeps(steps[..|steps| - 1]);
      NextKeeps(RunAll(steps[..|steps| - 1]), steps[|steps| - 1]);
    }
  }

  // ---- the theorems

  lemma {:induction false} HistoryAt(past: seq<Event>, k: nat)
    requires HistoryOk(past) && k < |past|
    ensures HistoryOk(past[..k]) && Justified(past[..k], past[k])
  {
    var n := |past| - 1;
    if k < n {
      HistoryAt(past[..n], k);
      assert past[..n][..k] == past[..k];
    }
  }

  /** Every sealed is preceded by a green of the same bullet, however stale the read that
      sealed it. */
  lemma SealedAfterGreen(steps: seq<Step>, k: nat, b: BulletID)
    requires k < |RunAll(steps).past| && RunAll(steps).past[k] == BulletBecame(b, Sealed)
    ensures exists j :: 0 <= j < k && RunAll(steps).past[j] == BulletBecame(b, Green)
  {
    RunKeeps(steps);
    var past := RunAll(steps).past;
    HistoryAt(past, k);
    var j :| 0 <= j < |past[..k]| && past[..k][j] == BulletBecame(b, Green);
    assert past[j] == past[..k][j];
  }

  /** Every green is preceded by a passed status on a run naming the bullet's intent. */
  lemma GreenAfterPassed(steps: seq<Step>, k: nat, b: BulletID)
    requires k < |RunAll(steps).past| && RunAll(steps).past[k] == BulletBecame(b, Green)
    ensures exists j, run :: 0 <= j < k && RunAll(steps).past[j] == RunBecame(run, b.intent, Passed)
  {
    RunKeeps(steps);
    var past := RunAll(steps).past;
    HistoryAt(past, k);
    var run :| RunBecame(run, b.intent, Passed) in past[..k];
    var j :| 0 <= j < |past[..k]| && past[..k][j] == RunBecame(run, b.intent, Passed);
    assert past[j] == past[..k][j];
  }

  /** The URL was recorded for the bullet and seen merged into the base of a run of its intent. */
  ghost predicate ShownMerged(past: seq<Event>, b: BulletID, run: string, url: string, base: string) {
    && url != "" && UrlSet(b, url) in past && MergeSeen(b, run, url, base, base) in past
    && RunCreated(run, b.intent) in past && BaseSet(run, base) in past
  }

  /** Every merged is preceded by a sealed of the same bullet, by a non-empty URL recorded
      for it, and by that URL being seen merged into a branch that was the base of a run
      naming the bullet's intent. */
  lemma MergedAfterSealed(steps: seq<Step>, k: nat, b: BulletID)
    requires k < |RunAll(steps).past| && RunAll(steps).past[k] == BulletBecame(b, Merged)
    ensures var earlier := RunAll(steps).past[..k];
      && BulletBecame(b, Sealed) in earlier
      && exists run, url, base :: ShownMerged(earlier, b, run, url, base)
  {
    RunKeeps(steps);
    var past := RunAll(steps).past;
    HistoryAt(past, k);
    var run, url, base :| url != "" && UrlSet(b, url) in past[..k] && MergeSeen(b, run, url, base, base) in past[..k];
    var seen := MergeSeen(b, run, url, base, base);
    var j :| 0 <= j < k && past[j] == seen;
    HistoryAt(past, j);
    assert past[..j] <= past[..k];
    AllStillIn(past[..j], past[..k]);
    assert ShownMerged(past[..k], b, run, url, base);
  }

  ghost predicate MergedWithin(past: seq<Event>, b: BulletID, since: int, at: int) {
    exists j :: since < j < at && 0 <= j < |past| && past[j] == BulletBecame(b, Merged)
  }

  lemma MergesInWindow(past: seq<Event>, k: nat, intent: string, since: nat, at: nat, read: seq<BulletID>)
    requires HistoryOk(past) && k < |past| && past[k] == IntentBecame(intent, Satisfied, since, at, read)
    ensures since < at <= k && past[since].RunBecame? && past[since].intent == intent && read != []
    ensures forall i :: 0 <= i < |read| ==> MergedWithin(past, read[i], since, at)
  {
    HistoryAt(past, k);
    forall i | 0 <= i < |read| ensures MergedWithin(past, read[i], since, at) {
      assert past[..k][..at] == past[..at];
      var j :| since < j < |past[..at]| && past[..at][j] == BulletBecame(read[i], Merged);
      assert past[j] == past[..at][j];
    }
  }

  /** A run outcome makes an intent satisfied only together with merges observed while it was
      being recorded: every bullet it read became merged between its own run write and that
      read. */
  lemma SatisfiedOnlyByMerges(steps: seq<Step>, k: nat, intent: string, since: nat, at: nat, read: seq<BulletID>)
    requires k < |RunAll(steps).past|
    requires RunAll(steps).past[k] == IntentBecame(intent, Satisfied, since, at, read)
    ensures var past := RunAll(steps).past;
      && since < at <= k && past[since].RunBecame? && past[since].intent == intent && read != []
      && forall i :: 0 <= i < |read| ==> MergedWithin(past, read[i], since, at)
  {
    RunKeeps(steps);
    MergesInWindow(RunAll(steps).past, k, intent, since, at, read);
  }

  /** So without a merge in that window, no run outcome ever makes an intent satisfied. */
  lemma OutcomeAloneNeverSatisfies(steps: seq<Step>, k: nat, intent: string, since: nat, at: nat, derived: IntentStatus,
                                   read: seq<BulletID>)
    requires k < |RunAll(steps).past|
    requires RunAll(steps).past[k] == IntentBecame(intent, derived, since, at, read)
    ensures since < at <= k
    ensures (forall j, b :: since < j < at ==> RunAll(steps).past[j] != BulletBecame(b, Merged)) ==> derived != Satisfied
  {
    RunKeeps(steps);
    HistoryAt(RunAll(steps).past, k);
    if derived == Satisfied {
      SatisfiedOnlyByMerges(steps, k, intent, since, at, read);
      assert MergedWithin(RunAll(steps).past, read[0], since, at);
      var j :| since < j < at && RunAll(steps).past[j] == BulletBecame(read[0], Merged);
    }
  }

  /** What a bullet reads now was written: green, sealed and merged rows have their history. */
  lemma RowsHaveHistory(steps: seq<Step>, b: Bullet)
    requires b in RunAll(steps).bullets
    ensures b.status == Merged ==> BulletBecame(b.id, Merged) in RunAll(steps).past
    ensures b.status == Sealed ==> BulletBecame(b.id, Sealed) in RunAll(steps).past
    ensures b.status == Green ==> BulletBecame(b.id, Green) in RunAll(steps).past
  {
    RunKeeps(steps);
    var i :| 0 <= i < |RunAll(steps).bullets| && RunAll(steps).bullets[i] == b;
    assert RowOk(RunAll(steps).past, b);
  }

  // ---- what a derive reads is what the history says

  /** The last status written for a bullet. */
  function LastStatus(past: seq<Event>, b: BulletID): Option<BulletStatus> {
    if past == [] then None
    else
      var e := past[|past| - 1];
      if (e.BulletCreated? || e.BulletBecame?) && e.bullet == b then Some(e.to) else LastStatus(past[..|past| - 1], b)
  }

  ghost predicate Created(past: seq<Event>, b: BulletID) {
    exists to :: BulletCreated(b, to) in past
  }

  predicate HasRow(bullets: seq<Bullet>, b: BulletID) {
    exists i :: 0 <= i < |bullets| && bullets[i].id == b
  }

  /** The bullets read are all that were created for the intent, and it is satisfied exactly
      when there are some and each was last written merged. */
  ghost predicate DerivedFrom(past: seq<Event>, intent: string, derived: IntentStatus, read: seq<BulletID>) {
    && (forall b :: b in read <==> b.intent == intent && Created(past, b))
    && (derived == Satisfied <==> read != [] && forall i :: 0 <= i < |read| ==> LastStatus(past, read[i]) == Some(Merged))
  }

  ghost predicate RowsTrue(past: seq<Event>, bullets: seq<Bullet>) {
    && (forall i :: 0 <= i < |bullets| ==> LastStatus(past, bullets[i].id) == Some(bullets[i].status))
    && (forall b :: HasRow(bullets, b) <==> Created(past, b))
  }

  ghost predicate DerivesTrue(past: seq<Event>) {
    forall k :: 0 <= k < |past| && past[k].IntentBecame? ==>
      past[k].at <= k && DerivedFrom(past[..past[k].at], past[k].intent, past[k].derived, past[k].read)
  }

  ghost predicate StoringTrue(past: seq<Event>, a: Actor) {
    a.Storing? ==> a.at <= |past| && DerivedFrom(past[..a.at], a.intent, a.derived, a.read)
  }

  ghost predicate Truth(s: Sys) {
    && RowsTrue(s.past, s.bullets) && DerivesTrue(s.past)
    && forall id :: id in s.actors ==> StoringTrue(s.past, s.actors[id])
  }

  /** What a step writes: one status with its event, one new row with its event, or events
      that leave every row's status alone. */
  ghost predicate WritesStatus(s: Sys, s': Sys, e: Event) {
    && e.BulletBecame? && s'.past == s.past + [e] && |s'.bullets| == |s.bullets|
    && forall i :: 0 <= i < |s.bullets| ==>
      && s'.bullets[i].id == s.bullets[i].id
      && s'.bullets[i].status == if s.bullets[i].id == e.bullet then e.to else s.bullets[i].status
  }

  ghost predicate WritesRow(s: Sys, s': Sys, e: Event) {
    && e.BulletCreated? && s'.past == s.past + [e] && !HasRow(s.bullets, e.bullet)
    && |s'.bullets| == |s.bullets| + 1 && s'.bullets[..|s.bullets|] == s.bullets
    && s'.bullets[|s.bullets|].id == e.bullet && s'.bullets[|s.bullets|].status == e.to
  }

  ghost predicate SameStatuses(s: Sys, s': Sys) {
    && |s'.bullets| == |s.bullets|
    && forall i :: 0 <= i < |s.bullets| ==> s'.bullets[i].id == s.bullets[i].id && s'.bullets[i].status == s.bullets[i].status
  }

  ghost predicate WritesNoStatus(s: Sys, s': Sys, e: Event) {
    !e.BulletBecame? && !e.BulletCreated? && s'.past == s.past + [e] && SameStatuses(s, s')
  }

  lemma LastStatusGrows(past: seq<Event>, e: Event, b: BulletID)
    ensures LastStatus(past + [e], b)
         == if (e.BulletCreated? || e.BulletBecame?) && e.bullet == b then Some(e.to) else LastStatus(past, b)
  {
    assert (past + [e])[..|past|] == past;
  }

  lemma CreatedGrows(past: seq<Event>, e: Event, b: BulletID)
    ensures Created(past + [e], b) <==> Created(past, b) || (e.BulletCreated? && e.bullet == b)
  {
    if Created(past, b) {
      var to :| BulletCreated(b, to) in past;
      assert BulletCreated(b, to) in past + [e];
    }
    if e.BulletCreated? && e.bullet == b {
      assert BulletCreated(b, e.to) in past + [e];
    }
  }

  lemma StatusKeepsRows(s: Sys, s': Sys, e: Event)
    requires RowsTrue(s.past, s.bullets) && (WritesStatus(s, s', e) || WritesNoStatus(s, s', e))
    ensures RowsTrue(s'.past, s'.bullets)
  {
    forall i | 0 <= i < |s'.bullets| ensures LastStatus(s'.past, s'.bullets[i].id) == Some(s'.bullets[i].status) {
      LastStatusGrows(s.past, e, s.bullets[i].id);
    }
    forall b ensures HasRow(s'.bullets, b) <==> Created(s'.past, b) {
      CreatedGrows(s.past, e, b);
      assert HasRow(s'.bullets, b) <==> HasRow(s.bullets, b);
    }
  }

  lemma NewRowKeepsRows(s: Sys, s': Sys, e: Event)
    requires RowsTrue(s.past, s.bullets) && WritesRow(s, s', e)
    ensures RowsTrue(s'.past, s'.bullets)
  {
    var n := |s.bullets|;
    forall i | 0 <= i < |s'.bullets| ensures LastStatus(s'.past, s'.bullets[i].id) == Some(s'.bullets[i].status) {
      LastStatusGrows(s.past, e, s'.bullets[i].id);
      if i < n {
        assert s'.bullets[i] == s'.bullets[..n][i] == s.bullets[i];
        assert HasRow(s.bullets, s.bullets[i].id);
      }
    }
    forall b ensures HasRow(s'.bullets, b) <==> Created(s'.past, b) {
      CreatedGrows(s.past, e, b);
      assert forall i :: 0 <= i < n ==> s'.bullets[i] == s'.bullets[..n][i];
      if HasRow(s.bullets, b) {
        var i :| 0 <= i < n && s.bullets[i].id == b;
        assert s'.bullets[i].id == b;
      }
    }
  }

  /** The derives that are stored already, and those about to be, look at a fixed past. */
  lemma DerivesStay(past: seq<Event>, e: Event)
    requires DerivesTrue(past)
    requires e.IntentBecame? ==> e.at <= |past| && DerivedFrom(past[..e.at], e.intent, e.derived, e.read)
    ensures DerivesTrue(past + [e])
  {
    var past' := past + [e];
    forall k | 0 <= k < |past'| && past'[k].IntentBecame?
      ensures past'[k].at <= k && DerivedFrom(past'[..past'[k].at], past'[k].intent, past'[k].derived, past'[k].read)
    {
      if k < |past| {
        assert past'[k] == past[k] && past'[..past[k].at] == past[..past[k].at];
      } else {
        assert past'[..e.at] == past[..e.at];
      }
    }
  }

  lemma StoringStays(past: seq<Event>, past': seq<Event>, a: Actor)
    requires past <= past' && StoringTrue(past, a)
    ensures StoringTrue(past', a)
  {
    if a.Storing? {
      assert past'[..a.at] == past[..a.at];
    }
  }

  /** What the derive step is about to store is what the history up to it says. */
  lemma DeriveReads(s: Sys, intent: string)
    requires RowsTrue(s.past, s.bullets)
    ensures var mine := BulletsOf(s.bullets, intent); DerivedFrom(s.past, intent, DeriveIntentStatus(mine), IDs(mine))
  {
    var mine, read := BulletsOf(s.bullets, intent), IDs(BulletsOf(s.bullets, intent));
    BulletsOfMeans(s.bullets, intent);
    forall b ensures b in read <==> b.intent == intent && Created(s.past, b) {
      if b.intent == intent && HasRow(s.bullets, b) {
        var k :| 0 <= k < |s.bullets| && s.bullets[k].id == b;
        assert s.bullets[k] in mine;
        var i :| 0 <= i < |mine| && mine[i] == s.bullets[k];
        assert read[i] == b;
      }
      if b in read {
        var i :| 0 <= i < |read| && read[i] == b;
        assert mine[i] in mine && HasRow(s.bullets, b);
      }
    }
    forall i | 0 <= i < |mine| ensures LastStatus(s.past, read[i]) == Some(mine[i].status) {
      assert mine[i] in mine;
      var k :| 0 <= k < |s.bullets| && s.bullets[k] == mine[i];
    }
  }

  ghost predicate Step1(s: Sys, s': Sys) {
    || (s'.past == s.past && SameStatuses(s, s'))
    || (|s'.past| == |s.past| + 1
        && (WritesStatus(s, s', s'.past[|s.past|]) || WritesNoStatus(s, s', s'.past[|s.past|]) || WritesRow(s, s', s'.past[|s.past|])))
  }

  /** The handler goes on, the others stand, and nothing is derived or stored. */
  ghost predicate StoresNothing(s: Sys, s': Sys, id: nat) {
    && (forall n :: n in s'.actors && n != id ==> n in s.actors && s'.actors[n] == s.actors[n])
    && (id in s'.actors ==> !s'.actors[id].Storing?)
    && (|s'.past| > |s.past| ==> !s'.past[|s.past|].IntentBecame?)
  }

  lemma OutcomeWrites(s: Sys, id: nat, a: Actor)
    requires a.Concluding? || a.Listing? || a.Advancing? || a.Deriving? || a.Storing?
    ensures Step1(s, GoOutcome(s, id, a))
    ensures !a.Deriving? && !a.Storing? ==> StoresNothing(s, GoOutcome(s, id, a), id)
  {
  }

  lemma SealWrites(s: Sys, id: nat, a: Actor, url: string)
    requires a.SealAsked? || a.SealListing? || a.SealReady? || a.SealDone? || a.Linking?
    ensures Step1(s, GoSeal(s, id, a, url)) && StoresNothing(s, GoSeal(s, id, a, url), id)
  {
  }

  lemma CheckReads(s: Sys, id: nat, a: Actor, reply: Reply)
    requires a.CheckAsked? || a.CheckListing? || a.SweepAsked? || a.Sweeping?
    ensures Step1(s, GoCheck(s, id, a, reply)) && StoresNothing(s, GoCheck(s, id, a, reply), id)
  {
  }

  lemma CheckAsks(s: Sys, id: nat, a: Actor, reply: Reply)
    requires a.Checking? || a.Asking?
    ensures Step1(s, GoCheck(s, id, a, reply)) && StoresNothing(s, GoCheck(s, id, a, reply), id)
  {
  }

  lemma CheckWrites(s: Sys, id: nat, a: Actor, reply: Reply)
    requires a.Discovered? || a.Judging?
    ensures Step1(s, GoCheck(s, id, a, reply)) && StoresNothing(s, GoCheck(s, id, a, reply), id)
  {
    var to := if a.Discovered? then Sealed else if a.into == a.ref.base then Merged else Blocked;
    assert WritesStatus(s, GoCheck(s, id, a, reply), BulletBecame(a.bullet, to));
  }

  lemma OtherWrites(s: Sys, id: nat, a: Actor)
    requires a.ResumeAsked? || a.ResumeListing? || a.Clearing? || a.ApproveAsked? || a.ApproveListing? || a.Releasing?
      || a.RejectAsked? || a.Rejecting?
    ensures Step1(s, GoOther(s, id, a)) && StoresNothing(s, GoOther(s, id, a), id)
  {
  }

  lemma GoWrites(s: Sys, id: nat, reply: Reply)
    requires id in s.actors
    ensures Step1(s, Goes(s, id, s.actors[id], reply))
    ensures !s.actors[id].Deriving? && !s.actors[id].Storing? ==> StoresNothing(s, Goes(s, id, s.actors[id], reply), id)
  {
    var a := s.actors[id];
    if a.Done? {
    } else if a.Concluding? || a.Listing? || a.Advancing? || a.Deriving? || a.Storing? {
      OutcomeWrites(s, id, a);
    } else if a.SealAsked? || a.SealListing? || a.SealReady? || a.SealDone? || a.Linking? {
      SealWrites(s, id, a, reply.url);
    } else if a.CheckAsked? || a.CheckListing? || a.SweepAsked? || a.Sweeping? {
      CheckReads(s, id, a, reply);
    } else if a.Checking? || a.Asking? {
      CheckAsks(s, id, a, reply);
    } else if a.Discovered? || a.Judging? {
      CheckWrites(s, id, a, reply);
    } else {
      OtherWrites(s, id, a);
    }
  }

  lemma Step1KeepsRows(s: Sys, s': Sys)
    requires RowsTrue(s.past, s.bullets) && Step1(s, s')
    ensures RowsTrue(s'.past, s'.bullets)
  {
    if s'.past == s.past {
      forall b ensures HasRow(s'.bullets, b) <==> HasRow(s.bullets, b) {
      }
    } else {
      var e := s'.past[|s.past|];
      if WritesRow(s, s', e) {
        NewRowKeepsRows(s, s', e);
      } else {
        StatusKeepsRows(s, s', e);
      }
    }
  }

  /** A step that derives and stores nothing keeps what is known of those that did. */
  lemma QuietKeepsTruth(s: Sys, s': Sys, id: nat)
    requires Truth(s) && Step1(s, s') && StoresNothing(s, s', id)
    ensures Truth(s')
  {
    Step1KeepsRows(s, s');
    if s'.past != s.past {
      DerivesStay(s.past, s'.past[|s.past|]);
      assert s'.past == s.past + [s'.past[|s.past|]];
    }
    forall n | n in s'.actors ensures StoringTrue(s'.past, s'.actors[n]) {
      if n != id {
        StoringStays(s.past, s'.past, s.actors[n]);
      }
    }
  }

  lemma DeriveKeepsTruth(s: Sys, id: nat)
    requires Truth(s) && id in s.actors && s.actors[id].Deriving?
    ensures Truth(GoOutcome(s, id, s.actors[id]))
  {
    DeriveReads(s, s.actors[id].intent);
    assert s.past[..|s.past|] == s.past;
  }

  lemma StoreKeepsTruth(s: Sys, id: nat)
    requires Truth(s) && id in s.actors && s.actors[id].Storing?
    ensures Truth(GoOutcome(s, id, s.actors[id]))
  {
    var a, s' := s.actors[id], GoOutcome(s, id, s.actors[id]);
    var e := IntentBecame(a.intent, a.derived, a.since, a.at, a.read);
    assert StoringTrue(s.past, a);
    StatusKeepsRows(s, s', e);
    DerivesStay(s.past, e);
    forall n | n in s'.actors ensures StoringTrue(s'.past, s'.actors[n]) {
      if n != id {
        StoringStays(s.past, s'.past, s.actors[n]);
      }
    }
  }

  lemma CreateRunKeepsTruth(s: Sys, run: string, intent: string, base: string)
    requires Truth(s) && run !in s.runs
    ensures Truth(Next(s, CreateRun(run, intent, base)))
  {
    var id := Spare(s.actors);
    var s1 := s.(past := s.past + [RunCreated(run, intent)]);
    var s2 := Next(s, CreateRun(run, intent, base));
    assert WritesNoStatus(s, s1, RunCreated(run, intent));
    QuietKeepsTruth(s, s1, id);
    assert s2.past == s1.past + [BaseSet(run, base)];
    assert WritesNoStatus(s1, s2, BaseSet(run, base));
    QuietKeepsTruth(s1, s2, id);
  }

  lemma NextKeepsTruth(s: Sys, step: Step)
    requires Truth(s)
    ensures Truth(Next(s, step))
  {
    var spare := Spare(s.actors);
    match step
    case CreateRun(run, intent, base) => if run !in s.runs { CreateRunKeepsTruth(s, run, intent, base); }
    case SetBase(run, base) => QuietKeepsTruth(s, Next(s, step), spare);
    case CreateIntent(_, _) => QuietKeepsTruth(s, Next(s, step), spare);
    case CreateBullet(_, _, _) => QuietKeepsTruth(s, Next(s, step), spare);
    case Begin(id, _) => QuietKeepsTruth(s, Next(s, step), if id in s.actors then spare else id);
    case Go(id, reply) =>
      if id in s.actors {
        if s.actors[id].Deriving? {
          DeriveKeepsTruth(s, id);
        } else if s.actors[id].Storing? {
          StoreKeepsTruth(s, id);
        } else {
          GoWrites(s, id, reply);
          QuietKeepsTruth(s, Next(s, step), id);
        }
      }
  }

  lemma {:induction false} RunKeepsTruth(steps: seq<Step>)
    ensures Truth(RunAll(steps))
  {
    if steps != [] {
      RunKeepsTruth(steps[..|steps| - 1]);
      NextKeepsTruth(RunAll(steps[..|steps| - 1]), steps[|steps| - 1]);
    }
  }

  /** Exactly when a run outcome makes an intent satisfied: when bullets had been created for
      the intent and the last status written for each of them, before the outcome read them,
      was merged. */
  lemma SatisfiedIff(steps: seq<Step>, k: nat, intent: string, derived: IntentStatus, since: nat, at: nat, read: seq<BulletID>)
    requires k < |RunAll(steps).past|
    requires RunAll(steps).past[k] == IntentBecame(intent, derived, since, at, read)
    ensures var past := RunAll(steps).past;
      && since < at <= k
      && (forall b :: b in read <==> b.intent == intent && Created(past[..at], b))
      && (derived == Satisfied <==>
        (exists b: BulletID :: b.intent == intent && Created(past[..at], b))
        && (forall b: BulletID :: b.intent == intent && Created(past[..at], b) ==> LastStatus(past[..at], b) == Some(Merged)))
  {
    RunKeeps(steps);
    RunKeepsTruth(steps);
    var past := RunAll(steps).past;
    HistoryAt(past, k);
    assert DerivedFrom(past[..at], intent, derived, read);
    assert read != [] ==> read[0] in read;
    assert forall i :: 0 <= i < |read| ==> read[i] in read;
  }

  // ---- the window is real

  const NO_REPLY := Reply("", None, map[])

  ghost predicate Reached(s: Sys) {
    exists steps :: RunAll(steps) == s
  }

  lemma ReachNext(s: Sys, step: Step)
    requires Reached(s)
    ensures Reached(Next(s, step))
  {
    var steps :| RunAll(steps) == s;
    assert (steps + [step])[..|steps|] == steps;
    assert RunAll(steps + [step]) == Next(s, step);
  }

  lemma OnlyBullet(b: Bullet)
    ensures BulletsOf([b], b.id.intent) == [b]
  {
    assert [b][1..] == [];
  }

  lemma DispatchedIsReached(run: string, intent: string, repo: string, base: string) returns (s: Sys)
    ensures Reached(s) && run in s.runs && s.runs[run] == Run(intent, Running, base)
    ensures intent in s.intents && s.intents[intent] == InProgress && s.actors == map[]
    ensures s.bullets == [Bullet(BulletID(intent, 1), repo, BulletPending, "", "")]
  {
    assert RunAll([]) == EMPTY_SYS;
    s := EMPTY_SYS;
    ReachNext(s, CreateIntent(intent, false));
    s := Next(s, CreateIntent(intent, false));
    ReachNext(s, CreateRun(run, intent, base));
    s := Next(s, CreateRun(run, intent, base));
    ReachNext(s, CreateBullet(BulletID(intent, 1), repo, false));
    s := Next(s, CreateBullet(BulletID(intent, 1), repo, false));
  }

  lemma ConcludedIsReached(run: string, intent: string, repo: string, base: string) returns (s: Sys, since: nat)
    requires intent != ""
    ensures Reached(s) && run in s.runs && s.runs[run].intent == intent && s.runs[run].base == base
    ensures intent in s.intents && s.intents[intent] == InProgress
    ensures s.bullets == [Bullet(BulletID(intent, 1), repo, BulletPending, "", "")]
    ensures s.actors == map[0 := Listing(intent, Green, "", since)]
    ensures since < |s.past| && s.past[since] == RunBecame(run, intent, Passed)
  {
    var s0 := DispatchedIsReached(run, intent, repo, base);
    since := |s0.past|;
    ReachNext(s0, Begin(0, Concluding(run, Passed, "")));
    var s1 := Next(s0, Begin(0, Concluding(run, Passed, "")));
    assert s1.actors == map[0 := Concluding(run, Passed, "")];
    ReachNext(s1, Go(0, NO_REPLY));
    s := Next(s1, Go(0, NO_REPLY));
    assert s.actors == map[0 := Listing(intent, Green, "", since)];
  }

  /** A passed run has written its row and listed its one bullet. */
  lemma PassedIsReached(run: string, intent: string, repo: string, base: string) returns (s: Sys, since: nat)
    requires intent != ""
    ensures Reached(s) && run in s.runs && s.runs[run].intent == intent && s.runs[run].base == base
    ensures intent in s.intents && s.intents[intent] == InProgress
    ensures var b := Bullet(BulletID(intent, 1), repo, BulletPending, "", "");
      s.bullets == [b] && s.actors == map[0 := Advancing(intent, Green, "", since, [b])]
    ensures since < |s.past| && s.past[since] == RunBecame(run, intent, Passed)
  {
    var s0;
    s0, since := ConcludedIsReached(run, intent, repo, base);
    OnlyBullet(s0.bullets[0]);
    ReachNext(s0, Go(0, NO_REPLY));
    s := Next(s0, Go(0, NO_REPLY));
    assert s.actors == map[0 := Advancing(intent, Green, "", since, s0.bullets)];
  }

  /** It has turned the bullet green and still has to derive the intent. */
  lemma PausedIsReached(run: string, intent: string, repo: string, base: string) returns (s: Sys, since: nat)
    requires intent != ""
    ensures Reached(s) && run in s.runs && s.runs[run].intent == intent && s.runs[run].base == base
    ensures intent in s.intents && s.intents[intent] == InProgress
    ensures s.bullets == [Bullet(BulletID(intent, 1), repo, Green, "", "")]
    ensures s.actors == map[0 := Advancing(intent, Green, "", since, [])]
    ensures since < |s.past| && s.past[since] == RunBecame(run, intent, Passed)
  {
    var s0;
    s0, since := PassedIsReached(run, intent, repo, base);
    ReachNext(s0, Go(0, NO_REPLY));
    s := Next(s0, Go(0, NO_REPLY));
    assert s.bullets == [s0.bullets[0].(status := Green)];
    assert [s0.bullets[0]][1..] == [];
    assert s.actors == map[0 := Advancing(intent, Green, "", since, [])];
  }

  lemma AskedMeanwhile(s: Sys, run: string) returns (s': Sys)
    requires Reached(s) && run in s.runs && s.runs[run].intent != "" && 1 !in s.actors
    ensures Reached(s') && s'.runs == s.runs && s'.intents == s.intents && s'.bullets == s.bullets && s'.past == s.past
    ensures s'.actors == s.actors[1 := CheckListing(Ref(run, s.runs[run].base), s.runs[run].intent)]
  {
    ReachNext(s, Begin(1, CheckAsked(run)));
    var s1 := Next(s, Begin(1, CheckAsked(run)));
    ReachNext(s1, Go(1, NO_REPLY));
    s' := Next(s1, Go(1, NO_REPLY));
  }

  /** Meanwhile a check lists the green bullet. */
  lemma ListedMeanwhile(s: Sys, run: string, b: Bullet) returns (s': Sys)
    requires Reached(s) && run in s.runs && s.runs[run].intent == b.id.intent != "" && 1 !in s.actors
    requires s.bullets == [b] && b.status == Green && b.url == ""
    ensures Reached(s') && s'.runs == s.runs && s'.intents == s.intents && s'.bullets == s.bullets && s'.past == s.past
    ensures s'.actors == s.actors[1 := Checking([Job(Ref(run, s.runs[run].base), b)])]
  {
    var s1 := AskedMeanwhile(s, run);
    OnlyBullet(b);
    assert [b][1..] == [];
    assert Jobs(Ref(run, s.runs[run].base), [b]) == [Job(Ref(run, s.runs[run].base), b)];
    ReachNext(s1, Go(1, NO_REPLY));
    s' := Next(s1, Go(1, NO_REPLY));
  }

  /** It finds the bullet's change request and seals it. */
  lemma SealedMeanwhile(s: Sys, ref: Ref, b: Bullet, url: string) returns (s': Sys)
    requires Reached(s) && 1 in s.actors && s.actors[1] == Checking([Job(ref, b)])
    requires s.bullets == [b] && b.url == "" && b.reason == "" && url != ""
    ensures Reached(s') && s'.runs == s.runs && s'.intents == s.intents && s.past <= s'.past
    ensures s'.bullets == [b.(status := Sealed, url := url)]
    ensures s'.actors == s.actors[1 := Asking(ref, b.id, url, [])]
  {
    assert [Job(ref, b)][1..] == [];
    ReachNext(s, Go(1, Reply(url, None, map[])));
    var s1 := Next(s, Go(1, Reply(url, None, map[])));
    assert s1.bullets == [b.(url := url)];
    assert s1.actors == s.actors[1 := Discovered(ref, b.id, url, [])];
    ReachNext(s1, Go(1, NO_REPLY));
    s' := Next(s1, Go(1, NO_REPLY));
    assert s'.bullets == [b.(status := Sealed, url := url)];
  }

  /** The provider then says it was merged into the run's base. */
  lemma MergedMeanwhile(s: Sys, ref: Ref, b: Bullet) returns (s': Sys)
    requires Reached(s) && 1 in s.actors && s.actors[1] == Asking(ref, b.id, b.url, []) && s.bullets == [b] && b.reason == ""
    ensures Reached(s') && s'.runs == s.runs && s'.intents == s.intents && s.past <= s'.past
    ensures s'.bullets == [b.(status := Merged)] && s'.actors == s.actors[1 := Checking([])]
  {
    ReachNext(s, Go(1, Reply("", Some(ref.base), map[])));
    var s1 := Next(s, Go(1, Reply("", Some(ref.base), map[])));
    assert s1.actors == s.actors[1 := Judging(ref, b.id, b.url, ref.base, [])];
    ReachNext(s1, Go(1, NO_REPLY));
    s' := Next(s1, Go(1, NO_REPLY));
    assert s'.bullets == [b.(status := Merged)];
  }

  /** The outcome goes on and derives what it now reads. */
  lemma DerivedLate(s: Sys, intent: string, since: nat, b: Bullet) returns (s': Sys)
    requires Reached(s) && 0 in s.actors && s.actors[0] == Advancing(intent, Green, "", since, [])
    requires s.bullets == [b] && b.id.intent == intent && b.status == Merged
    requires intent in s.intents && s.intents[intent] == InProgress
    ensures Reached(s') && intent in s'.intents && s'.intents[intent] == Satisfied
    ensures s'.past == s.past + [IntentBecame(intent, Satisfied, since, |s.past|, [b.id])]
  {
    ReachNext(s, Go(0, NO_REPLY));
    var s1 := Next(s, Go(0, NO_REPLY));
    assert s1.actors[0] == Deriving(intent, InProgress, since);
    OnlyBullet(b);
    ReachNext(s1, Go(0, NO_REPLY));
    var s2 := Next(s1, Go(0, NO_REPLY));
    assert s2.actors[0] == Storing(intent, Satisfied, since, |s.past|, [b.id]);
    ReachNext(s2, Go(0, NO_REPLY));
    s' := Next(s2, Go(0, NO_REPLY));
  }

  /** The claim that no run outcome ever makes an intent satisfied fails: for every intent
      there is an interleaving in which the outcome of a passed run itself writes it, by a
      merge inside its window. */
  lemma OutcomeCanSatisfy(run: string, intent: string, repo: string, base: string, url: string) returns (steps: seq<Step>)
    requires intent != "" && url != ""
    ensures intent in RunAll(steps).intents && RunAll(steps).intents[intent] == Satisfied
    ensures var past := RunAll(steps).past;
      && past != [] && past[|past| - 1].IntentBecame? && past[|past| - 1].derived == Satisfied
      && past[|past| - 1].since < |past| && past[past[|past| - 1].since] == RunBecame(run, intent, Passed)
  {
    var s0, since := PausedIsReached(run, intent, repo, base);
    var b := s0.bullets[0];
    var listed := ListedMeanwhile(s0, run, b);
    var s1 := SealedMeanwhile(listed, Ref(run, base), b, url);
    var s2 := MergedMeanwhile(s1, Ref(run, base), b.(status := Sealed, url := url));
    var s3 := DerivedLate(s2, intent, since, b.(status := Merged, url := url));
    steps :| RunAll(steps) == s3;
  }
}
