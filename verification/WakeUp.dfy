/** Appenders, stream loops, run waiters and snapshot followers interleaved one step at a
    time over one store. A row write, the append of its change, the notification of that
    append, a read and a wait are all separate steps, and every timer tick is optional. */
module WakeUp {
  import opened Wrappers
  import opened ChangeLog
  import opened Stream

  /** One write of a run row and the status it left there, or nothing where it deleted it. */
  datatype RowWrite = RowWrite(run: string, row: Option<string>, local: bool)

  /** A writer of a run row goes from Wrote to Logged, holding the number of its row write;
      one that only announces something else starts at Logged with no row write. A writer of
      another process is not `local`: its appends never reach this process's subscribers, so
      it stays Logged. */
  datatype Writer =
    | Wrote(run: string, writeNo: nat, local: bool)
    | Logged(of: Option<nat>, seqNo: nat, local: bool)

  /** `inbox` says whether the capacity-one notification channel holds something. */
  datatype StreamLoop = StreamLoop(waiting: bool, cursor: nat, inbox: bool)

  datatype WaitAnswer = Pending | NotFound | Finished(status: string) | TimedOut(status: string)

  /** `readAt` is how many row writes there had been when it last read its run. */
  datatype Waiter = Waiter(run: string, waiting: bool, inbox: bool, answer: WaitAnswer, readAt: nat)

  /** A client that holds run statuses and re-reads a run whenever a change announces it.
      The sequence is read before the rows, and a re-read happens before its cursor moves. */
  datatype Follower =
    | SeqRead(seqNo: nat)
    | Following(cursor: nat, view: map<string, Option<string>>)
    | Rereading(cursor: nat, view: map<string, Option<string>>)

  /** `writes` is every row write so far and `heard` those whose append was notified here. */
  datatype Hub = Hub(
    runs: map<string, string>,
    writes: seq<RowWrite>,
    changes: seq<Change>,
    notified: set<nat>,
    heard: set<nat>,
    writers: map<nat, Writer>,
    streams: map<nat, StreamLoop>,
    waiters: map<nat, Waiter>,
    followers: map<nat, Follower>)

  const EMPTY_HUB := Hub(map[], [], [], {}, {}, map[], map[], map[], map[])

  datatype Step =
    // the four announcing writers of run rows, and everything else that is announced
    | CreateRun(w: nat, run: string, status: string, local: bool)
    | UpdateRunStatus(w: nat, run: string, status: string, local: bool)
    | ReconcileRun(w: nat, run: string, local: bool)
    | DeleteRun(w: nat, run: string, local: bool)
    | AppendRun(w: nat)
    | AppendOther(w: nat, channel: Channel, entity: string, local: bool)
    | Notify(w: nat)
    // the stream loop
    | OpenStream(id: nat, cursor: nat)
    | ReadPage(id: nat)
    | WakeStream(id: nat)
    | TickStream(id: nat)
    // the waiter
    | OpenWait(id: nat, run: string)
    | ReadRun(id: nat, late: bool)
    | WakeWait(id: nat)
    | TickWait(id: nat)
    // the follower
    | SnapshotSequence(id: nat)
    | SnapshotRows(id: nat, listed: set<string>)
    | Reread(id: nat)
    | Advance(id: nat)

  predicate IsTerminalRunStatus(status: string) {
    status in {"passed", "failed", "cancelled", "timed_out", "interrupted"}
  }

  function StatusOf(runs: map<string, string>, run: string): Option<string> {
    if run in runs then Some(runs[run]) else None
  }

  function AsLog(changes: seq<Change>): Log {
    Log(changes, |changes|)
  }

  function Claim(s: Hub, w: nat, run: string, local: bool, runs: map<string, string>): Hub {
    s.(runs := runs, writes := s.writes + [RowWrite(run, StatusOf(runs, run), local)],
       writers := s.writers[w := Wrote(run, |s.writes|, local)])
  }

  function Log1(s: Hub, w: nat, channel: Channel, entity: string, of: Option<nat>, local: bool): Hub {
    var seqNo := |s.changes| + 1;
    s.(changes := s.changes + [Change(seqNo, channel, entity)],
       writers := s.writers[w := Logged(of, seqNo, local)])
  }

  /** The row write a writer has made and not yet notified. */
  function Carried(w: Writer): Option<nat> {
    if w.Wrote? then Some(w.writeNo) else w.of
  }

  /** A row write needs an idle writer; creating needs a new id; a write that matches no
      row changes nothing and is not announced, except that reconciliation always is. */
  function WriteRow(s: Hub, step: Step): Hub
    requires step.CreateRun? || step.UpdateRunStatus? || step.ReconcileRun? || step.DeleteRun?
  {
    if step.w in s.writers then s else
    match step
    case CreateRun(w, run, status, local) =>
      if run in s.runs then s else Claim(s, w, run, local, s.runs[run := status])
    case UpdateRunStatus(w, run, status, local) =>
      if run !in s.runs then s else Claim(s, w, run, local, s.runs[run := status])
    case ReconcileRun(w, run, local) =>
      Claim(s, w, run, local,
            if StatusOf(s.runs, run) == Some("running") then s.runs[run := "interrupted"] else s.runs)
    case DeleteRun(w, run, local) =>
      if run !in s.runs then s else Claim(s, w, run, local, s.runs - {run})
  }

  /** One notification: a send to every subscriber, dropped where the channel is full. */
  function Announce(s: Hub, w: nat): Hub
    requires w in s.writers && s.writers[w].Logged?
  {
    s.(notified := s.notified + {s.writers[w].seqNo},
       heard := if s.writers[w].of.Some? then s.heard + {s.writers[w].of.value} else s.heard,
       writers := s.writers - {w},
       streams := map id | id in s.streams :: s.streams[id].(inbox := true),
       waiters := map id | id in s.waiters :: s.waiters[id].(inbox := true))
  }

  function StreamStep(s: Hub, id: nat, step: Step): StreamLoop
    requires id in s.streams
  {
    var loop := s.streams[id];
    match step
    case ReadPage(_) =>
      if loop.waiting then loop else
      var page := Page(AsLog(s.changes), loop.cursor, STREAM_REPLAY_PAGE);
      var next := Reached(page, loop.cursor);
      loop.(cursor := next, waiting := |page| != STREAM_REPLAY_PAGE)
    case WakeStream(_) =>
      if loop.waiting && loop.inbox then loop.(waiting := false, inbox := false) else loop
    case TickStream(_) => loop.(waiting := false)
    case _ => loop
  }

  /** What one read of the row answers: the row decides, then the bound. */
  function AnswerFor(row: Option<string>, late: bool): WaitAnswer {
    if row.None? then NotFound
    else if IsTerminalRunStatus(row.value) then Finished(row.value)
    else if late then TimedOut(row.value)
    else Pending
  }

  /** One turn of the wait, which blocks when its read answers nothing. */
  function WaitStep(s: Hub, id: nat, step: Step): Waiter
    requires id in s.waiters
  {
    var wait := s.waiters[id];
    match step
    case ReadRun(_, late) =>
      if wait.waiting || wait.answer != Pending then wait
      else
        var answer := AnswerFor(StatusOf(s.runs, wait.run), late);
        wait.(answer := answer, waiting := answer == Pending, readAt := |s.writes|)
    case WakeWait(_) =>
      if wait.waiting && wait.inbox then wait.(waiting := false, inbox := false) else wait
    case TickWait(_) => wait.(waiting := false)
    case _ => wait
  }

  function FollowStep(s: Hub, id: nat, step: Step): Follower
    requires id in s.followers
  {
    var f := s.followers[id];
    match step
    case SnapshotRows(_, listed) =>
      if !f.SeqRead? then f else
      Following(f.seqNo, map run | run in listed * s.runs.Keys :: Some(s.runs[run]))
    case Reread(_) =>
      if !f.Following? || f.cursor >= |s.changes| then f else
      var c := s.changes[f.cursor];
      Rereading(f.cursor,
                if c.channel == RunChannel then f.view[c.entity := StatusOf(s.runs, c.entity)] else f.view)
    case Advance(_) =>
      if f.Rereading? then Following(f.cursor + 1, f.view) else f
    case _ => f
  }

  /** A step that is not possible leaves the hub as it is. */
  function Next(s: Hub, step: Step): Hub {
    match step
    case CreateRun(_, _, _, _) => WriteRow(s, step)
    case UpdateRunStatus(_, _, _, _) => WriteRow(s, step)
    case ReconcileRun(_, _, _) => WriteRow(s, step)
    case DeleteRun(_, _, _) => WriteRow(s, step)
    case AppendRun(w) =>
      if w in s.writers && s.writers[w].Wrote?
      then Log1(s, w, RunChannel, s.writers[w].run, Some(s.writers[w].writeNo), s.writers[w].local) else s
    case AppendOther(w, channel, entity, local) =>
      if w in s.writers || channel == RunChannel then s else Log1(s, w, channel, entity, None, local)
    case Notify(w) =>
      if w in s.writers && s.writers[w].Logged? && s.writers[w].local then Announce(s, w) else s
    case OpenStream(id, cursor) =>
      if id in s.streams || cursor > |s.changes| then s
      else s.(streams := s.streams[id := StreamLoop(false, cursor, false)])
    case ReadPage(id) => if id in s.streams then s.(streams := s.streams[id := StreamStep(s, id, step)]) else s
    case WakeStream(id) => if id in s.streams then s.(streams := s.streams[id := StreamStep(s, id, step)]) else s
    case TickStream(id) => if id in s.streams then s.(streams := s.streams[id := StreamStep(s, id, step)]) else s
    case OpenWait(id, run) =>
      if id in s.waiters then s else s.(waiters := s.waiters[id := Waiter(run, false, false, Pending, 0)])
    case ReadRun(id, _) => if id in s.waiters then s.(waiters := s.waiters[id := WaitStep(s, id, step)]) else s
    case WakeWait(id) => if id in s.waiters then s.(waiters := s.waiters[id := WaitStep(s, id, step)]) else s
    case TickWait(id) => if id in s.waiters then s.(waiters := s.waiters[id := WaitStep(s, id, step)]) else s
    case SnapshotSequence(id) =>
      if id in s.followers then s else s.(followers := s.followers[id := SeqRead(|s.changes|)])
    case SnapshotRows(id, _) =>
      if id in s.followers then s.(followers := s.followers[id := FollowStep(s, id, step)]) else s
    case Reread(id) =>
      if id in s.followers then s.(followers := s.followers[id := FollowStep(s, id, step)]) else s
    case Advance(id) =>
      if id in s.followers then s.(followers := s.followers[id := FollowStep(s, id, step)]) else s
  }

  function Run(steps: seq<Step>): Hub {
    if steps == [] then EMPTY_HUB else Next(Run(steps[..|steps| - 1]), steps[|steps| - 1])
  }

  // ---- no lost wake-up

  ghost predicate LogOk(s: Hub) {
    && (forall i :: 0 <= i < |s.changes| ==> s.changes[i].seqNo == i + 1)
    && (forall n :: n in s.notified ==> n <= |s.changes|)
    && (forall w :: w in s.writers && s.writers[w].Logged? ==> s.writers[w].seqNo <= |s.changes|)
  }

  ghost predicate StreamOk(s: Hub, loop: StreamLoop) {
    && loop.cursor <= |s.changes|
    && (loop.waiting && !loop.inbox ==> forall n :: n in s.notified ==> n <= loop.cursor)
  }

  predicate NotAppended(w: Writer, run: string) {
    w.Wrote? && w.run == run
  }

  /** What the last of these writes to the run left in its row. */
  function LastRow(writes: seq<RowWrite>, run: string): Option<string> {
    if writes == [] then None
    else if writes[|writes| - 1].run == run then writes[|writes| - 1].row
    else LastRow(writes[..|writes| - 1], run)
  }

  predicate Live(row: Option<string>) {
    row.Some? && !IsTerminalRunStatus(row.value)
  }

  /** A row write is still in its writer's hands: not appended, or appended and not notified here. */
  ghost predicate InHand(s: Hub, k: nat) {
    exists w :: w in s.writers && Carried(s.writers[w]) == Some(k)
  }

  ghost predicate CarriesOk(writes: seq<RowWrite>, w: Writer) {
    Carried(w).Some? ==> Carried(w).value < |writes| && writes[Carried(w).value].local == w.local
  }

  /** The row of every run is what its last write left, and each write is heard or in hand. */
  ghost predicate WritesOk(s: Hub) {
    && (forall run :: LastRow(s.writes, run) == StatusOf(s.runs, run))
    && (forall k :: k in s.heard ==> k < |s.writes|)
    && (forall w :: w in s.writers ==> CarriesOk(s.writes, s.writers[w]))
    && (forall k: nat :: k < |s.writes| ==> k in s.heard || InHand(s, k))
  }

  /** The run was live before this write to it and never since. */
  ghost predicate Ends(writes: seq<RowWrite>, k: nat, run: string) {
    && k < |writes| && writes[k].run == run
    && Live(LastRow(writes[..k], run))
    && forall j :: k < j <= |writes| ==> !Live(LastRow(writes[..j], run))
  }

  /** An answer is what the row held when it was read. */
  predicate Answers(answer: WaitAnswer, row: Option<string>) {
    match answer
    case Pending => true
    case NotFound => row == None
    case Finished(status) => row == Some(status) && IsTerminalRunStatus(status)
    case TimedOut(status) => row == Some(status) && !IsTerminalRunStatus(status)
  }

  ghost predicate WaitOk(s: Hub, wait: Waiter) {
    && wait.readAt <= |s.writes|
    && Answers(wait.answer, LastRow(s.writes[..wait.readAt], wait.run))
    && (wait.waiting ==> wait.answer == Pending && Live(LastRow(s.writes[..wait.readAt], wait.run)))
    && (wait.waiting && !wait.inbox ==>
      forall k :: wait.readAt <= k < |s.writes| && s.writes[k].run == wait.run ==> k !in s.heard)
  }

  // ---- snapshot and replay

  /** A change for this run lies above the cursor. */
  ghost predicate Announced(changes: seq<Change>, from: nat, run: string) {
    exists i :: from <= i < |changes| && changes[i].channel == RunChannel && changes[i].entity == run
  }

  ghost predicate Unlogged(s: Hub, run: string) {
    exists w :: w in s.writers && NotAppended(s.writers[w], run)
  }

  ghost predicate Accounted(s: Hub, view: map<string, Option<string>>, from: nat, run: string)
    requires run in view
  {
    view[run] == StatusOf(s.runs, run) || Announced(s.changes, from, run) || Unlogged(s, run)
  }

  ghost predicate FollowOk(s: Hub, f: Follower) {
    match f
    case SeqRead(n) => n <= |s.changes|
    case Following(cursor, view) =>
      && cursor <= |s.changes|
      && forall run :: run in view ==> Accounted(s, view, cursor, run)
    case Rereading(cursor, view) =>
      && cursor < |s.changes|
      && forall run :: run in view ==> Accounted(s, view, cursor + 1, run)
  }

  ghost predicate Inv(s: Hub) {
    && LogOk(s) && WritesOk(s)
    && StreamsOk(s) && WaitersOk(s) && FollowersOk(s)
  }

  ghost predicate StreamsOk(s: Hub) {
    forall id :: id in s.streams ==> StreamOk(s, s.streams[id])
  }

  ghost predicate WaitersOk(s: Hub) {
    forall id :: id in s.waiters ==> WaitOk(s, s.waiters[id])
  }

  ghost predicate FollowersOk(s: Hub) {
    forall id :: id in s.followers ==> FollowOk(s, s.followers[id])
  }

  /** A row write adds itself to the writes, in hand and not heard. */
  lemma ClaimKeepsWrites(s: Hub, w: nat, run: string, local: bool, runs: map<string, string>)
    requires WritesOk(s) && w !in s.writers
    requires forall r :: r != run ==> StatusOf(runs, r) == StatusOf(s.runs, r)
    ensures WritesOk(Claim(s, w, run, local, runs))
    ensures forall wait: Waiter :: WaitOk(s, wait) ==> WaitOk(Claim(s, w, run, local, runs), wait)
  {
    var s' := Claim(s, w, run, local, runs);
    assert s'.writes[..|s.writes|] == s.writes;
    assert s'.writers[w] == Wrote(run, |s.writes|, local);
    forall k: nat | k < |s'.writes| ensures k in s'.heard || InHand(s', k) {
      if k < |s.writes| && k !in s.heard {
        var v :| v in s.writers && Carried(s.writers[v]) == Some(k);
        assert v in s'.writers && Carried(s'.writers[v]) == Some(k);
      } else if k == |s.writes| {
        assert w in s'.writers && Carried(s'.writers[w]) == Some(k);
      }
    }
    forall wait: Waiter | WaitOk(s, wait) ensures WaitOk(s', wait) {
      assert s'.writes[..wait.readAt] == s.writes[..wait.readAt];
    }
  }

  lemma ClaimKeeps(s: Hub, w: nat, run: string, local: bool, runs: map<string, string>)
    requires Inv(s) && w !in s.writers
    requires forall r :: r != run ==> StatusOf(runs, r) == StatusOf(s.runs, r)
    ensures Inv(Claim(s, w, run, local, runs))
  {
    var s' := Claim(s, w, run, local, runs);
    ClaimKeepsWrites(s, w, run, local, runs);
    assert s'.writers[w] == Wrote(run, |s.writes|, local);
    forall r ensures Unlogged(s, r) ==> Unlogged(s', r) {
      if Unlogged(s, r) {
        var v :| v in s.writers && NotAppended(s.writers[v], r);
        assert v in s'.writers && s'.writers[v] == s.writers[v];
      }
    }
    assert Unlogged(s', run);
    forall id | id in s'.followers ensures FollowOk(s', s'.followers[id]) {
      FollowCarries(s, s', s.followers[id], run);
    }
  }

  lemma WriteRowKeeps(s: Hub, step: Step)
    requires step.CreateRun? || step.UpdateRunStatus? || step.ReconcileRun? || step.DeleteRun?
    requires Inv(s)
    ensures Inv(WriteRow(s, step))
  {
    var s' := WriteRow(s, step);
    if s' != s {
      ClaimKeeps(s, step.w, step.run, step.local, s'.runs);
    }
  }

  /** A follower's view stays accounted for when every run but one keeps its status, and
      that one is on its way to the log. */
  lemma FollowCarries(s: Hub, s': Hub, f: Follower, moved: string)
    requires FollowOk(s, f) && s.changes == s'.changes
    requires forall run :: run != moved ==> StatusOf(s.runs, run) == StatusOf(s'.runs, run)
    requires forall run :: Unlogged(s, run) ==> Unlogged(s', run)
    requires Unlogged(s', moved)
    ensures FollowOk(s', f)
  {
    if !f.SeqRead? {
      var from := if f.Following? then f.cursor else f.cursor + 1;
      forall run | run in f.view ensures Accounted(s', f.view, from, run) {
        assert Accounted(s, f.view, from, run);
      }
    }
  }

  /** Appending a run's change trades "not appended yet" for "announced above the cursor". */
  lemma FollowLogs(s: Hub, s': Hub, f: Follower, c: Change)
    requires FollowOk(s, f) && s'.changes == s.changes + [c] && s'.runs == s.runs
    requires forall run :: Unlogged(s, run) && !(c.channel == RunChannel && c.entity == run) ==> Unlogged(s', run)
    ensures FollowOk(s', f)
  {
    if !f.SeqRead? {
      var from := if f.Following? then f.cursor else f.cursor + 1;
      forall run | run in f.view ensures Accounted(s', f.view, from, run) {
        assert Accounted(s, f.view, from, run);
        if Announced(s.changes, from, run) {
          var i :| from <= i < |s.changes| && s.changes[i].channel == RunChannel && s.changes[i].entity == run;
          assert s'.changes[i] == s.changes[i];
        } else if Unlogged(s, run) && c.channel == RunChannel && c.entity == run {
          assert s'.changes[|s.changes|] == c;
        }
      }
    }
  }

  /** A step that takes no write out of its writer's hands, unless it is heard. */
  lemma StillInHand(s: Hub, s': Hub)
    requires WritesOk(s) && s'.runs == s.runs && s'.writes == s.writes && s.heard <= s'.heard
    requires forall k :: k in s'.heard ==> k < |s.writes|
    requires forall w :: w in s'.writers ==> CarriesOk(s.writes, s'.writers[w])
    requires forall w :: w in s.writers && Carried(s.writers[w]).Some? && Carried(s.writers[w]).value !in s'.heard ==>
      w in s'.writers && Carried(s'.writers[w]) == Carried(s.writers[w])
    ensures WritesOk(s')
  {
    forall k: nat | k < |s'.writes| ensures k in s'.heard || InHand(s', k) {
      if k !in s'.heard {
        var v :| v in s.writers && Carried(s.writers[v]) == Some(k);
        assert v in s'.writers && Carried(s'.writers[v]) == Some(k);
      }
    }
  }

  lemma LogKeeps(s: Hub, w: nat, channel: Channel, entity: string, of: Option<nat>, local: bool)
    requires Inv(s)
    requires if channel == RunChannel
             then of.Some? && w in s.writers && s.writers[w] == Wrote(entity, of.value, local)
             else of == None && w !in s.writers
    ensures Inv(Log1(s, w, channel, entity, of, local))
  {
    var s' := Log1(s, w, channel, entity, of, local);
    var c := Change(|s.changes| + 1, channel, entity);
    assert s'.writers[w] == Logged(of, |s.changes| + 1, local);
    StillInHand(s, s');
    forall r | Unlogged(s, r) && !(channel == RunChannel && entity == r) ensures Unlogged(s', r) {
      var v :| v in s.writers && NotAppended(s.writers[v], r);
      assert v in s'.writers && s'.writers[v] == s.writers[v];
    }
    forall id | id in s'.followers ensures FollowOk(s', s'.followers[id]) {
      FollowLogs(s, s', s.followers[id], c);
    }
  }

  lemma NotifyKeeps(s: Hub, w: nat)
    requires Inv(s) && w in s.writers && s.writers[w].Logged?
    ensures Inv(Announce(s, w))
  {
    var s' := Announce(s, w);
    StillInHand(s, s');
    forall id | id in s'.followers ensures FollowOk(s', s'.followers[id]) {
      var f := s.followers[id];
      if !f.SeqRead? {
        var from := if f.Following? then f.cursor else f.cursor + 1;
        forall run | run in f.view ensures Accounted(s', f.view, from, run) {
          assert Accounted(s, f.view, from, run);
          if Unlogged(s, run) {
            var v :| v in s.writers && NotAppended(s.writers[v], run);
            assert v in s'.writers && s'.writers[v] == s.writers[v];
          }
        }
      }
    }
  }

  /** Nothing a client does touches what the other clients' claims rest on. */
  ghost predicate SameStore(s: Hub, s': Hub) {
    && s'.runs == s.runs && s'.writes == s.writes && s'.changes == s.changes
    && s'.notified == s.notified && s'.heard == s.heard && s'.writers == s.writers
  }

  lemma StoreCarries(s: Hub, s': Hub)
    requires LogOk(s) && WritesOk(s) && SameStore(s, s')
    ensures LogOk(s') && WritesOk(s')
  {
    StillInHand(s, s');
  }

  lemma FollowerCarries(s: Hub, s': Hub, f: Follower)
    requires FollowOk(s, f) && SameStore(s, s')
    ensures FollowOk(s', f)
  {
    if !f.SeqRead? {
      var from := if f.Following? then f.cursor else f.cursor + 1;
      forall run | run in f.view ensures Accounted(s', f.view, from, run) {
        assert Accounted(s, f.view, from, run);
      }
    }
  }

  lemma FollowersCarry(s: Hub, s': Hub)
    requires FollowersOk(s) && SameStore(s, s') && s'.followers == s.followers
    ensures FollowersOk(s')
  {
    forall id | id in s'.followers ensures FollowOk(s', s'.followers[id]) {
      FollowerCarries(s, s', s.followers[id]);
    }
  }

  lemma StreamsCarry(s: Hub, s': Hub)
    requires StreamsOk(s) && SameStore(s, s') && s'.streams == s.streams
    ensures StreamsOk(s')
  {
  }

  lemma WaitersCarry(s: Hub, s': Hub)
    requires WaitersOk(s) && SameStore(s, s') && s'.waiters == s.waiters
    ensures WaitersOk(s')
  {
  }

  lemma StreamStepKeeps(s: Hub, id: nat, step: Step)
    requires Inv(s) && id in s.streams
    ensures StreamOk(s, StreamStep(s, id, step))
  {
    PageIsNextRun(AsLog(s.changes), s.streams[id].cursor, STREAM_REPLAY_PAGE);
  }

  lemma RereadKeeps(s: Hub, id: nat)
    requires Inv(s) && id in s.followers
    ensures FollowOk(s, FollowStep(s, id, Reread(id)))
  {
    var f := s.followers[id];
    if f.Following? && f.cursor < |s.changes| {
      var c := s.changes[f.cursor];
      var view := FollowStep(s, id, Reread(id)).view;
      forall run | run in view ensures Accounted(s, view, f.cursor + 1, run) {
        if !(c.channel == RunChannel && c.entity == run) {
          assert Accounted(s, f.view, f.cursor, run);
          if Announced(s.changes, f.cursor, run) {
            var i :| f.cursor <= i < |s.changes| && s.changes[i].channel == RunChannel && s.changes[i].entity == run;
            assert i != f.cursor;
          }
        }
      }
    }
  }

  lemma FollowStepKeeps(s: Hub, id: nat, step: Step)
    requires Inv(s) && id in s.followers
    ensures FollowOk(s, FollowStep(s, id, step))
  {
    if step.Reread? {
      RereadKeeps(s, id);
    }
  }

  lemma StreamKeeps(s: Hub, id: nat, loop: StreamLoop)
    requires Inv(s) && StreamOk(s, loop)
    ensures Inv(s.(streams := s.streams[id := loop]))
  {
    var s' := s.(streams := s.streams[id := loop]);
    StoreCarries(s, s');
    WaitersCarry(s, s');
    FollowersCarry(s, s');
    assert forall n :: n in s'.streams ==> s'.streams[n] == loop || (n in s.streams && s'.streams[n] == s.streams[n]);
  }

  lemma StreamClientKeeps(s: Hub, step: Step)
    requires Inv(s) && (step.OpenStream? || step.ReadPage? || step.WakeStream? || step.TickStream?)
    ensures Inv(Next(s, step))
  {
    if step.OpenStream? {
      if step.id !in s.streams && step.cursor <= |s.changes| {
        StreamKeeps(s, step.id, StreamLoop(false, step.cursor, false));
      }
    } else if step.id in s.streams {
      StreamStepKeeps(s, step.id, step);
      StreamKeeps(s, step.id, StreamStep(s, step.id, step));
    }
  }

  lemma WaitStepKeeps(s: Hub, id: nat, step: Step)
    requires Inv(s) && id in s.waiters
    ensures WaitOk(s, WaitStep(s, id, step))
  {
    assert WaitOk(s, s.waiters[id]);
    assert s.writes[..|s.writes|] == s.writes;
  }

  lemma WaiterKeeps(s: Hub, id: nat, wait: Waiter)
    requires Inv(s) && WaitOk(s, wait)
    ensures Inv(s.(waiters := s.waiters[id := wait]))
  {
    var s' := s.(waiters := s.waiters[id := wait]);
    StoreCarries(s, s');
    StreamsCarry(s, s');
    FollowersCarry(s, s');
    assert forall n :: n in s'.waiters ==> s'.waiters[n] == wait || (n in s.waiters && s'.waiters[n] == s.waiters[n]);
  }

  lemma WaitClientKeeps(s: Hub, step: Step)
    requires Inv(s) && (step.OpenWait? || step.ReadRun? || step.WakeWait? || step.TickWait?)
    ensures Inv(Next(s, step))
  {
    if step.OpenWait? {
      WaiterKeeps(s, step.id, Waiter(step.run, false, false, Pending, 0));
    } else if step.id in s.waiters {
      WaitStepKeeps(s, step.id, step);
      WaiterKeeps(s, step.id, WaitStep(s, step.id, step));
      assert Next(s, step) == s.(waiters := s.waiters[step.id := WaitStep(s, step.id, step)]);
    }
  }

  lemma FollowerKeeps(s: Hub, id: nat, f: Follower)
    requires Inv(s) && FollowOk(s, f)
    ensures Inv(s.(followers := s.followers[id := f]))
  {
    var s' := s.(followers := s.followers[id := f]);
    StoreCarries(s, s');
    StreamsCarry(s, s');
    WaitersCarry(s, s');
    forall n | n in s'.followers ensures FollowOk(s', s'.followers[n]) {
      FollowerCarries(s, s', s'.followers[n]);
    }
  }

  lemma FollowClientKeeps(s: Hub, step: Step)
    requires Inv(s) && (step.SnapshotSequence? || step.SnapshotRows? || step.Reread? || step.Advance?)
    ensures Inv(Next(s, step))
  {
    if step.SnapshotSequence? {
      if step.id !in s.followers {
        FollowerKeeps(s, step.id, SeqRead(|s.changes|));
      }
    } else if step.id in s.followers {
      FollowStepKeeps(s, step.id, step);
      FollowerKeeps(s, step.id, FollowStep(s, step.id, step));
      assert Next(s, step) == s.(followers := s.followers[step.id := FollowStep(s, step.id, step)]);
    }
  }

  lemma ClientStepKeeps(s: Hub, step: Step)
    requires Inv(s)
    requires !(step.CreateRun? || step.UpdateRunStatus? || step.ReconcileRun? || step.DeleteRun?)
    requires !(step.AppendRun? || step.AppendOther? || step.Notify?)
    ensures Inv(Next(s, step))
  {
    if step.OpenStream? || step.ReadPage? || step.WakeStream? || step.TickStream? {
      StreamClientKeeps(s, step);
    } else if step.OpenWait? || step.ReadRun? || step.WakeWait? || step.TickWait? {
      WaitClientKeeps(s, step);
    } else {
      FollowClientKeeps(s, step);
    }
  }

  lemma NextKeeps(s: Hub, step: Step)
    requires Inv(s)
    ensures Inv(Next(s, step))
  {
    match step
    case CreateRun(_, _, _, _) => WriteRowKeeps(s, step);
    case UpdateRunStatus(_, _, _, _) => WriteRowKeeps(s, step);
    case ReconcileRun(_, _, _) => WriteRowKeeps(s, step);
    case DeleteRun(_, _, _) => WriteRowKeeps(s, step);
    case AppendRun(w) =>
      if w in s.writers && s.writers[w].Wrote? {
        var run := s.writers[w].run;
        LogKeeps(s, w, RunChannel, run, Some(s.writers[w].writeNo), s.writers[w].local);
      }
    case AppendOther(w, channel, entity, local) =>
      if w !in s.writers && channel != RunChannel {
        LogKeeps(s, w, channel, entity, None, local);
      }
    case Notify(w) =>
      if w in s.writers && s.writers[w].Logged? {
        NotifyKeeps(s, w);
      }
    case _ => ClientStepKeeps(s, step);
  }

  lemma {:induction false} RunKeeps(steps: seq<Step>)
    ensures Inv(Run(steps))
  {
    if steps != [] {
      RunKeeps(steps[..|steps| - 1]);
      NextKeeps(Run(steps[..|steps| - 1]), steps[|steps| - 1]);
    }
  }

  /** No lost wake-up: a stream loop that waits on an empty channel has already sent every
      change this process has notified, whatever else interleaved and without any tick. */
  lemma NoLostWakeUp(steps: seq<Step>, id: nat)
    ensures var s := Run(steps);
      id in s.streams && s.streams[id].waiting && !s.streams[id].inbox ==>
        forall n :: n in s.notified ==> n <= s.streams[id].cursor
  {
    RunKeeps(steps);
  }

  predicate Blocked(wait: Waiter) {
    wait.waiting && !wait.inbox
  }

  /** A waiter that waits on an empty channel read a live row, and no write to its run since
      then has been notified to this process: each is still in its writer's hands. Without
      one, the row is still the live one it read. */
  lemma WaiterMissesNothingNotified(steps: seq<Step>, id: nat)
    ensures var s := Run(steps);
      id in s.waiters && Blocked(s.waiters[id]) ==>
        var wait := s.waiters[id];
        && wait.readAt <= |s.writes| && Live(LastRow(s.writes[..wait.readAt], wait.run))
        && (forall k :: wait.readAt <= k < |s.writes| && s.writes[k].run == wait.run ==> k !in s.heard && InHand(s, k))
        && ((forall k :: wait.readAt <= k < |s.writes| ==> s.writes[k].run != wait.run) ==>
          StatusOf(s.runs, wait.run) == LastRow(s.writes[..wait.readAt], wait.run))
  {
    RunKeeps(steps);
    var s := Run(steps);
    if id in s.waiters && Blocked(s.waiters[id]) {
      assert WaitOk(s, s.waiters[id]);
      if forall k :: s.waiters[id].readAt <= k < |s.writes| ==> s.writes[k].run != s.waiters[id].run {
        UntouchedRow(s.writes, s.waiters[id].readAt, s.waiters[id].run);
      }
    }
  }

  lemma {:induction false} UntouchedRow(writes: seq<RowWrite>, from: nat, run: string)
    requires from <= |writes| && forall k :: from <= k < |writes| ==> writes[k].run != run
    ensures LastRow(writes, run) == LastRow(writes[..from], run)
  {
    if from == |writes| {
      assert writes[..from] == writes;
    } else {
      UntouchedRow(writes[..|writes| - 1], from, run);
      assert writes[..|writes| - 1][..from] == writes[..from];
    }
  }

  /** A run that was live and is not any more was ended by some write in between. */
  lemma {:induction false} SomeWriteEnds(writes: seq<RowWrite>, from: nat, run: string)
    requires from <= |writes| && Live(LastRow(writes[..from], run)) && !Live(LastRow(writes, run))
    ensures exists k :: from <= k < |writes| && Ends(writes, k, run)
  {
    assert writes[..|writes|] == writes;
    var n := |writes| - 1;
    var before := writes[..n];
    if Live(LastRow(before, run)) {
      assert Ends(writes, n, run);
    } else {
      assert before[..from] == writes[..from];
      SomeWriteEnds(before, from, run);
      var k :| from <= k < |before| && Ends(before, k, run);
      assert before[..k] == writes[..k];
      forall j | k < j <= |writes| ensures !Live(LastRow(writes[..j], run)) {
        assert j <= n ==> writes[..j] == before[..j];
      }
      assert Ends(writes, k, run);
    }
  }

  /** So when its run is finished or gone, the very write that ended it, the one after which
      the run was never live again, has not been notified to this process. */
  lemma EndingWriteIsUnheard(steps: seq<Step>, id: nat)
    ensures var s := Run(steps);
      id in s.waiters && Blocked(s.waiters[id]) && !Live(StatusOf(s.runs, s.waiters[id].run)) ==>
        && (exists k: nat :: Ends(s.writes, k, s.waiters[id].run))
        && (forall k: nat :: Ends(s.writes, k, s.waiters[id].run) ==>
          s.waiters[id].readAt <= k && k !in s.heard && InHand(s, k))
  {
    var s := Run(steps);
    RunKeeps(steps);
    WaiterMissesNothingNotified(steps, id);
    if id in s.waiters && Blocked(s.waiters[id]) && !Live(StatusOf(s.runs, s.waiters[id].run)) {
      var wait := s.waiters[id];
      SomeWriteEnds(s.writes, wait.readAt, wait.run);
      var e :| wait.readAt <= e < |s.writes| && Ends(s.writes, e, wait.run);
      assert forall k: nat :: Ends(s.writes, k, wait.run) ==> k == e;
    }
  }

  ghost predicate Quiet(s: Hub) {
    forall w :: w in s.writers && s.writers[w].local ==> Carried(s.writers[w]) == None
  }

  /** Once no writer of this process has anything left to notify, a waiter that still waits
      on an empty channel has a live run, or one that another process ended. */
  lemma QuietWaiterIsRight(steps: seq<Step>, id: nat)
    ensures var s := Run(steps);
      id in s.waiters && Blocked(s.waiters[id]) && Quiet(s) ==>
        Live(StatusOf(s.runs, s.waiters[id].run))
        || exists k: nat :: Ends(s.writes, k, s.waiters[id].run) && !s.writes[k].local
  {
    var s := Run(steps);
    RunKeeps(steps);
    EndingWriteIsUnheard(steps, id);
    if id in s.waiters && Blocked(s.waiters[id]) && Quiet(s) && !Live(StatusOf(s.runs, s.waiters[id].run)) {
      var k: nat :| Ends(s.writes, k, s.waiters[id].run);
      InHandLocally(s, k);
    }
  }

  lemma InHandLocally(s: Hub, k: nat)
    requires WritesOk(s) && InHand(s, k) && Quiet(s)
    ensures k < |s.writes| && !s.writes[k].local
  {
    var w :| w in s.writers && Carried(s.writers[w]) == Some(k);
    assert CarriesOk(s.writes, s.writers[w]);
  }

  /** Snapshot plus replay: a status a follower holds is current, or a change for that run
      is above its cursor, or a write to that run has not been appended yet. */
  lemma HeldStatusIsAccountedFor(steps: seq<Step>, id: nat, run: string)
    ensures var s := Run(steps);
      id in s.followers && s.followers[id].Following? && run in s.followers[id].view ==>
        Accounted(s, s.followers[id].view, s.followers[id].cursor, run)
  {
    RunKeeps(steps);
    var s := Run(steps);
    if id in s.followers && s.followers[id].Following? && run in s.followers[id].view {
      assert FollowOk(s, s.followers[id]);
    }
  }

  /** So once every write has been appended, a follower at the end of the log is current. */
  lemma QuietFollowerIsCurrent(steps: seq<Step>, id: nat, run: string)
    ensures var s := Run(steps);
      id in s.followers && s.followers[id].Following? && run in s.followers[id].view
        && s.followers[id].cursor == |s.changes| && (forall w :: w in s.writers ==> s.writers[w].Logged?) ==>
        s.followers[id].view[run] == StatusOf(s.runs, run)
  {
    HeldStatusIsAccountedFor(steps, id, run);
  }

  /** Whatever happened since, an answer is what the row held at the turn's own read: only a
      terminal row finished the wait, only a missing one was not found, and a wait that ran
      out of time had read a live row. */
  lemma AnswerIsTheRow(steps: seq<Step>, id: nat)
    ensures var s := Run(steps);
      id in s.waiters ==>
        && s.waiters[id].readAt <= |s.writes|
        && Answers(s.waiters[id].answer, LastRow(s.writes[..s.waiters[id].readAt], s.waiters[id].run))
        && (s.waiters[id].waiting ==> s.waiters[id].answer == Pending)
  {
    RunKeeps(steps);
    assert id in Run(steps).waiters ==> WaitOk(Run(steps), Run(steps).waiters[id]);
  }

  // ---- what the steps do

  /** The store's channels behind these loops and waiters: each has one, and its inbox says
      whether that holds a value. */
  ghost predicate Mirrors(s: Hub, subs: map<nat, seq<nat>>, streamSub: nat -> nat, waiterSub: nat -> nat) {
    && (forall id :: id in s.streams ==>
      streamSub(id) in subs && (s.streams[id].inbox <==> subs[streamSub(id)] != []))
    && (forall id :: id in s.waiters ==>
      waiterSub(id) in subs && (s.waiters[id].inbox <==> subs[waiterSub(id)] != []))
  }

  /** What a notification leaves in the store's channels is what announcing leaves in the
      inboxes: every one holds a value, and nothing else of a loop or a waiter moves. */
  lemma AnnounceIsNotify(s: Hub, w: nat, subs: map<nat, seq<nat>>, after: map<nat, seq<nat>>,
                         streamSub: nat -> nat, waiterSub: nat -> nat)
    requires w in s.writers && s.writers[w].Logged? && Mirrors(s, subs, streamSub, waiterSub)
    requires after.Keys == subs.Keys
    requires forall id :: id in subs ==> after[id] == if subs[id] == [] then [s.writers[w].seqNo] else subs[id]
    ensures var s' := Announce(s, w);
      && Mirrors(s', after, streamSub, waiterSub)
      && s'.streams.Keys == s.streams.Keys && s'.waiters.Keys == s.waiters.Keys
      && (forall id :: id in s.streams ==>
        s'.streams[id] == StreamLoop(s.streams[id].waiting, s.streams[id].cursor, true))
      && (forall id :: id in s.waiters ==> s'.waiters[id].inbox && s'.waiters[id].(inbox := s.waiters[id].inbox) == s.waiters[id])
      && s'.notified == s.notified + {s.writers[w].seqNo}
  {
  }

  /** A store whose channels mirror the inboxes still mirrors them when both have been told. */
  method NotifyBoth(s: Hub, w: nat, store: ChangeStore, ghost streamSub: nat -> nat, ghost waiterSub: nat -> nat)
    returns (s': Hub)
    requires w in s.writers && s.writers[w].Logged? && s.writers[w].local
    requires store.Valid() && Mirrors(s, store.subs, streamSub, waiterSub)
    modifies store
    ensures s' == Next(s, Notify(w)) && Mirrors(s', store.subs, streamSub, waiterSub)
    ensures forall id :: id in s'.streams ==> s'.streams[id].inbox
    ensures forall id :: id in s'.waiters ==> s'.waiters[id].inbox
  {
    AnnounceIsNotify(s, w, store.subs, Notified(store.subs, s.writers[w].seqNo), streamSub, waiterSub);
    store.NotifyChange(s.writers[w].seqNo);
    s' := Next(s, Notify(w));
  }

  /** A reading loop takes up to 500 changes, and it waits exactly when it took fewer, which
      is when it stands at the end of the log. */
  lemma ReadsThenWaits(steps: seq<Step>, id: nat)
    ensures var s := Run(steps);
      id in s.streams && !s.streams[id].waiting ==>
        var loop := Next(s, ReadPage(id)).streams[id];
        && (if s.streams[id].cursor + 500 <= |s.changes|
            then !loop.waiting && loop.cursor == s.streams[id].cursor + 500
            else loop.waiting && loop.cursor == |s.changes|)
        && loop.inbox == s.streams[id].inbox
  {
    RunKeeps(steps);
    var s := Run(steps);
    if id in s.streams {
      assert StreamOk(s, s.streams[id]);
      PageIsNextRun(AsLog(s.changes), s.streams[id].cursor, STREAM_REPLAY_PAGE);
    }
  }

  /** A wait ends by a value in the channel, which is taken, or by a tick, and by nothing else. */
  lemma WakesOnlyByValueOrTick(s: Hub, step: Step, id: nat)
    requires id in s.streams && s.streams[id].waiting && id in Next(s, step).streams
    ensures var loop := Next(s, step).streams[id];
      && (!loop.waiting <==> (step == WakeStream(id) && s.streams[id].inbox) || step == TickStream(id))
      && (step == WakeStream(id) ==> !loop.inbox)
      && loop.cursor == s.streams[id].cursor
  {
  }

  /** One turn of a wait: a missing row is not found, a row with one of the five terminal
      statuses finishes it, the bound ends it, and otherwise it blocks. */
  lemma TurnOfWait(s: Hub, id: nat, late: bool)
    requires id in s.waiters && !s.waiters[id].waiting && s.waiters[id].answer == Pending
    ensures var run, wait := s.waiters[id].run, Next(s, ReadRun(id, late)).waiters[id];
      && (wait.answer == NotFound <==> run !in s.runs)
      && (wait.answer.Finished? <==>
        run in s.runs && s.runs[run] in {"passed", "failed", "cancelled", "timed_out", "interrupted"})
      && (wait.answer.TimedOut? <==>
        late && run in s.runs && s.runs[run] !in {"passed", "failed", "cancelled", "timed_out", "interrupted"})
      && (wait.answer.Finished? || wait.answer.TimedOut? ==> wait.answer.status == s.runs[run])
      && (wait.waiting <==> wait.answer == Pending) && wait.run == run && wait.readAt == |s.writes|
  {
  }

  /** What each writer of run rows leaves in the table. */
  lemma WritersWrite(s: Hub, w: nat, run: string, status: string, local: bool)
    requires w !in s.writers
    ensures run !in s.runs ==> Next(s, CreateRun(w, run, status, local)).runs == s.runs[run := status]
    ensures run in s.runs ==>
      && Next(s, UpdateRunStatus(w, run, status, local)).runs == s.runs[run := status]
      && Next(s, DeleteRun(w, run, local)).runs == s.runs - {run}
    ensures Next(s, ReconcileRun(w, run, local)).runs ==
      if run in s.runs && s.runs[run] == "running" then s.runs[run := "interrupted"] else s.runs
  {
  }

  /** Whatever such a write moved is still to be announced by its writer. */
  lemma WritersOwe(s: Hub, step: Step)
    requires step.CreateRun? || step.UpdateRunStatus? || step.ReconcileRun? || step.DeleteRun?
    requires Next(s, step) != s
    ensures var s' := Next(s, step);
      && Unlogged(s', step.run) && step.w in s'.writers && s'.writers[step.w] == Wrote(step.run, |s.writes|, step.local)
      && s'.writes == s.writes + [RowWrite(step.run, if step.run in s'.runs then Some(s'.runs[step.run]) else None, step.local)]
  {
    assert Next(s, step).writers[step.w] == Wrote(step.run, |s.writes|, step.local);
  }

  /** An append puts one change of the writer's run at the end of the log. */
  lemma AppendsAtEnd(s: Hub, w: nat)
    requires w in s.writers && s.writers[w].Wrote?
    ensures Next(s, AppendRun(w)).changes == s.changes + [Change(|s.changes| + 1, RunChannel, s.writers[w].run)]
    ensures Next(s, AppendRun(w)).writers[w] == Logged(Some(s.writers[w].writeNo), |s.changes| + 1, s.writers[w].local)
  {
  }

  /** A snapshot holds the current status of every listed run, and re-reading holds the
      current status of the run the next change names and moves on by that change. */
  lemma FollowersRead(s: Hub, id: nat, listed: set<string>)
    requires id in s.followers
    ensures forall n :: n !in s.followers ==> Next(s, SnapshotSequence(n)).followers == s.followers[n := SeqRead(|s.changes|)]
    ensures s.followers[id].SeqRead? ==>
      var f := Next(s, SnapshotRows(id, listed)).followers[id];
      && f.Following? && f.cursor == s.followers[id].seqNo && f.view.Keys == listed * s.runs.Keys
      && forall run :: run in f.view ==> f.view[run] == Some(s.runs[run])
    ensures s.followers[id].Following? && s.followers[id].cursor < |s.changes| ==>
      var c := s.changes[s.followers[id].cursor];
      var f := Next(Next(s, Reread(id)), Advance(id)).followers[id];
      && f.Following? && f.cursor == s.followers[id].cursor + 1
      && (c.channel == RunChannel ==>
        c.entity in f.view && f.view[c.entity] == if c.entity in s.runs then Some(s.runs[c.entity]) else None)
      && forall run :: run in s.followers[id].view && run != c.entity ==> run in f.view && f.view[run] == s.followers[id].view[run]
  {
  }

  /** Why the sequence is read before the rows: rows read before a write and a sequence read
      after its append leave the old status with nothing above the cursor to correct it. */
  lemma RowsBeforeSequenceWouldBeStale(s: Hub, w: nat, run: string, status: string)
    requires w !in s.writers && run in s.runs && s.runs[run] != status && !Unlogged(s, run)
    ensures var later := Next(Next(s, UpdateRunStatus(w, run, status, true)), AppendRun(w));
      !Accounted(later, map[run := StatusOf(s.runs, run)], |later.changes|, run)
  {
    var wrote := Next(s, UpdateRunStatus(w, run, status, true));
    var later := Next(wrote, AppendRun(w));
    assert wrote.writers[w] == Wrote(run, |s.writes|, true);
    forall v | v in later.writers ensures !NotAppended(later.writers[v], run) {
      assert v != w ==> v in s.writers && later.writers[v] == s.writers[v];
    }
  }
}
