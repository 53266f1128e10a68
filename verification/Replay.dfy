/** One client following the log across any number of disconnects, resumed by the id of
    the last event it received. Writing to the connection and receiving from it are
    separate steps; whatever is in flight when the connection drops is lost. */
module Replay {
  import opened Wrappers
  import opened ChangeLog
  import opened Stream

  datatype Event = Snapshot(seqNo: nat) | Item(change: Change)

  datatype Server = Offline | Serving(cursor: int, wire: seq<Event>)

  /** `cursor` is what the next connect sends; `got` is what was applied since `base`,
      the position of the last snapshot or of the first resume. */
  datatype Client = Client(cursor: Option<int>, started: bool, base: int, got: seq<Change>)

  /** `history` is every change ever appended, pruned or not. */
  datatype System = System(log: Log, history: seq<Change>, server: Server, client: Client)

  datatype Step =
    | Append(channel: Channel, entity: string)
    | Prune(count: nat)
    | Connect
    | WritePage
    | Receive
    | Disconnect

  function Start(cursor: Option<int>): System {
    System(EMPTY_LOG, [], Offline, Client(cursor, false, 0, []))
  }

  function Items(page: seq<Change>): seq<Event> {
    if page == [] then [] else [Item(page[0])] + Items(page[1..])
  }

  function Apply(c: Client, e: Event): Client {
    match e
    case Snapshot(n) => Client(Some(n), true, n, [])
    case Item(change) => c.(cursor := Some(change.seqNo), got := c.got + [change])
  }

  /** Rows are pruned only from the front and never above the cursor of an open stream. */
  predicate MayPrune(s: System, count: nat) {
    && count <= |s.log.rows|
    && (s.server.Serving? ==> s.log.watermark - |s.log.rows| + count <= s.server.cursor)
  }

  /** A connect is replayed from the client's cursor when that is complete, and answered
      with a snapshot naming the current sequence otherwise. */
  function Connected(s: System): System {
    if s.client.cursor.Some? && CanReplay(s.log, s.client.cursor.value) then
      var from := s.client.cursor.value;
      s.(server := Serving(from, []),
         client := if s.client.started then s.client else Client(Some(from), true, from, []))
    else
      s.(server := Serving(s.log.watermark, [Snapshot(s.log.watermark)]))
  }

  /** A step that is not possible leaves the system as it is. */
  function Next(s: System, step: Step): System {
    match step
    case Append(channel, entity) =>
      s.(log := Appended(s.log, channel, entity),
         history := s.history + [Change(s.log.watermark + 1, channel, entity)])
    case Prune(count) =>
      if MayPrune(s, count) then s.(log := Pruned(s.log, count)) else s
    case Connect =>
      if s.server.Offline? then Connected(s) else s
    case WritePage =>
      if s.server.Offline? then s else
      var page := Page(s.log, s.server.cursor, STREAM_REPLAY_PAGE);
      s.(server := Serving(Reached(page, s.server.cursor), s.server.wire + Items(page)))
    case Receive =>
      if s.server.Offline? || s.server.wire == [] then s else
      s.(server := s.server.(wire := s.server.wire[1..]), client := Apply(s.client, s.server.wire[0]))
    case Disconnect => s.(server := Offline)
  }

  function Run(s: System, steps: seq<Step>): System {
    if steps == [] then s else Next(Run(s, steps[..|steps| - 1]), steps[|steps| - 1])
  }

  /** Receiving everything on the wire takes the client from `at` to `to` with no gap. */
  ghost predicate Chained(history: seq<Change>, wire: seq<Event>, at: int, to: int) {
    if wire == [] then at == to
    else match wire[0]
      case Snapshot(n) => n <= |history| && Chained(history, wire[1..], n, to)
      case Item(c) => 0 <= at < |history| && c == history[at] && Chained(history, wire[1..], at + 1, to)
  }

  ghost predicate LogFits(log: Log, history: seq<Change>) {
    && ValidLog(log)
    && |history| == log.watermark
    && log.rows == history[|history| - |log.rows|..]
    && forall i :: 0 <= i < |history| ==> history[i].seqNo == i + 1
  }

  ghost predicate ClientFits(c: Client, history: seq<Change>) {
    c.started ==>
      && c.cursor.Some?
      && 0 <= c.base <= c.cursor.value <= |history|
      && c.got == history[c.base..c.cursor.value]
  }

  /** Where the wire continues from; a client that has not started is served a snapshot first. */
  function Position(c: Client): int {
    if c.started && c.cursor.Some? then c.cursor.value else 0
  }

  ghost predicate ServerFits(server: Server, log: Log, history: seq<Change>, c: Client) {
    server.Serving? ==>
      && log.watermark - |log.rows| <= server.cursor <= log.watermark
      && Chained(history, server.wire, Position(c), server.cursor)
      && (c.started || (|server.wire| > 0 && server.wire[0].Snapshot?))
  }

  ghost predicate Inv(s: System) {
    LogFits(s.log, s.history) && ClientFits(s.client, s.history) && ServerFits(s.server, s.log, s.history, s.client)
  }

  lemma {:induction false} ChainedGrows(history: seq<Change>, more: seq<Change>, wire: seq<Event>, at: int, to: int)
    requires Chained(history, wire, at, to)
    ensures Chained(history + more, wire, at, to)
  {
    if wire != [] {
      match wire[0]
      case Snapshot(n) => ChainedGrows(history, more, wire[1..], n, to);
      case Item(c) => ChainedGrows(history, more, wire[1..], at + 1, to);
    }
  }

  /** A page of items alone is chained from where it starts. */
  lemma {:induction false} ItemsAreChained(history: seq<Change>, at: int, page: seq<Change>)
    requires 0 <= at && at + |page| <= |history| && page == history[at..at + |page|]
    ensures Chained(history, Items(page), at, at + |page|)
    decreases |page|
  {
    if page != [] {
      assert page[0] == history[at];
      assert page[1..] == history[at + 1..at + 1 + |page[1..]|];
      ItemsAreChained(history, at + 1, page[1..]);
      assert Items(page)[1..] == Items(page[1..]);
    }
  }

  lemma {:induction false} ChainedJoins(history: seq<Change>, wire: seq<Event>, more: seq<Event>, at: int, mid: int, to: int)
    requires Chained(history, wire, at, mid) && Chained(history, more, mid, to)
    ensures Chained(history, wire + more, at, to)
    decreases |wire|
  {
    if wire == [] {
      assert wire + more == more;
    } else {
      assert (wire + more)[1..] == wire[1..] + more && (wire + more)[0] == wire[0];
      match wire[0]
      case Snapshot(n) => ChainedJoins(history, wire[1..], more, n, mid, to);
      case Item(c) => ChainedJoins(history, wire[1..], more, at + 1, mid, to);
    }
  }

  /** Putting the next stretch of the history on the wire takes its end further. */
  lemma PageIsChained(history: seq<Change>, wire: seq<Event>, at: int, to: int, page: seq<Change>)
    requires Chained(history, wire, at, to)
    requires 0 <= to && to + |page| <= |history| && page == history[to..to + |page|]
    ensures Chained(history, wire + Items(page), at, to + |page|)
  {
    ItemsAreChained(history, to, page);
    ChainedJoins(history, wire, Items(page), at, to, to + |page|);
  }

  lemma WireGrows(server: Server, log: Log, history: seq<Change>, c: Client, more: seq<Event>, to: int)
    requires ServerFits(server, log, history, c) && server.Serving?
    requires Chained(history, server.wire + more, Position(c), to) && server.cursor <= to <= log.watermark
    ensures ServerFits(Serving(to, server.wire + more), log, history, c)
  {
    if |server.wire| > 0 {
      assert (server.wire + more)[0] == server.wire[0];
    }
  }

  lemma WritePageKeeps(s: System)
    requires Inv(s) && s.server.Serving?
    ensures Inv(Next(s, WritePage))
  {
    var cursor := s.server.cursor;
    var page := Page(s.log, cursor, STREAM_REPLAY_PAGE);
    PageIsNextRun(s.log, cursor, STREAM_REPLAY_PAGE);
    assert page == s.history[cursor..cursor + |page|];
    assert Reached(page, cursor) == cursor + |page|;
    PageIsChained(s.history, s.server.wire, Position(s.client), cursor, page);
    WireGrows(s.server, s.log, s.history, s.client, Items(page), cursor + |page|);
  }

  lemma AppendKeeps(s: System, channel: Channel, entity: string)
    requires Inv(s)
    ensures Inv(Next(s, Append(channel, entity)))
  {
    var s' := Next(s, Append(channel, entity));
    var more := [Change(s.log.watermark + 1, channel, entity)];
    AppendedIsValid(s.log, channel, entity);
    if s.client.started {
      assert s'.client.got == s'.history[s.client.base..s.client.cursor.value];
    }
    if s.server.Serving? {
      ChainedGrows(s.history, more, s.server.wire, Position(s.client), s.server.cursor);
    }
  }

  lemma ReceiveKeeps(s: System)
    requires Inv(s)
    ensures Inv(Next(s, Receive))
  {
    if s.server.Serving? && s.server.wire != [] && s.server.wire[0].Item? {
      var at := s.client.cursor.value;
      assert s.history[s.client.base..at] + [s.history[at]] == s.history[s.client.base..at + 1];
    }
  }

  lemma PruneKeeps(s: System, count: nat)
    requires Inv(s)
    ensures Inv(Next(s, Prune(count)))
  {
    var s' := Next(s, Prune(count));
    assert MayPrune(s, count) ==> s'.log.rows == s'.history[|s'.history| - |s'.log.rows|..];
  }

  lemma ConnectKeeps(s: System)
    requires Inv(s)
    ensures Inv(Next(s, Connect))
  {
    var n := s.log.watermark;
    assert Chained(s.history, [], n, n);
    assert [Snapshot(n)][1..] == [];
    assert Chained(s.history, [Snapshot(n)], Position(s.client), n);
  }

  lemma NextKeeps(s: System, step: Step)
    requires Inv(s)
    ensures Inv(Next(s, step))
  {
    match step
    case Append(channel, entity) => AppendKeeps(s, channel, entity);
    case WritePage => if s.server.Serving? { WritePageKeeps(s); }
    case Prune(count) => PruneKeeps(s, count);
    case Connect => ConnectKeeps(s);
    case Receive => ReceiveKeeps(s);
    case Disconnect =>
  }

  lemma {:induction false} RunKeeps(cursor: Option<int>, steps: seq<Step>)
    ensures Inv(Run(Start(cursor), steps))
  {
    if steps == [] {
      var s := Start(cursor);
      assert LogFits(s.log, s.history) && ClientFits(s.client, s.history) && ServerFits(s.server, s.log, s.history, s.client);
    } else {
      RunKeeps(cursor, steps[..|steps| - 1]);
      NextKeeps(Run(Start(cursor), steps[..|steps| - 1]), steps[|steps| - 1]);
    }
  }

  /** Whatever was appended, pruned, dropped and resumed, the client holds every change
      after its base up to the last id it received: each once, in ascending order. */
  lemma ExactlyOnceInOrder(cursor: Option<int>, steps: seq<Step>)
    ensures var s := Run(Start(cursor), steps);
      s.client.started ==>
        && s.client.cursor.Some? && |s.client.got| == s.client.cursor.value - s.client.base
        && (forall i :: 0 <= i < |s.client.got| ==>
          0 <= s.client.base + i < |s.history|
          && s.client.got[i].seqNo == s.client.base + 1 + i
          && s.client.got[i] == s.history[s.client.base + i])
  {
    RunKeeps(cursor, steps);
  }

  /** The client keeps its base and all it holds, and gains at most the next change. */
  predicate GoesOn(c: Client, c': Client) {
    c'.base == c.base && c.got <= c'.got && |c'.got| <= |c.got| + 1
  }

  predicate ReceivesSnapshot(s: System, step: Step) {
    step.Receive? && s.server.Serving? && s.server.wire != [] && s.server.wire[0].Snapshot?
  }

  /** Only a snapshot, or the very first resume, moves a client's base; every other step
      keeps what it holds and can only add the next change to it. */
  lemma BaseMovesOnlyBySnapshot(cursor: Option<int>, steps: seq<Step>, step: Step)
    ensures var s := Run(Start(cursor), steps);
      s.client.started ==> GoesOn(s.client, Next(s, step).client) || ReceivesSnapshot(s, step)
  {
    RunKeeps(cursor, steps);
  }

  /** A resume is answered with a snapshot exactly when something after its cursor is gone. */
  lemma SnapshotOnlyWhenPruned(cursor: Option<int>, steps: seq<Step>)
    ensures var s := Run(Start(cursor), steps);
      s.server.Offline? && s.client.started && s.client.cursor.Some? ==>
        (Connected(s).server.wire == [] <==>
          s.client.cursor.value > 0 && forall n :: s.client.cursor.value < n <= s.log.watermark ==> Holds(s.log, n))
  {
    var s := Run(Start(cursor), steps);
    RunKeeps(cursor, steps);
    if s.client.started {
      CanReplayIsExact(s.log, s.client.cursor.value);
    }
  }

  /** What a connect is answered with: a snapshot of the whole history so far when the client
      names no position or one that cannot be replayed, and otherwise nothing but what comes
      after the position it names. */
  lemma ConnectAnswers(cursor: Option<int>, steps: seq<Step>)
    ensures var s := Run(Start(cursor), steps);
      s.server.Offline? ==>
        var s', n := Next(s, Connect), |s.history|;
        && s'.log == s.log && s'.history == s.history
        && s'.server == if s.client.cursor.Some? && 1 <= s.client.cursor.value <= n
                           && (forall k :: s.client.cursor.value < k <= n ==> Holds(s.log, k))
                        then Serving(s.client.cursor.value, []) else Serving(n, [Snapshot(n)])
  {
    var s := Run(Start(cursor), steps);
    RunKeeps(cursor, steps);
    if s.client.cursor.Some? {
      CanReplayIsExact(s.log, s.client.cursor.value);
    }
  }

  function Receives(n: nat): seq<Step> {
    seq(n, i => Receive)
  }

  lemma {:induction false} WireDrains(s: System, n: nat)
    requires Inv(s) && s.server.Serving? && n <= |s.server.wire|
    ensures var s' := Run(s, Receives(n));
      && Inv(s') && s'.server == Serving(s.server.cursor, s.server.wire[n..])
      && s'.log == s.log && s'.history == s.history
  {
    if n == 0 {
      assert Receives(0) == [] && s.server.wire[0..] == s.server.wire;
    } else {
      WireDrains(s, n - 1);
      assert Receives(n)[..n - 1] == Receives(n - 1) && Receives(n)[n - 1] == Receive;
      ReceiveKeeps(Run(s, Receives(n - 1)));
      assert s.server.wire[n - 1..][1..] == s.server.wire[n..];
    }
  }

  /** Receiving all that is on the wire brings a client to where its connection stands, with
      every change from its base up to there. */
  lemma ReceivingAllCatchesUp(cursor: Option<int>, steps: seq<Step>)
    ensures var s := Run(Start(cursor), steps);
      s.server.Serving? ==>
        var s' := Run(s, Receives(|s.server.wire|));
        && s'.server == Serving(s.server.cursor, []) && s'.client.started
        && s'.client.cursor == Some(s.server.cursor)
        && 0 <= s'.client.base <= s.server.cursor <= |s.history|
        && s'.client.got == s.history[s'.client.base..s.server.cursor]
  {
    var s := Run(Start(cursor), steps);
    RunKeeps(cursor, steps);
    if s.server.Serving? {
      WireDrains(s, |s.server.wire|);
      assert s.server.wire[|s.server.wire|..] == [];
    }
  }

  /** Appending adds one change at the end, numbered one above the last, and pruning takes
      rows from the front of the log alone, never one that an open stream still has to send. */
  lemma LogMoves(cursor: Option<int>, steps: seq<Step>, channel: Channel, entity: string, count: nat)
    ensures var s := Run(Start(cursor), steps);
      && Next(s, Append(channel, entity)).history == s.history + [Change(|s.history| + 1, channel, entity)]
      && Next(s, Append(channel, entity)).log.rows == s.log.rows + [Change(|s.history| + 1, channel, entity)]
      && Next(s, Prune(count)).history == s.history
      && Next(s, Prune(count)).log.rows ==
        if count <= |s.log.rows| && (s.server.Serving? ==> forall i :: 0 <= i < count ==> s.log.rows[i].seqNo <= s.server.cursor)
        then s.log.rows[count..] else s.log.rows
  {
    var s := Run(Start(cursor), steps);
    RunKeeps(cursor, steps);
    if s.server.Serving? && 0 < count <= |s.log.rows| {
      assert s.log.rows[count - 1].seqNo == s.log.watermark - |s.log.rows| + count;
    }
  }

  /** A connection that wrote a page that was not full has nothing left to send, and a
      client that has received all of it is at the end of the history. */
  lemma DrainedMeansCaughtUp(cursor: Option<int>, steps: seq<Step>)
    ensures var s := Run(Start(cursor), steps);
      s.server.Serving? && |Page(s.log, s.server.cursor, STREAM_REPLAY_PAGE)| < STREAM_REPLAY_PAGE ==>
        var s' := Next(s, WritePage);
        && s'.server.cursor == |s'.history|
        && (s'.server.wire == [] ==>
          s'.client.started && 0 <= s'.client.base <= |s'.history| && s'.client.got == s'.history[s'.client.base..])
  {
    var s := Run(Start(cursor), steps);
    RunKeeps(cursor, steps);
    if s.server.Serving? {
      PageIsNextRun(s.log, s.server.cursor, STREAM_REPLAY_PAGE);
      WritePageKeeps(s);
      var s' := Next(s, WritePage);
      if |Page(s.log, s.server.cursor, STREAM_REPLAY_PAGE)| < STREAM_REPLAY_PAGE && s'.server.wire == [] {
        assert s'.client.started;
        assert s'.client.cursor.value == |s'.history|;
      }
    }
  }

  lemma HeldAfterPrune(log: Log, count: nat, cursor: nat)
    requires ValidLog(log) && count <= |log.rows| && cursor <= log.watermark
    ensures (forall n :: cursor < n <= log.watermark ==> Holds(Pruned(log, count), n))
        <==> log.watermark - |log.rows| + count <= cursor
  {
    var pruned := Pruned(log, count);
    forall n ensures Holds(pruned, n) <==> log.watermark - |log.rows| + count < n <= log.watermark {
      HeldRange(pruned, n);
    }
    assert Holds(pruned, cursor + 1) || !Holds(pruned, cursor + 1);
  }

  lemma PassedAfterPrune(log: Log, count: nat, cursor: nat, from: nat)
    requires ValidLog(log) && count <= |log.rows| && log.watermark - |log.rows| <= cursor <= log.watermark
    requires from == if log.watermark - |log.rows| + count > cursor then log.watermark - |log.rows| + count else cursor
    ensures ValidLog(Pruned(log, count))
    ensures Passed(Pruned(log, count), cursor) == Passed(log, from) - count
    ensures log.rows[count..][Passed(log, from) - count..] == log.rows[Passed(log, from)..]
  {
  }

  lemma PageAfterPrune(log: Log, count: nat, cursor: nat, from: nat)
    requires ValidLog(log) && count <= |log.rows| && log.watermark - |log.rows| <= cursor <= log.watermark
    requires from == if log.watermark - |log.rows| + count > cursor then log.watermark - |log.rows| + count else cursor
    ensures Above(Pruned(log, count).rows, cursor) == Above(log.rows, from)
  {
    PassedAfterPrune(log, count, cursor, from);
    assert Above(Pruned(log, count).rows, cursor) == log.rows[count..][Passed(log, from) - count..] by {
      AboveIsSuffix(Pruned(log, count), cursor);
    }
    assert Above(log.rows, from) == log.rows[Passed(log, from)..] by {
      AboveIsSuffix(log, from);
    }
  }

  /** Why rows above a live cursor must stay: whatever the log, a prune past the cursor makes
      the next page go on after the pruned rows, without any error. Everything after the
      cursor is still to come exactly when the prune did not pass it. */
  lemma PruneAboveCursorLosesAChange(log: Log, cursor: nat, count: nat)
    requires ValidLog(log) && count <= |log.rows| && log.watermark - |log.rows| <= cursor <= log.watermark
    ensures var pruned, floor := Pruned(log, count), log.watermark - |log.rows| + count;
      && Page(pruned, cursor, STREAM_REPLAY_PAGE) == Page(log, if floor > cursor then floor else cursor, STREAM_REPLAY_PAGE)
      && ((forall n :: cursor < n <= log.watermark ==> Holds(pruned, n)) <==> floor <= cursor)
  {
    var floor := log.watermark - |log.rows| + count;
    PageAfterPrune(log, count, cursor, if floor > cursor then floor else cursor);
    HeldAfterPrune(log, count, cursor);
  }
}
