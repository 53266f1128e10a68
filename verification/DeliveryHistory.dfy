/** What the delivery history of one key can look like after any sequence of calls. */
module DeliveryHistory {
  import opened Wrappers
  import opened Delivery

  /** The table after a run of calls, one at a time, on any keys. */
  function Run(steps: seq<Step>): seq<Row> {
    if steps == [] then []
    else
      var before := Run(steps[..|steps| - 1]);
      before + NewRows(before, steps[|steps| - 1])
  }

  function CallsOn(rows: seq<Row>, step: Step, key: string): nat {
    if step.key == key then NewCalls(rows, step) else 0
  }

  /** How often the attempt of this key was called. */
  function CallsMade(steps: seq<Step>, key: string): nat {
    if steps == [] then 0
    else
      var last := steps[|steps| - 1];
      CallsMade(steps[..|steps| - 1], key) + CallsOn(Run(steps[..|steps| - 1]), last, key)
  }

  function Deliveries(steps: seq<Step>, key: string): nat {
    if steps == [] then 0
    else
      var last := steps[|steps| - 1];
      Deliveries(steps[..|steps| - 1], key) + if last.Deliver? && last.key == key then 1 else 0
  }

  // ---- the grammar of a history

  predicate Is(row: Row, state: State, attempt: nat) {
    row.state == state && row.attempt == attempt
  }

  /** One episode that died: pending, two retries and a dead letter. */
  ghost predicate DeadEpisode(h: seq<Row>, start: nat) {
    && |h| == 4
    && Is(h[0], Pending, start)
    && Is(h[1], Retrying, start + 1)
    && Is(h[2], Retrying, start + 2)
    && Is(h[3], DeadLetter, start + 2)
  }

  /** `n` of them, numbered on from one to the next. */
  ghost predicate DeadEpisodes(h: seq<Row>, n: nat) {
    if n == 0 then h == []
    else |h| == 4 * n && DeadEpisodes(h[..|h| - 4], n - 1) && DeadEpisode(h[|h| - 4..], 3 * n - 2)
  }

  /** One episode that was delivered after at most two retries. */
  ghost predicate DeliveredEpisode(h: seq<Row>, start: nat) {
    && 2 <= |h| <= 4
    && Is(h[0], Pending, start)
    && (forall i :: 0 < i < |h| - 1 ==> Is(h[i], Retrying, start + i))
    && Is(h[|h| - 1], Delivered, start + |h| - 2)
  }

  ghost predicate WellFormed(h: seq<Row>) {
    exists n: nat :: Parses(h, n)
  }

  /** First `n` dead episodes; then nothing, a delivered episode numbered on from them, or,
      after at least one of them, a quarantine. */
  ghost predicate Parses(h: seq<Row>, n: nat) {
    && 4 * n <= |h|
    && DeadEpisodes(h[..4 * n], n)
    && (|h| == 4 * n
        || DeliveredEpisode(h[4 * n..], 3 * n + 1)
        || (n > 0 && |h| == 4 * n + 1 && Is(h[4 * n], Quarantined, 0)))
  }

  // ---- a key sees only its own rows

  lemma {:induction false} HistoryConcat(a: seq<Row>, b: seq<Row>, key: string)
    ensures History(a + b, key) == History(a, key) + History(b, key)
  {
    if a == [] {
      assert a + b == b;
    } else {
      HistoryConcat(a[1..], b, key);
      assert (a + b)[1..] == a[1..] + b;
      var head := if a[0].key == key then [a[0]] else [];
      assert head + (History(a[1..], key) + History(b, key)) == (head + History(a[1..], key)) + History(b, key);
    }
  }

  lemma {:induction false} HistoryOfOwn(rows: seq<Row>, owner: string, key: string)
    requires forall i :: 0 <= i < |rows| ==> rows[i].key == owner
    ensures History(rows, key) == if owner == key then rows else []
  {
    if rows != [] {
      HistoryOfOwn(rows[1..], owner, key);
    }
  }

  lemma {:induction false} LatestIsLast(rows: seq<Row>, key: string)
    ensures var h := History(rows, key);
      Latest(rows, key) == if h == [] then None else Some(h[|h| - 1].state)
  {
    if rows != [] {
      var before, last := rows[..|rows| - 1], rows[|rows| - 1];
      LatestIsLast(before, key);
      HistoryConcat(before, [last], key);
      assert before + [last] == rows;
      HistoryOfOwn([last], last.key, key);
    }
  }

  lemma {:induction false} SuccessIsInHistory(rows: seq<Row>, key: string)
    ensures HasSuccess(rows, key) <==>
      exists i :: 0 <= i < |History(rows, key)| && IsSuccess(History(rows, key)[i].state)
  {
    if rows != [] {
      var before, last := rows[..|rows| - 1], rows[|rows| - 1];
      var h, h' := History(before, key), History(rows, key);
      SuccessIsInHistory(before, key);
      HistoryConcat(before, [last], key);
      assert before + [last] == rows;
      HistoryOfOwn([last], last.key, key);
      if last.key == key {
        assert h' == h + [last];
        assert h'[|h|] == last;
        assert forall i :: 0 <= i < |h| ==> h'[i] == h[i];
      } else {
        assert h' == h;
      }
    }
  }

  lemma {:induction false} TriesAreOwn(key: string, next: nat, last: nat, outcomes: Outcomes, taken: bool)
    requires next <= last
    ensures forall i :: 0 <= i < |Tries(key, next, last, outcomes, taken)| ==>
      Tries(key, next, last, outcomes, taken)[i].key == key
    decreases last - next
  {
    if outcomes(next).Some? && next < last {
      TriesAreOwn(key, next + 1, last, outcomes, taken);
    }
  }

  /** A call appends only rows of its own key. */
  lemma NewRowsAreOwn(rows: seq<Row>, step: Step, key: string)
    ensures History(NewRows(rows, step), key) == if step.key == key then NewRows(rows, step) else []
  {
    if !step.Quarantine? {
      var start := if step.Deliver? then 1 else ReplayStart(rows, step.key);
      TriesAreOwn(step.key, start, LastOf(start), step.outcomes, step.Replay? && HasSuccess(rows, step.key));
    }
    HistoryOfOwn(NewRows(rows, step), step.key, key);
  }

  lemma HistoryStep(rows: seq<Row>, step: Step, key: string)
    ensures History(rows + NewRows(rows, step), key)
         == History(rows, key) + if step.key == key then NewRows(rows, step) else []
  {
    HistoryConcat(rows, NewRows(rows, step), key);
    NewRowsAreOwn(rows, step, key);
  }

  // ---- one episode

  ghost predicate EpisodeMade(e: seq<Row>, start: nat, calls: nat)
    requires start > 0
  {
    && MaxAttempt(e) == start - 1 + calls
    && ((DeliveredEpisode(e, start) && calls == |e| - 1) || (DeadEpisode(e, start) && calls == 3))
  }

  lemma AttemptedMax(e: seq<Row>, key: string, start: nat, outcomes: Outcomes, calls: nat)
    requires start > 0 && Attempted(e, key, start, outcomes, calls, false)
    ensures MaxAttempt(e) == start - 1 + calls
  {
    MaxAttemptMeans(e);
    assert e[|e| - 1] in e && e[|e| - 1].attempt == start - 1 + calls;
    assert forall i :: 0 <= i < |e| ==> e[i].attempt <= start - 1 + calls;
  }

  /** An episode either dies in four rows and three calls or is delivered, and the number
      of its last attempt counts its calls on from where it started. */
  lemma EpisodeShape(key: string, start: nat, outcomes: Outcomes)
    requires start > 0
    ensures EpisodeMade(Episode(key, start, outcomes, false), start, Calls(start, LastOf(start), outcomes))
  {
    EpisodeIsAttempted(key, start, outcomes, false);
    AttemptedMax(Episode(key, start, outcomes, false), key, start, outcomes, Calls(start, LastOf(start), outcomes));
  }

  lemma MaxOf(rows: seq<Row>, row: Row)
    ensures MaxAttempt(rows + [row]) == if row.attempt > MaxAttempt(rows) then row.attempt else MaxAttempt(rows)
    ensures MaxAttempt([row]) == row.attempt
  {
    assert (rows + [row])[..|rows|] == rows;
    assert [row][..0] == [];
  }

  lemma {:induction false} MaxConcat(a: seq<Row>, b: seq<Row>)
    ensures MaxAttempt(a + b) == if MaxAttempt(b) > MaxAttempt(a) then MaxAttempt(b) else MaxAttempt(a)
  {
    if b == [] {
      assert a + b == a;
    } else {
      MaxConcat(a, b[..|b| - 1]);
      assert (a + b)[..|a + b| - 1] == a + b[..|b| - 1];
    }
  }

  // ---- the invariant of a key that was delivered at most once

  ghost predicate Sound(h: seq<Row>, calls: nat) {
    WellFormed(h) && calls == MaxAttempt(h)
  }

  lemma DeadEpisodeMax(h: seq<Row>, start: nat)
    requires DeadEpisode(h, start)
    ensures MaxAttempt(h) == start + 2
  {
    MaxOf([], h[0]);
    MaxOf([h[0]], h[1]);
    MaxOf([h[0]] + [h[1]], h[2]);
    MaxOf([h[0]] + [h[1]] + [h[2]], h[3]);
    assert h == [h[0]] + [h[1]] + [h[2]] + [h[3]];
  }

  lemma {:induction false} DeadEpisodesMax(h: seq<Row>, n: nat)
    requires DeadEpisodes(h, n)
    ensures |h| == 4 * n && MaxAttempt(h) == 3 * n
    ensures n > 0 ==> h[|h| - 1].state == DeadLetter
  {
    if n > 0 {
      var before, last := h[..|h| - 4], h[|h| - 4..];
      DeadEpisodesMax(before, n - 1);
      DeadEpisodeMax(last, 3 * n - 2);
      MaxConcat(before, last);
      assert h == before + last;
    }
  }

  predicate Unfinished(row: Row, first: bool) {
    !IsSuccess(row.state) && (!first ==> !Is(row, Pending, 1))
  }

  /** No row of theirs is a success, and only the very first starts at 1. */
  lemma {:induction false} DeadEpisodesRows(h: seq<Row>, n: nat)
    requires DeadEpisodes(h, n)
    ensures forall i :: 0 <= i < |h| ==> Unfinished(h[i], i == 0)
  {
    if n > 0 {
      var before, last := h[..|h| - 4], h[|h| - 4..];
      DeadEpisodesRows(before, n - 1);
      forall i | 0 <= i < |h| ensures Unfinished(h[i], i == 0) {
        if i < |before| {
          assert h[i] == before[i];
        } else {
          assert h[i] == last[i - |before|];
        }
      }
    }
  }

  lemma DeadEpisodesMean(h: seq<Row>, n: nat)
    requires DeadEpisodes(h, n)
    ensures |h| == 4 * n && MaxAttempt(h) == 3 * n
    ensures forall i :: 0 <= i < |h| ==> !IsSuccess(h[i].state)
    ensures forall i :: 0 < i < |h| ==> !Is(h[i], Pending, 1)
    ensures n > 0 ==> h[|h| - 1].state == DeadLetter
  {
    DeadEpisodesMax(h, n);
    DeadEpisodesRows(h, n);
    assert forall i :: 0 <= i < |h| ==> Unfinished(h[i], i == 0);
  }

  /** What a parse says about each row. */
  lemma RowsOfParse(h: seq<Row>, n: nat)
    requires Parses(h, n)
    ensures forall i :: 0 <= i < |h| && IsSuccess(h[i].state) ==> i == |h| - 1
    ensures forall i :: 0 < i < |h| ==> !Is(h[i], Pending, 1)
    ensures h != [] ==> h[|h| - 1].state in {DeadLetter, Delivered, Quarantined}
    ensures |h| == 4 * n <==> h == [] || h[|h| - 1].state == DeadLetter
  {
    var dead, rest := h[..4 * n], h[4 * n..];
    DeadEpisodesMean(dead, n);
    assert rest == [] ==> h == dead;
    assert rest != [] ==> h[|h| - 1] == rest[|rest| - 1];
    forall i | 0 <= i < |h|
      ensures (IsSuccess(h[i].state) ==> i == |h| - 1) && (i > 0 ==> !Is(h[i], Pending, 1))
    {
      assert h[i] == if i < 4 * n then dead[i] else rest[i - 4 * n];
    }
  }

  /** What the last row of a well-formed history says about the rest of it. */
  lemma LastRowTells(h: seq<Row>)
    requires WellFormed(h)
    ensures h != [] ==> h[|h| - 1].state in {DeadLetter, Delivered, Quarantined}
    ensures h == [] || h[|h| - 1].state == DeadLetter ==> exists n: nat :: DeadEpisodes(h, n)
    ensures (exists i :: 0 <= i < |h| && IsSuccess(h[i].state)) <==> h != [] && h[|h| - 1].state == Delivered
  {
    var n: nat :| Parses(h, n);
    RowsOfParse(h, n);
    if |h| == 4 * n {
      assert h[..4 * n] == h;
    }
  }

  lemma DeliveredKeeps(h: seq<Row>, n: nat, e: seq<Row>)
    requires DeadEpisodes(h, n) && DeliveredEpisode(e, 3 * n + 1)
    ensures WellFormed(h + e)
  {
    DeadEpisodesMean(h, n);
    assert (h + e)[..4 * n] == h && (h + e)[4 * n..] == e;
    assert Parses(h + e, n);
  }

  lemma DeadKeeps(h: seq<Row>, n: nat, e: seq<Row>)
    requires DeadEpisodes(h, n) && DeadEpisode(e, 3 * n + 1)
    ensures WellFormed(h + e)
  {
    DeadEpisodesMean(h, n);
    Halves(h, e);
    var all := h + e;
    assert DeadEpisodes(all, n + 1);
    assert all[..4 * (n + 1)] == all;
    assert Parses(all, n + 1);
  }

  lemma Halves(h: seq<Row>, e: seq<Row>)
    ensures (h + e)[..|h + e| - |e|] == h && (h + e)[|h + e| - |e|..] == e
  {
  }

  lemma EpisodeKeeps(h: seq<Row>, e: seq<Row>, calls: nat)
    requires exists n: nat :: DeadEpisodes(h, n)
    requires EpisodeMade(e, MaxAttempt(h) + 1, calls)
    ensures Sound(h + e, MaxAttempt(h) + calls)
  {
    var n: nat :| DeadEpisodes(h, n);
    DeadEpisodesMean(h, n);
    MaxConcat(h, e);
    if DeliveredEpisode(e, 3 * n + 1) {
      DeliveredKeeps(h, n, e);
    } else {
      DeadKeeps(h, n, e);
    }
  }

  lemma QuarantineKeeps(h: seq<Row>, key: string, reason: string)
    requires exists n: nat :: DeadEpisodes(h, n)
    requires h != []
    ensures Sound(h + [Row(key, Quarantined, 0, reason)], MaxAttempt(h))
  {
    var n: nat :| DeadEpisodes(h, n);
    var row := Row(key, Quarantined, 0, reason);
    DeadEpisodesMean(h, n);
    MaxOf(h, row);
    assert (h + [row])[..4 * n] == h;
    assert Parses(h + [row], n);
  }

  /** What the latest row lets the next call on its key do. */
  lemma GuardMeans(rows: seq<Row>, key: string)
    requires WellFormed(History(rows, key))
    ensures Latest(rows, key) in {None, Some(DeadLetter)} ==>
      !HasSuccess(rows, key) && exists n: nat :: DeadEpisodes(History(rows, key), n)
    ensures Latest(rows, key) == None <==> History(rows, key) == []
  {
    LatestIsLast(rows, key);
    SuccessIsInHistory(rows, key);
    LastRowTells(History(rows, key));
  }

  lemma DeliverKeeps(rows: seq<Row>, calls: nat, key: string, outcomes: Outcomes)
    requires Sound(History(rows, key), calls) && History(rows, key) == []
    ensures Sound(History(rows, key) + DeliveredRows(rows, key, outcomes), calls + DeliveredCalls(rows, key, outcomes))
  {
    GuardMeans(rows, key);
    EpisodeShape(key, 1, outcomes);
    EpisodeKeeps([], Episode(key, 1, outcomes, false), Calls(1, LastOf(1), outcomes));
  }

  lemma ReplayKeeps(rows: seq<Row>, calls: nat, key: string, outcomes: Outcomes)
    requires Sound(History(rows, key), calls)
    ensures Sound(History(rows, key) + ReplayedRows(rows, key, outcomes), calls + ReplayedCalls(rows, key, outcomes))
  {
    var h := History(rows, key);
    GuardMeans(rows, key);
    if Latest(rows, key) == Some(DeadLetter) {
      var start := ReplayStart(rows, key);
      EpisodeShape(key, start, outcomes);
      EpisodeKeeps(h, Episode(key, start, outcomes, false), Calls(start, LastOf(start), outcomes));
    } else {
      assert h + [] == h;
    }
  }

  lemma QuarantiningKeeps(rows: seq<Row>, calls: nat, key: string, reason: string)
    requires Sound(History(rows, key), calls)
    ensures Sound(History(rows, key) + QuarantinedRows(rows, key, reason), calls)
  {
    var h := History(rows, key);
    GuardMeans(rows, key);
    if Latest(rows, key) == Some(DeadLetter) {
      QuarantineKeeps(h, key, reason);
    } else {
      assert h + [] == h;
    }
  }

  /** A call on the key itself: a first delivery, a replay or a quarantine. */
  lemma OwnStepKeeps(rows: seq<Row>, calls: nat, step: Step)
    requires Sound(History(rows, step.key), calls)
    requires step.Deliver? ==> History(rows, step.key) == []
    ensures Sound(History(rows, step.key) + NewRows(rows, step), calls + NewCalls(rows, step))
  {
    match step
    case Deliver(key, _, outcomes) => DeliverKeeps(rows, calls, key, outcomes);
    case Replay(key, outcomes) => ReplayKeeps(rows, calls, key, outcomes);
    case Quarantine(key, reason) => QuarantiningKeeps(rows, calls, key, reason);
  }

  lemma StepKeeps(rows: seq<Row>, calls: nat, step: Step, key: string)
    requires Sound(History(rows, key), calls)
    requires step.Deliver? && step.key == key ==> History(rows, key) == []
    ensures Sound(History(rows + NewRows(rows, step), key),
                  calls + CallsOn(rows, step, key))
  {
    HistoryStep(rows, step, key);
    if step.key == key {
      OwnStepKeeps(rows, calls, step);
    } else {
      assert History(rows, key) + [] == History(rows, key);
    }
  }

  lemma {:induction false} UndeliveredIsEmpty(steps: seq<Step>, key: string)
    requires Deliveries(steps, key) == 0
    ensures History(Run(steps), key) == []
  {
    if steps != [] {
      var before, last := steps[..|steps| - 1], steps[|steps| - 1];
      UndeliveredIsEmpty(before, key);
      LatestIsLast(Run(before), key);
      HistoryStep(Run(before), last, key);
    }
  }

  /** One DeliverEnvelope with any replays and quarantines, among calls on other keys: the
      history is episodes of pending, up to two retrying, then delivered or dead letter;
      a replay starts one above the highest attempt recorded; and the attempt was called
      exactly as often as that highest number says. */
  lemma {:induction false} HistoryIsWellFormed(steps: seq<Step>, key: string)
    requires Deliveries(steps, key) <= 1
    ensures WellFormed(History(Run(steps), key))
    ensures CallsMade(steps, key) == MaxAttempt(History(Run(steps), key))
  {
    if steps == [] {
      assert Parses([], 0);
    } else {
      var before, last := steps[..|steps| - 1], steps[|steps| - 1];
      HistoryIsWellFormed(before, key);
      if last.Deliver? && last.key == key {
        UndeliveredIsEmpty(before, key);
      }
      StepKeeps(Run(before), CallsMade(before, key), last, key);
    }
  }

  lemma NothingAfterDelivered(rows: seq<Row>, step: Step)
    requires Latest(rows, step.key) == Some(Delivered)
    ensures NewRows(rows, step) == [] && NewCalls(rows, step) == 0
  {
    LatestIsState(rows, step.key);
    SuccessMeans(rows, step.key);
  }

  /** A key whose latest row is delivered gains no row and no call from any step. */
  lemma DeliveredIsLeftAlone(rows: seq<Row>, step: Step, key: string)
    requires Latest(rows, key) == Some(Delivered)
    ensures History(rows + NewRows(rows, step), key) == History(rows, key)
    ensures Latest(rows + NewRows(rows, step), key) == Some(Delivered)
    ensures CallsOn(rows, step, key) == 0
  {
    if step.key == key {
      NothingAfterDelivered(rows, step);
      assert rows + [] == rows;
    } else {
      HistoryStep(rows, step, key);
      assert History(rows, key) + [] == History(rows, key);
      LatestIsLast(rows, key);
      LatestIsLast(rows + NewRows(rows, step), key);
    }
  }

  lemma RunLast(steps: seq<Step>, before: seq<Step>, last: Step)
    requires steps == before + [last]
    ensures Run(steps) == Run(before) + NewRows(Run(before), last)
  {
    assert steps[..|steps| - 1] == before && steps[|steps| - 1] == last;
  }

  lemma LastRun(steps: seq<Step>, more: seq<Step>)
    requires more != []
    ensures var rows := Run(steps + more[..|more| - 1]);
      Run(steps + more) == rows + NewRows(rows, more[|more| - 1])
  {
    assert steps + more == (steps + more[..|more| - 1]) + [more[|more| - 1]];
    RunLast(steps + more, steps + more[..|more| - 1], more[|more| - 1]);
  }

  lemma CallsLast(steps: seq<Step>, before: seq<Step>, last: Step, key: string)
    requires steps == before + [last]
    ensures CallsMade(steps, key) == CallsMade(before, key) + CallsOn(Run(before), last, key)
  {
    assert steps[..|steps| - 1] == before && steps[|steps| - 1] == last;
  }

  lemma LastCalls(steps: seq<Step>, more: seq<Step>, key: string)
    requires more != []
    ensures CallsMade(steps + more, key)
         == CallsMade(steps + more[..|more| - 1], key) + CallsOn(Run(steps + more[..|more| - 1]), more[|more| - 1], key)
  {
    assert steps + more == (steps + more[..|more| - 1]) + [more[|more| - 1]];
    CallsLast(steps + more, steps + more[..|more| - 1], more[|more| - 1], key);
  }

  /** Delivered freezes a history for good: no later call on any key adds a row to it or
      calls its attempt, however many deliveries, replays and quarantines follow. */
  lemma {:induction false} DeliveredFreezes(steps: seq<Step>, more: seq<Step>, key: string)
    requires Latest(Run(steps), key) == Some(Delivered)
    ensures History(Run(steps + more), key) == History(Run(steps), key)
    ensures Latest(Run(steps + more), key) == Some(Delivered)
    ensures CallsMade(steps + more, key) == CallsMade(steps, key)
  {
    if more == [] {
      assert steps + more == steps;
    } else {
      var init, last := more[..|more| - 1], more[|more| - 1];
      DeliveredFreezes(steps, init, key);
      LastRun(steps, more);
      LastCalls(steps, more, key);
      DeliveredIsLeftAlone(Run(steps + init), last, key);
    }
  }

  /** A key without a success whose latest row is a quarantine gains no row from a replay or
      another quarantine, and always gains one from a delivery. */
  lemma QuarantinedStep(rows: seq<Row>, step: Step, key: string)
    requires Latest(rows, key) == Some(Quarantined) && !HasSuccess(rows, key)
    ensures step.key == key && step.Deliver? ==>
      |History(rows + NewRows(rows, step), key)| > |History(rows, key)|
    ensures !(step.key == key && step.Deliver?) ==>
      && History(rows + NewRows(rows, step), key) == History(rows, key)
      && Latest(rows + NewRows(rows, step), key) == Some(Quarantined) && !HasSuccess(rows + NewRows(rows, step), key)
  {
    var after := rows + NewRows(rows, step);
    HistoryStep(rows, step, key);
    assert History(rows, key) + [] == History(rows, key);
    LatestIsLast(rows, key);
    LatestIsLast(after, key);
    SuccessIsInHistory(rows, key);
    SuccessIsInHistory(after, key);
  }

  lemma HistoryNeverShrinks(rows: seq<Row>, step: Step, key: string)
    ensures |History(rows + NewRows(rows, step), key)| >= |History(rows, key)|
  {
    HistoryStep(rows, step, key);
  }

  lemma DeliveriesOf(more: seq<Step>, key: string)
    requires more != []
    ensures Deliveries(more, key)
         == Deliveries(more[..|more| - 1], key) + if more[|more| - 1].Deliver? && more[|more| - 1].key == key then 1 else 0
  {
  }

  /** A quarantine refuses every replay and every further quarantine, in any later history:
      the key gains a row exactly when it is delivered again, which no quarantine stops. */
  lemma {:induction false} QuarantineHoldsIff(steps: seq<Step>, more: seq<Step>, key: string)
    requires Latest(Run(steps), key) == Some(Quarantined) && !HasSuccess(Run(steps), key)
    ensures |History(Run(steps + more), key)| >= |History(Run(steps), key)|
    ensures |History(Run(steps + more), key)| == |History(Run(steps), key)| <==> Deliveries(more, key) == 0
    ensures Deliveries(more, key) == 0 ==>
      && History(Run(steps + more), key) == History(Run(steps), key)
      && Latest(Run(steps + more), key) == Some(Quarantined) && !HasSuccess(Run(steps + more), key)
  {
    if more == [] {
      assert steps + more == steps;
    } else {
      var init, last := more[..|more| - 1], more[|more| - 1];
      QuarantineHoldsIff(steps, init, key);
      LastRun(steps, more);
      DeliveriesOf(more, key);
      HistoryNeverShrinks(Run(steps + init), last, key);
      if Deliveries(init, key) == 0 {
        QuarantinedStep(Run(steps + init), last, key);
      }
    }
  }

  /** Exactly when the numbering survives a second DeliverEnvelope on a key with rows: when
      a success makes that call do nothing. Without one it starts again at 1. */
  lemma SecondDeliverBreaksNumbering(rows: seq<Row>, key: string, critical: bool, outcomes: Outcomes)
    requires WellFormed(History(rows, key)) && History(rows, key) != []
    ensures WellFormed(History(rows + NewRows(rows, Deliver(key, critical, outcomes)), key)) <==> HasSuccess(rows, key)
  {
    var step := Deliver(key, critical, outcomes);
    var h, e := History(rows, key), NewRows(rows, step);
    HistoryStep(rows, step, key);
    if HasSuccess(rows, key) {
      assert h + [] == h;
    } else {
      assert e[0] == Row(key, Pending, 1, "");
      assert (h + e)[|h|] == e[0];
      forall n: nat ensures !Parses(h + e, n) {
        if Parses(h + e, n) {
          RowsOfParse(h + e, n);
          assert false;
        }
      }
    }
  }
}
