/** Bounded-retry delivery recorded as an INSERT-only history, with dead letters that can
    be replayed or quarantined. A partial unique index admits one success row per key. */
module Delivery {
  import opened Wrappers

  datatype State = Pending | Retrying | Delivered | DeadLetter | Quarantined | Acknowledged

  datatype Row = Row(key: string, state: State, attempt: nat, error: string)

  const DELIVERY_MAX_ATTEMPTS: nat := 3

  const INDEX_REFUSED := "recording delivered delivery: unique index"

  /** How an operation answers; an error carries its text. */
  datatype Answer = Succeeded | Failed(error: string) | Refused

  /** The result of each attempt by its number: nothing, or the error it failed with. */
  type Outcomes = nat -> Option<string>

  function AsAnswer(err: Option<string>): Answer {
    match err
    case None => Succeeded
    case Some(error) => Failed(error)
  }

  predicate IsSuccess(state: State) {
    state == Delivered || state == Acknowledged
  }

  // ---- the key

  function IdempotencyKey(envelopeID: string, consumer: string): string {
    envelopeID + ":" + consumer
  }

  /** The longer id is the shorter one with the separator and a piece, and the shorter one's
      consumer is that piece with the separator and the longer one's consumer. */
  predicate Borrows(longer: string, consumer: string, shorter: string, other: string) {
    && shorter + ":" <= longer
    && other == longer[|shorter| + 1..] + ":" + consumer
  }

  lemma KeyOfLonger(longer: string, consumer: string, shorter: string, other: string)
    requires |longer| > |shorter|
    ensures IdempotencyKey(longer, consumer) == IdempotencyKey(shorter, other) <==> Borrows(longer, consumer, shorter, other)
  {
    var k1, k2 := IdempotencyKey(longer, consumer), IdempotencyKey(shorter, other);
    var n := |shorter|;
    assert k2[..n + 1] == shorter + ":" && k2[n + 1..] == other;
    assert k1[..n + 1] == longer[..n + 1] && k1[n + 1..] == longer[n + 1..] + ":" + consumer;
    assert k1 == k1[..n + 1] + k1[n + 1..] && k2 == k2[..n + 1] + k2[n + 1..];
  }

  /** Two pairs share a key exactly when they are the same pair or one borrows the other's. */
  lemma KeysEqualIff(e1: string, c1: string, e2: string, c2: string)
    ensures IdempotencyKey(e1, c1) == IdempotencyKey(e2, c2) <==>
      (e1 == e2 && c1 == c2) || Borrows(e1, c1, e2, c2) || Borrows(e2, c2, e1, c1)
  {
    if |e1| > |e2| {
      KeyOfLonger(e1, c1, e2, c2);
    } else if |e2| > |e1| {
      KeyOfLonger(e2, c2, e1, c1);
    } else {
      var k1, k2 := IdempotencyKey(e1, c1), IdempotencyKey(e2, c2);
      assert k1[..|e1|] == e1 && k2[..|e2|] == e2;
      assert k1[|e1| + 1..] == c1 && k2[|e2| + 1..] == c2;
    }
  }

  /** So as long as no envelope id holds the separator, the key names its pair. */
  lemma KeyNamesThePair(e1: string, c1: string, e2: string, c2: string)
    requires ':' !in e1 && ':' !in e2
    requires IdempotencyKey(e1, c1) == IdempotencyKey(e2, c2)
    ensures e1 == e2 && c1 == c2
  {
    KeysEqualIff(e1, c1, e2, c2);
    assert (e1 + ":")[|e1|] == ':' && (e2 + ":")[|e2|] == ':';
  }

  // ---- what each operation appends

  function History(rows: seq<Row>, key: string): seq<Row> {
    if rows == [] then []
    else (if rows[0].key == key then [rows[0]] else []) + History(rows[1..], key)
  }

  predicate HasSuccess(rows: seq<Row>, key: string) {
    if rows == [] then false
    else
      var last := rows[|rows| - 1];
      (last.key == key && IsSuccess(last.state)) || HasSuccess(rows[..|rows| - 1], key)
  }

  function Latest(rows: seq<Row>, key: string): Option<State> {
    if rows == [] then None
    else if rows[|rows| - 1].key == key then Some(rows[|rows| - 1].state)
    else Latest(rows[..|rows| - 1], key)
  }

  function MaxAttempt(history: seq<Row>): nat {
    if history == [] then 0
    else
      var m := MaxAttempt(history[..|history| - 1]);
      if history[|history| - 1].attempt > m then history[|history| - 1].attempt else m
  }

  /** The rows of the attempts numbered `next`..`last`, up to the first that succeeds. When
      a success row is already `taken`, the index refuses a second one. */
  function Tries(key: string, next: nat, last: nat, outcomes: Outcomes, taken: bool): seq<Row>
    requires next <= last
    decreases last - next
  {
    match outcomes(next)
    case None => if taken then [] else [Row(key, Delivered, next, "")]
    case Some(error) =>
      if next == last then [Row(key, DeadLetter, last, error)]
      else [Row(key, Retrying, next + 1, error)] + Tries(key, next + 1, last, outcomes, taken)
  }

  /** How many times those rows called the attempt. */
  function Calls(next: nat, last: nat, outcomes: Outcomes): nat
    requires next <= last
    decreases last - next
  {
    if outcomes(next).None? || next == last then 1 else 1 + Calls(next + 1, last, outcomes)
  }

  /** The last error a loop over those attempts returns, and whether it ran out of them. */
  function Outcome(next: nat, last: nat, outcomes: Outcomes, taken: bool): (Option<string>, bool)
    requires next <= last
    decreases last - next
  {
    match outcomes(next)
    case None => (if taken then Some(INDEX_REFUSED) else None, false)
    case Some(error) => if next == last then (Some(error), true) else Outcome(next + 1, last, outcomes, taken)
  }

  function LastOf(start: nat): nat {
    start + DELIVERY_MAX_ATTEMPTS - 1
  }

  function Episode(key: string, start: nat, outcomes: Outcomes, taken: bool): seq<Row> {
    [Row(key, Pending, start, "")] + Tries(key, start, LastOf(start), outcomes, taken)
  }

  /** How an episode ends: delivered, dead with its last error, or refused by the index. */
  function EndOf(episode: seq<Row>): Answer
    requires episode != []
  {
    var last := episode[|episode| - 1];
    if last.state == Delivered then Succeeded
    else if last.state == DeadLetter then Failed(last.error) else Failed(INDEX_REFUSED)
  }

  datatype Step =
    | Deliver(key: string, critical: bool, outcomes: Outcomes)
    | Replay(key: string, outcomes: Outcomes)
    | Quarantine(key: string, reason: string)

  function DeliveredRows(rows: seq<Row>, key: string, outcomes: Outcomes): seq<Row> {
    if HasSuccess(rows, key) then [] else Episode(key, 1, outcomes, false)
  }

  function DeliveredCalls(rows: seq<Row>, key: string, outcomes: Outcomes): nat {
    if HasSuccess(rows, key) then 0 else Calls(1, LastOf(1), outcomes)
  }

  function DeliveredAnswer(rows: seq<Row>, key: string, critical: bool, outcomes: Outcomes): Answer {
    if HasSuccess(rows, key) || !critical then Succeeded else EndOf(Episode(key, 1, outcomes, false))
  }

  /** A replay goes on above the highest number of the key. */
  function ReplayStart(rows: seq<Row>, key: string): nat {
    MaxAttempt(History(rows, key)) + 1
  }

  function ReplayedRows(rows: seq<Row>, key: string, outcomes: Outcomes): seq<Row> {
    if Latest(rows, key) == Some(DeadLetter) then Episode(key, ReplayStart(rows, key), outcomes, HasSuccess(rows, key)) else []
  }

  function ReplayedCalls(rows: seq<Row>, key: string, outcomes: Outcomes): nat {
    if Latest(rows, key) == Some(DeadLetter) then Calls(ReplayStart(rows, key), LastOf(ReplayStart(rows, key)), outcomes) else 0
  }

  function ReplayedAnswer(rows: seq<Row>, key: string, outcomes: Outcomes): Answer {
    if Latest(rows, key) == Some(DeadLetter)
    then EndOf(Episode(key, ReplayStart(rows, key), outcomes, HasSuccess(rows, key)))
    else if Latest(rows, key).Some? && IsSuccess(Latest(rows, key).value) && HadDeadLetter(rows, key) then Succeeded
    else Refused
  }

  function QuarantinedRows(rows: seq<Row>, key: string, reason: string): seq<Row> {
    if Latest(rows, key) == Some(DeadLetter) then [Row(key, Quarantined, 0, reason)] else []
  }

  function QuarantinedAnswer(rows: seq<Row>, key: string): Answer {
    if Latest(rows, key) == Some(DeadLetter) then Succeeded else Refused
  }

  function NewRows(rows: seq<Row>, step: Step): seq<Row> {
    match step
    case Deliver(key, _, outcomes) => DeliveredRows(rows, key, outcomes)
    case Replay(key, outcomes) => ReplayedRows(rows, key, outcomes)
    case Quarantine(key, reason) => QuarantinedRows(rows, key, reason)
  }

  function NewCalls(rows: seq<Row>, step: Step): nat {
    match step
    case Deliver(key, _, outcomes) => DeliveredCalls(rows, key, outcomes)
    case Replay(key, outcomes) => ReplayedCalls(rows, key, outcomes)
    case Quarantine(_, _) => 0
  }

  predicate HadDeadLetter(rows: seq<Row>, key: string) {
    exists i :: 0 <= i < |rows| && rows[i].key == key && rows[i].state == DeadLetter
  }

  /** What the partial unique index admits. */
  ghost predicate Indexed(rows: seq<Row>) {
    if rows == [] then true
    else
      var before, last := rows[..|rows| - 1], rows[|rows| - 1];
      Indexed(before) && !(IsSuccess(last.state) && HasSuccess(before, last.key))
  }

  lemma {:induction false} HasSuccessMeans(rows: seq<Row>, key: string)
    ensures HasSuccess(rows, key) <==> exists i :: 0 <= i < |rows| && rows[i].key == key && IsSuccess(rows[i].state)
  {
    if rows != [] {
      var before := rows[..|rows| - 1];
      HasSuccessMeans(before, key);
      if HasSuccess(before, key) {
        var i :| 0 <= i < |before| && before[i].key == key && IsSuccess(before[i].state);
        assert rows[i] == before[i];
      }
      forall i | 0 <= i < |before| ensures rows[i] == before[i] {
      }
    }
  }

  /** Through the index no key ever holds two success rows. */
  lemma {:induction false} IndexedMeansOneSuccess(rows: seq<Row>, i: nat, j: nat)
    requires Indexed(rows) && i < j < |rows| && rows[i].key == rows[j].key
    ensures !(IsSuccess(rows[i].state) && IsSuccess(rows[j].state))
  {
    var before := rows[..|rows| - 1];
    if j < |before| {
      IndexedMeansOneSuccess(before, i, j);
    } else {
      HasSuccessMeans(before, rows[j].key);
      assert before[i] == rows[i];
    }
  }

  // ---- what a caller may rely on, over the rows alone

  ghost predicate Succeeds(rows: seq<Row>, key: string) {
    exists i :: 0 <= i < |rows| && rows[i].key == key && (rows[i].state == Delivered || rows[i].state == Acknowledged)
  }

  ghost predicate IsLatest(rows: seq<Row>, key: string, i: int) {
    && 0 <= i < |rows| && rows[i].key == key
    && forall k :: i < k < |rows| ==> rows[k].key != key
  }

  /** The rows of `calls` attempts from number `start`: pending, one row for each failure that
      is tried again, with its error, and the end, which the index refuses when a success row
      is already `taken`. */
  ghost predicate Attempted(e: seq<Row>, key: string, start: nat, outcomes: Outcomes, calls: nat, taken: bool) {
    && 1 <= calls <= 3 && |e| >= calls
    && e[0] == Row(key, Pending, start, "")
    && (forall i :: 0 < i < calls ==>
      outcomes(start + i - 1).Some? && e[i] == Row(key, Retrying, start + i, outcomes(start + i - 1).value))
    && match outcomes(start + calls - 1)
       case None => if taken then |e| == calls else |e| == calls + 1 && e[calls] == Row(key, Delivered, start + calls - 1, "")
       case Some(error) => calls == 3 && |e| == 4 && e[3] == Row(key, DeadLetter, start + 2, error)
  }

  /** A delivery does nothing after a success. Otherwise it makes its attempts from number one,
      and its answer is an error exactly for a critical one that ends in a dead letter. */
  ghost predicate Delivers(before: seq<Row>, after: seq<Row>, key: string, critical: bool, outcomes: Outcomes,
                           answer: Answer, calls: nat) {
    if Succeeds(before, key) then after == before && answer == Succeeded && calls == 0
    else
      && before <= after && Attempted(after[|before|..], key, 1, outcomes, calls, false)
      && var last := after[|after| - 1];
        && (answer == Succeeded <==> !critical || last.state == Delivered)
        && (answer != Succeeded ==> last.state == DeadLetter && answer == Failed(last.error))
  }

  ghost predicate LatestIs(rows: seq<Row>, key: string, state: State) {
    exists i :: IsLatest(rows, key, i) && rows[i].state == state
  }

  ghost predicate AnswersByLast(after: seq<Row>, answer: Answer) {
    && after != [] && answer != Refused
    && (answer == Succeeded <==> after[|after| - 1].state == Delivered)
    && (after[|after| - 1].state == DeadLetter ==> answer == Failed(after[|after| - 1].error))
  }

  /** A replay makes its attempts only for a dead letter, from one above every number the key
      has; a key that a replay has delivered is left alone, and any other is refused. */
  ghost predicate Replays(before: seq<Row>, after: seq<Row>, key: string, outcomes: Outcomes, answer: Answer, calls: nat) {
    if LatestIs(before, key, DeadLetter) then
      && before < after && AnswersByLast(after, answer)
      && StartsAfter(before, key, after[|before|].attempt)
      && Attempted(after[|before|..], key, after[|before|].attempt, outcomes, calls, Succeeds(before, key))
    else
      && after == before && calls == 0
      && answer == if Resolved(before, key) then Succeeded else Refused
  }

  /** Delivered or acknowledged by now, after a dead letter. */
  ghost predicate Resolved(rows: seq<Row>, key: string) {
    && (LatestIs(rows, key, Delivered) || LatestIs(rows, key, Acknowledged))
    && exists i :: 0 <= i < |rows| && rows[i].key == key && rows[i].state == DeadLetter
  }

  /** A quarantine adds its row to a dead letter and is refused otherwise. */
  ghost predicate Quarantines(before: seq<Row>, after: seq<Row>, key: string, reason: string, answer: Answer) {
    if LatestIs(before, key, DeadLetter)
    then answer == Succeeded && after == before + [Row(key, Quarantined, 0, reason)]
    else answer == Refused && after == before
  }

  /** One above every attempt number of the key, and no further. */
  ghost predicate StartsAfter(rows: seq<Row>, key: string, start: nat) {
    && (forall i :: 0 <= i < |rows| && rows[i].key == key ==> rows[i].attempt < start)
    && (start == 1 || exists i :: 0 <= i < |rows| && rows[i].key == key && rows[i].attempt + 1 == start)
  }

  lemma {:induction false} LatestMeans(rows: seq<Row>, key: string)
    ensures Latest(rows, key) == None <==> forall i :: 0 <= i < |rows| ==> rows[i].key != key
    ensures forall i :: IsLatest(rows, key, i) ==> Latest(rows, key) == Some(rows[i].state)
    ensures Latest(rows, key).Some? ==> exists i :: IsLatest(rows, key, i)
  {
    if rows != [] {
      var n := |rows| - 1;
      LatestMeans(rows[..n], key);
      if rows[n].key == key {
        assert IsLatest(rows, key, n);
      } else {
        forall i: int ensures IsLatest(rows, key, i) <==> IsLatest(rows[..n], key, i) {
          assert forall k :: 0 <= k < n ==> rows[..n][k] == rows[k];
        }
      }
    }
  }

  lemma {:induction false} HistoryMembers(rows: seq<Row>, key: string)
    ensures forall r :: r in History(rows, key) <==> r in rows && r.key == key
  {
    if rows != [] {
      HistoryMembers(rows[1..], key);
      assert rows == [rows[0]] + rows[1..];
    }
  }

  lemma {:induction false} MaxAttemptMeans(history: seq<Row>)
    ensures forall r :: r in history ==> r.attempt <= MaxAttempt(history)
    ensures MaxAttempt(history) == 0 || exists r :: r in history && r.attempt == MaxAttempt(history)
  {
    if history != [] {
      var before, last := history[..|history| - 1], history[|history| - 1];
      MaxAttemptMeans(before);
      assert history == before + [last];
    }
  }

  lemma NextStart(rows: seq<Row>, key: string)
    ensures StartsAfter(rows, key, ReplayStart(rows, key))
  {
    var h := History(rows, key);
    HistoryMembers(rows, key);
    MaxAttemptMeans(h);
    assert forall i :: 0 <= i < |rows| && rows[i].key == key ==> rows[i] in h;
    if MaxAttempt(h) != 0 {
      var r :| r in h && r.attempt == MaxAttempt(h);
      var i :| 0 <= i < |rows| && rows[i] == r;
    }
  }

  lemma {:induction false} SuccessMeans(rows: seq<Row>, key: string)
    ensures HasSuccess(rows, key) <==> Succeeds(rows, key)
  {
    HasSuccessMeans(rows, key);
  }

  /** An episode is its attempts' rows. */
  lemma EpisodeIsAttempted(key: string, start: nat, outcomes: Outcomes, taken: bool)
    ensures Attempted(Episode(key, start, outcomes, taken), key, start, outcomes,
                      Calls(start, LastOf(start), outcomes), taken)
  {
    var last := LastOf(start);
    if outcomes(start).Some? {
      var r1 := [Row(key, Retrying, start + 1, outcomes(start).value)];
      assert Tries(key, start, last, outcomes, taken) == r1 + Tries(key, start + 1, last, outcomes, taken);
      assert Calls(start, last, outcomes) == 1 + Calls(start + 1, last, outcomes);
      if outcomes(start + 1).Some? {
        var r2 := [Row(key, Retrying, start + 2, outcomes(start + 1).value)];
        assert Tries(key, start + 1, last, outcomes, taken) == r2 + Tries(key, start + 2, last, outcomes, taken);
        assert Calls(start + 1, last, outcomes) == 2;
      }
    }
  }

  lemma DeliverMeans(rows: seq<Row>, key: string, critical: bool, outcomes: Outcomes)
    ensures Delivers(rows, rows + DeliveredRows(rows, key, outcomes), key, critical, outcomes,
                     DeliveredAnswer(rows, key, critical, outcomes), DeliveredCalls(rows, key, outcomes))
  {
    SuccessMeans(rows, key);
    if !HasSuccess(rows, key) {
      var e := Episode(key, 1, outcomes, false);
      EpisodeIsAttempted(key, 1, outcomes, false);
      assert (rows + e)[|rows|..] == e;
    }
  }

  /** A critical delivery answers without an error exactly when its key then has a success. */
  lemma CriticalAnswer(before: seq<Row>, after: seq<Row>, key: string, outcomes: Outcomes, answer: Answer, calls: nat)
    requires Delivers(before, after, key, true, outcomes, answer, calls)
    ensures answer == Succeeded <==> Succeeds(after, key)
  {
    if !Succeeds(before, key) {
      var e := after[|before|..];
      assert after == before + e;
      assert after[|after| - 1] == e[|e| - 1];
      forall i | 0 <= i < |after| - 1 && after[i].key == key
        ensures after[i].state != Delivered && after[i].state != Acknowledged
      {
        if i < |before| {
          assert after[i] == before[i];
        } else {
          assert after[i] == e[i - |before|];
        }
      }
    }
  }

  lemma LatestIsState(rows: seq<Row>, key: string)
    ensures forall state :: LatestIs(rows, key, state) <==> Latest(rows, key) == Some(state)
  {
    LatestMeans(rows, key);
  }

  /** What attempts answer is in their last row. */
  lemma EndIsLast(rows: seq<Row>, e: seq<Row>, key: string, start: nat, outcomes: Outcomes, calls: nat, taken: bool)
    requires Attempted(e, key, start, outcomes, calls, taken)
    ensures AnswersByLast(rows + e, EndOf(e))
  {
    assert (rows + e)[|rows + e| - 1] == e[|e| - 1];
  }

  lemma ReplayOfDead(rows: seq<Row>, e: seq<Row>, key: string, start: nat, outcomes: Outcomes, calls: nat)
    requires Latest(rows, key) == Some(DeadLetter) && start == ReplayStart(rows, key)
    requires Attempted(e, key, start, outcomes, calls, HasSuccess(rows, key))
    ensures Replays(rows, rows + e, key, outcomes, EndOf(e), calls)
  {
    assert (rows + e)[|rows|..] == e && (rows + e)[|rows|] == e[0];
    EndIsLast(rows, e, key, start, outcomes, calls, HasSuccess(rows, key));
    LatestIsState(rows, key);
    SuccessMeans(rows, key);
    NextStart(rows, key);
  }

  lemma ReplayMeans(rows: seq<Row>, key: string, outcomes: Outcomes)
    ensures Replays(rows, rows + ReplayedRows(rows, key, outcomes), key, outcomes,
                    ReplayedAnswer(rows, key, outcomes), ReplayedCalls(rows, key, outcomes))
  {
    if Latest(rows, key) == Some(DeadLetter) {
      var start := ReplayStart(rows, key);
      EpisodeIsAttempted(key, start, outcomes, HasSuccess(rows, key));
      ReplayOfDead(rows, Episode(key, start, outcomes, HasSuccess(rows, key)), key, start, outcomes,
                   Calls(start, LastOf(start), outcomes));
    } else {
      LatestIsState(rows, key);
      assert rows + [] == rows;
    }
  }

  lemma QuarantineMeans(rows: seq<Row>, key: string, reason: string)
    ensures Quarantines(rows, rows + QuarantinedRows(rows, key, reason), key, reason, QuarantinedAnswer(rows, key))
  {
    LatestIsState(rows, key);
  }

  // ---- the store

  lemma {:induction false} TriesEnd(key: string, next: nat, last: nat, outcomes: Outcomes, taken: bool)
    requires next <= last
    ensures var tries := Tries(key, next, last, outcomes, taken);
      var (err, exhausted) := Outcome(next, last, outcomes, taken);
      && (exhausted ==> tries != [] && tries[|tries| - 1].state == DeadLetter && err == Some(tries[|tries| - 1].error))
      && (!exhausted && !taken ==> tries != [] && tries[|tries| - 1].state == Delivered && err == None)
      && (!exhausted && taken ==> (tries == [] || tries[|tries| - 1].state == Retrying) && err == Some(INDEX_REFUSED))
    decreases last - next
  {
    if outcomes(next).Some? && next < last {
      TriesEnd(key, next + 1, last, outcomes, taken);
    }
  }

  /** An episode answers with the error its retry loop returned. */
  lemma EpisodeEnds(rows: seq<Row>, key: string, start: nat, outcomes: Outcomes)
    ensures var taken := HasSuccess(rows, key);
      var episode := Episode(key, start, outcomes, taken);
      && EndOf(episode) == AsAnswer(Outcome(start, LastOf(start), outcomes, taken).0)
      && (rows + [episode[0]]) + episode[1..] == rows + episode
  {
    TriesEnd(key, start, LastOf(start), outcomes, HasSuccess(rows, key));
  }

  class DeliveryStore {
    var rows: seq<Row>

    /** The partial unique index. */
    ghost predicate Valid()
      reads this
    {
      Indexed(rows)
    }

    /** The only writer. A second success row for a key is refused by the index. */
    method Insert(row: Row) returns (ok: bool)
      requires Valid()
      modifies this
      ensures Valid()
      ensures ok <==> !(IsSuccess(row.state) && HasSuccess(old(rows), row.key))
      ensures rows == if ok then old(rows) + [row] else old(rows)
      ensures ok ==> Latest(rows, row.key) == Some(row.state)
      ensures ok ==> HasSuccess(rows, row.key) == (IsSuccess(row.state) || HasSuccess(old(rows), row.key))
    {
      ok := !(IsSuccess(row.state) && HasSuccess(rows, row.key));
      if ok {
        assert (rows + [row])[..|rows|] == rows;
        rows := rows + [row];
      }
    }

    method LatestState(key: string) returns (state: Option<State>)
      ensures state == Latest(rows, key)
    {
      var i := |rows|;
      assert rows[..i] == rows;
      while i > 0 && rows[i - 1].key != key
        invariant 0 <= i <= |rows|
        invariant Latest(rows, key) == Latest(rows[..i], key)
      {
        assert rows[..i][..i - 1] == rows[..i - 1];
        i := i - 1;
      }
      state := if i == 0 then None else Some(rows[i - 1].state);
    }

    method DeliverRetryLoop(key: string, startAttempt: nat, outcomes: Outcomes)
      returns (lastErr: Option<string>, exhausted: bool, calls: nat)
      requires Valid()
      modifies this
      ensures Valid()
      ensures var last, taken := LastOf(startAttempt), HasSuccess(old(rows), key);
        && rows == old(rows) + Tries(key, startAttempt, last, outcomes, taken)
        && calls == Calls(startAttempt, last, outcomes)
        && (lastErr, exhausted) == Outcome(startAttempt, last, outcomes, taken)
    {
      lastErr, exhausted, calls := TryUpTo(key, startAttempt, LastOf(startAttempt), outcomes);
    }

    /** The retry loop for any ceiling. */
    method TryUpTo(key: string, startAttempt: nat, localMax: nat, outcomes: Outcomes)
      returns (lastErr: Option<string>, exhausted: bool, calls: nat)
      requires Valid() && startAttempt <= localMax
      modifies this
      ensures Valid()
      ensures var taken := HasSuccess(old(rows), key);
        && rows == old(rows) + Tries(key, startAttempt, localMax, outcomes, taken)
        && calls == Calls(startAttempt, localMax, outcomes)
        && (lastErr, exhausted) == Outcome(startAttempt, localMax, outcomes, taken)
    {
      ghost var taken := HasSuccess(rows, key);
      ghost var all := rows + Tries(key, startAttempt, localMax, outcomes, taken);
      var attemptNum := startAttempt;
      calls := 0;
      while true
        invariant startAttempt <= attemptNum <= localMax
        invariant Valid() && HasSuccess(rows, key) == taken
        invariant rows + Tries(key, attemptNum, localMax, outcomes, taken) == all
        invariant Outcome(startAttempt, localMax, outcomes, taken) == Outcome(attemptNum, localMax, outcomes, taken)
        invariant Calls(startAttempt, localMax, outcomes) == calls + Calls(attemptNum, localMax, outcomes)
        decreases localMax - attemptNum
      {
        lastErr := outcomes(attemptNum);
        calls := calls + 1;
        if lastErr == None {
          var ok := Insert(Row(key, Delivered, attemptNum, ""));
          lastErr, exhausted := if ok then None else Some(INDEX_REFUSED), false;
          return;
        }
        if attemptNum == localMax {
          var ok := Insert(Row(key, DeadLetter, attemptNum, lastErr.value));
          exhausted := true;
          return;
        }
        var row := Row(key, Retrying, attemptNum + 1, lastErr.value);
        ghost var rest := Tries(key, attemptNum + 1, localMax, outcomes, taken);
        assert rows + ([row] + rest) == (rows + [row]) + rest;
        var ok := Insert(row);
        attemptNum := attemptNum + 1;
      }
    }

    /** What both callers of the loop do: a pending row first, then the attempts. */
    method RunEpisode(key: string, startAttempt: nat, outcomes: Outcomes)
      returns (lastErr: Option<string>, exhausted: bool, calls: nat)
      requires Valid()
      modifies this
      ensures Valid()
      ensures var last, taken := LastOf(startAttempt), HasSuccess(old(rows), key);
        && rows == old(rows) + Episode(key, startAttempt, outcomes, taken)
        && calls == Calls(startAttempt, last, outcomes)
        && (lastErr, exhausted) == Outcome(startAttempt, last, outcomes, taken)
        && AsAnswer(lastErr) == EndOf(Episode(key, startAttempt, outcomes, taken))
    {
      EpisodeEnds(rows, key, startAttempt, outcomes);
      var ok := Insert(Row(key, Pending, startAttempt, ""));
      lastErr, exhausted, calls := DeliverRetryLoop(key, startAttempt, outcomes);
    }

    method DeliverEnvelope(key: string, critical: bool, outcomes: Outcomes) returns (answer: Answer, calls: nat)
      requires Valid()
      modifies this
      ensures Valid()
      ensures rows == old(rows) + DeliveredRows(old(rows), key, outcomes)
      ensures answer == DeliveredAnswer(old(rows), key, critical, outcomes)
      ensures calls == DeliveredCalls(old(rows), key, outcomes)
      ensures Delivers(old(rows), rows, key, critical, outcomes, answer, calls)
    {
      DeliverMeans(rows, key, critical, outcomes);
      if HasSuccess(rows, key) {
        return Succeeded, 0;
      }
      var lastErr, exhausted;
      lastErr, exhausted, calls := RunEpisode(key, 1, outcomes);
      if !exhausted || critical {
        return AsAnswer(lastErr), calls;
      }
      return Succeeded, calls;
    }

    method NextAttempt(key: string) returns (startAttempt: nat)
      ensures startAttempt == MaxAttempt(History(rows, key)) + 1
    {
      var history := History(rows, key);
      var maxAttempt := 0;
      for i := 0 to |history|
        invariant maxAttempt == MaxAttempt(history[..i])
      {
        assert history[..i + 1][..i] == history[..i];
        if history[i].attempt > maxAttempt {
          maxAttempt := history[i].attempt;
        }
      }
      assert history[..|history|] == history;
      startAttempt := maxAttempt + 1;
    }

    method ReplayDelivery(key: string, outcomes: Outcomes) returns (answer: Answer, calls: nat)
      requires Valid()
      modifies this
      ensures Valid()
      ensures rows == old(rows) + ReplayedRows(old(rows), key, outcomes)
      ensures answer == ReplayedAnswer(old(rows), key, outcomes)
      ensures calls == ReplayedCalls(old(rows), key, outcomes)
      ensures Replays(old(rows), rows, key, outcomes, answer, calls)
    {
      ghost var before := rows;
      var latest := LatestState(key);
      if latest != Some(DeadLetter) {
        ReplayMeans(before, key, outcomes);
        if latest.Some? && IsSuccess(latest.value) && HadDeadLetter(rows, key) {
          return Succeeded, 0;
        }
        return Refused, 0;
      }
      var startAttempt := NextAttempt(key);
      var lastErr, exhausted;
      lastErr, exhausted, calls := RunEpisode(key, startAttempt, outcomes);
      answer := AsAnswer(lastErr);
      ReplayMeans(before, key, outcomes);
    }

    method QuarantineDelivery(key: string, reason: string) returns (answer: Answer)
      requires Valid()
      modifies this
      ensures Valid()
      ensures rows == old(rows) + QuarantinedRows(old(rows), key, reason)
      ensures answer == QuarantinedAnswer(old(rows), key)
      ensures Quarantines(old(rows), rows, key, reason, answer)
    {
      QuarantineMeans(rows, key, reason);
      var latest := LatestState(key);
      if latest != Some(DeadLetter) {
        return Refused;
      }
      var ok := Insert(Row(key, Quarantined, 0, reason));
      answer := Succeeded;
    }
  }
}
