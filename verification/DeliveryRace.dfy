/** Deliveries, replays and quarantines interleaved row by row. Every read and every insert
    is a step of its own, so callers decide on histories that may have moved on. */
module DeliveryRace {
  import opened Wrappers
  import opened Delivery
  import DeliveryHistory

  /** A caller between two accesses. `wrote` says that the success row is its own. */
  datatype Caller =
    | DeliverAsked(key: string)
    | DeliverFree(key: string)
    | ReplayAsked(key: string)
    | ReplayDead(key: string)
    | ReplayFrom(key: string, start: nat)
    | Trying(key: string, attempt: nat, last: nat)
    | Judged(key: string, attempt: nat, last: nat, err: Option<string>)
    | QuarantineAsked(key: string, reason: string)
    | QuarantineDead(key: string, reason: string)
    | Done(key: string, answer: Answer, wrote: bool)

  /** `wins` counts the attempts of each key that succeeded, recorded or not. */
  datatype Sys = Sys(rows: seq<Row>, callers: map<nat, Caller>, wins: multiset<string>)

  const EMPTY_SYS := Sys([], map[], multiset{})

  datatype Step =
    | Begin(id: nat, caller: Caller)
    | Go(id: nat, outcome: Option<string>)

  predicate Starts(c: Caller) {
    c.DeliverAsked? || c.ReplayAsked? || c.QuarantineAsked?
  }

  predicate Admitted(rows: seq<Row>, row: Row) {
    !(IsSuccess(row.state) && HasSuccess(rows, row.key))
  }

  /** An insert through the partial unique index. */
  function Inserted(rows: seq<Row>, row: Row): seq<Row> {
    if Admitted(rows, row) then rows + [row] else rows
  }

  function At(s: Sys, id: nat, c: Caller): Sys {
    s.(callers := s.callers[id := c])
  }

  /** An insert, after which the caller goes on as `c`. */
  function Put(s: Sys, id: nat, c: Caller, row: Row): Sys {
    s.(rows := Inserted(s.rows, row), callers := s.callers[id := c])
  }

  function Begun(s: Sys, id: nat, key: string, start: nat): Sys {
    Put(s, id, Trying(key, start, LastOf(start)), Row(key, Pending, start, ""))
  }

  /** The insert after an attempt: delivered, dead at the last attempt, or retrying. */
  function Settled(s: Sys, id: nat, c: Caller): Sys
    requires c.Judged?
  {
    match c.err
    case None =>
      var row := Row(c.key, Delivered, c.attempt, "");
      var ok := Admitted(s.rows, row);
      Put(s, id, Done(c.key, if ok then Succeeded else Failed(INDEX_REFUSED), ok), row)
    case Some(error) =>
      if c.attempt == c.last then
        Put(s, id, Done(c.key, Failed(error), false), Row(c.key, DeadLetter, c.attempt, error))
      else
        Put(s, id, Trying(c.key, c.attempt + 1, c.last), Row(c.key, Retrying, c.attempt + 1, error))
  }

  function Goes(s: Sys, id: nat, c: Caller, outcome: Option<string>): Sys {
    match c
    case DeliverAsked(key) =>
      At(s, id, if HasSuccess(s.rows, key) then Done(key, Succeeded, false) else DeliverFree(key))
    case DeliverFree(key) => Begun(s, id, key, 1)
    case ReplayAsked(key) =>
      At(s, id, if Latest(s.rows, key) == Some(DeadLetter) then ReplayDead(key)
                else if Latest(s.rows, key).Some? && IsSuccess(Latest(s.rows, key).value) && HadDeadLetter(s.rows, key)
                then Done(key, Succeeded, false)
                else Done(key, Refused, false))
    case ReplayDead(key) => At(s, id, ReplayFrom(key, MaxAttempt(History(s.rows, key)) + 1))
    case ReplayFrom(key, start) => Begun(s, id, key, start)
    case Trying(key, attempt, last) =>
      var tried := At(s, id, Judged(key, attempt, last, outcome));
      if outcome.None? then tried.(wins := s.wins + multiset{key}) else tried
    case Judged(_, _, _, _) => Settled(s, id, c)
    case QuarantineAsked(key, reason) =>
      At(s, id, if Latest(s.rows, key) == Some(DeadLetter) then QuarantineDead(key, reason) else Done(key, Refused, false))
    case QuarantineDead(key, reason) =>
      Put(s, id, Done(key, Succeeded, false), Row(key, Quarantined, 0, reason))
    case Done(_, _, _) => s
  }

  function Next(s: Sys, step: Step): Sys {
    match step
    case Begin(id, caller) => if id in s.callers || !Starts(caller) then s else At(s, id, caller)
    case Go(id, outcome) => if id in s.callers then Goes(s, id, s.callers[id], outcome) else s
  }

  function RunFrom(s: Sys, steps: seq<Step>): Sys {
    if steps == [] then s else Next(RunFrom(s, steps[..|steps| - 1]), steps[|steps| - 1])
  }

  function Run(steps: seq<Step>): Sys {
    RunFrom(EMPTY_SYS, steps)
  }

  // ---- what every interleaving keeps

  lemma InsertedKeeps(rows: seq<Row>, row: Row)
    requires Indexed(rows)
    ensures Indexed(Inserted(rows, row)) && rows <= Inserted(rows, row)
    ensures forall key :: HasSuccess(rows, key) ==> HasSuccess(Inserted(rows, row), key)
    ensures IsSuccess(row.state) && Admitted(rows, row) ==> HasSuccess(Inserted(rows, row), row.key)
  {
    assert (rows + [row])[..|rows|] == rows;
  }

  ghost predicate Inv(s: Sys) {
    && Indexed(s.rows)
    && (forall id :: id in s.callers && s.callers[id].Done? && s.callers[id].wrote ==> HasSuccess(s.rows, s.callers[id].key))
    && (forall a, b :: a in s.callers && b in s.callers && a != b && Wrote(s.callers[a]) && Wrote(s.callers[b]) ==>
      s.callers[a].key != s.callers[b].key)
  }

  predicate Wrote(c: Caller) {
    c.Done? && c.wrote
  }

  predicate Wins(rows: seq<Row>, row: Row, key: string) {
    IsSuccess(row.state) && row.key == key && Admitted(rows, row)
  }

  /** What a step does to the rows: at most one insert, through the index. */
  lemma GoesInserts(s: Sys, id: nat, outcome: Option<string>) returns (row: Option<Row>)
    requires id in s.callers
    ensures var s' := Goes(s, id, s.callers[id], outcome);
      && s'.rows == (if row.Some? then Inserted(s.rows, row.value) else s.rows)
      && (row.Some? ==> row.value.key == s.callers[id].key)
      && s'.callers - {id} == s.callers - {id}
      && id in s'.callers
      && (Wrote(s'.callers[id]) ==> s'.callers[id] == s.callers[id] || (row.Some? && Wins(s.rows, row.value, s'.callers[id].key)))
  {
    var c := s.callers[id];
    row := match c
      case DeliverFree(key) => Some(Row(key, Pending, 1, ""))
      case ReplayFrom(key, start) => Some(Row(key, Pending, start, ""))
      case Judged(key, attempt, last, None) => Some(Row(key, Delivered, attempt, ""))
      case Judged(key, attempt, last, Some(error)) =>
        Some(if attempt == last then Row(key, DeadLetter, attempt, error) else Row(key, Retrying, attempt + 1, error))
      case QuarantineDead(key, reason) => Some(Row(key, Quarantined, 0, reason))
      case _ => None;
  }

  /** The callers that were told they wrote keep to one for each key. */
  lemma GoKeeps(s: Sys, s': Sys, id: nat, row: Option<Row>)
    requires Inv(s) && id in s.callers && id in s'.callers
    requires s'.rows == (if row.Some? then Inserted(s.rows, row.value) else s.rows)
    requires s'.callers - {id} == s.callers - {id}
    requires Wrote(s'.callers[id]) ==>
      s'.callers[id] == s.callers[id] || (row.Some? && Wins(s.rows, row.value, s'.callers[id].key))
    ensures Inv(s') && s.rows <= s'.rows
  {
    if row.Some? {
      InsertedKeeps(s.rows, row.value);
    }
    forall n | n in s'.callers && n != id ensures n in s.callers && s'.callers[n] == s.callers[n] {
      assert n in s'.callers - {id};
    }
  }

  lemma NextKeeps(s: Sys, step: Step)
    requires Inv(s)
    ensures Inv(Next(s, step)) && s.rows <= Next(s, step).rows
  {
    if step.Go? && step.id in s.callers {
      var row := GoesInserts(s, step.id, step.outcome);
      GoKeeps(s, Next(s, step), step.id, row);
    }
  }

  lemma {:induction false} RunKeeps(steps: seq<Step>)
    ensures Inv(Run(steps))
  {
    if steps != [] {
      RunKeeps(steps[..|steps| - 1]);
      NextKeeps(Run(steps[..|steps| - 1]), steps[|steps| - 1]);
    }
  }

  // ---- the theorems

  /** However calls interleave, no key ever holds two success rows. */
  lemma AtMostOneSuccess(steps: seq<Step>, i: nat, j: nat)
    requires i < j < |Run(steps).rows| && Run(steps).rows[i].key == Run(steps).rows[j].key
    ensures !(IsSuccess(Run(steps).rows[i].state) && IsSuccess(Run(steps).rows[j].state))
  {
    RunKeeps(steps);
    IndexedMeansOneSuccess(Run(steps).rows, i, j);
  }

  /** The history is only ever added to. */
  lemma {:induction false} HistoryOnlyGrows(steps: seq<Step>, more: seq<Step>)
    ensures Run(steps).rows <= Run(steps + more).rows
  {
    if more == [] {
      assert steps + more == steps;
    } else {
      var init := more[..|more| - 1];
      HistoryOnlyGrows(steps, init);
      assert (steps + more)[..|steps + more| - 1] == steps + init;
      RunKeeps(steps + init);
      NextKeeps(Run(steps + init), more[|more| - 1]);
    }
  }

  /** At most one caller of a key is told that its own delivery succeeded, and then the key
      has a success row. */
  lemma OneCallerSucceeds(steps: seq<Step>, a: nat, b: nat)
    requires a in Run(steps).callers && b in Run(steps).callers
    requires Wrote(Run(steps).callers[a]) && Wrote(Run(steps).callers[b])
    requires Run(steps).callers[a].key == Run(steps).callers[b].key
    ensures a == b && HasSuccess(Run(steps).rows, Run(steps).callers[a].key)
  {
    RunKeeps(steps);
  }

  // ---- how often an attempt succeeds

  /** Past its check and not yet recorded: it is going to insert rows for the key. */
  predicate Past(c: Caller, key: string) {
    c.key == key && (c.DeliverFree? || c.ReplayDead? || c.ReplayFrom? || c.Trying? || c.Judged?)
  }

  predicate Won(c: Caller) {
    c.Judged? && c.err.None?
  }

  /** Every attempt has failed and only the dead letter is missing. */
  predicate Dying(c: Caller) {
    c.Judged? && c.err.Some? && c.attempt == c.last
  }

  predicate Busy(c: Caller, key: string) {
    Past(c, key) && !Won(c)
  }

  predicate Writes(c: Caller, key: string) {
    Busy(c, key) || (c.QuarantineDead? && c.key == key)
  }

  predicate SomeBusy(s: Sys, key: string) {
    exists id :: id in s.callers && Busy(s.callers[id], key)
  }

  predicate SomeWrites(s: Sys, key: string) {
    exists id :: id in s.callers && Writes(s.callers[id], key)
  }

  /** A check that is made now lets its caller through. */
  predicate Unguarded(s: Sys, key: string) {
    !HasSuccess(s.rows, key) || Latest(s.rows, key) == Some(DeadLetter)
  }

  predicate Open(s: Sys, key: string) {
    Unguarded(s, key) || SomeBusy(s, key)
  }

  predicate Thawed(s: Sys, key: string) {
    Unguarded(s, key) || SomeWrites(s, key)
  }

  ghost predicate CanSucceed(s: Sys, key: string) {
    exists more :: RunFrom(s, more).wins[key] > s.wins[key]
  }

  ghost predicate CanGrow(s: Sys, key: string) {
    exists more :: History(RunFrom(s, more).rows, key) != History(s.rows, key)
  }

  lemma {:induction false} StepThenMore(s: Sys, step: Step, more: seq<Step>)
    ensures RunFrom(s, [step] + more) == RunFrom(Next(s, step), more)
  {
    var all := [step] + more;
    if more == [] {
      assert all == [step] && all[..0] == [];
    } else {
      StepThenMore(s, step, more[..|more| - 1]);
      assert all[..|all| - 1] == [step] + more[..|more| - 1];
    }
  }

  lemma {:induction false} MoreThenMore(s: Sys, some: seq<Step>, more: seq<Step>)
    ensures RunFrom(s, some + more) == RunFrom(RunFrom(s, some), more)
  {
    if more == [] {
      assert some + more == some;
    } else {
      MoreThenMore(s, some, more[..|more| - 1]);
      assert (some + more)[..|some + more| - 1] == some + more[..|more| - 1];
    }
  }

  lemma LastRowIs(rows: seq<Row>, row: Row, key: string)
    ensures HasSuccess(rows + [row], key) <==> (row.key == key && IsSuccess(row.state)) || HasSuccess(rows, key)
    ensures Latest(rows + [row], key) == if row.key == key then Some(row.state) else Latest(rows, key)
    ensures History(rows + [row], key) == History(rows, key) + if row.key == key then [row] else []
  {
    assert (rows + [row])[..|rows|] == rows;
    DeliveryHistory.HistoryConcat(rows, [row], key);
    assert [row][1..] == [];
  }

  // a key that is closed stays closed

  /** What the other callers are past is what they were past. */
  lemma OthersStand(s: Sys, id: nat, outcome: Option<string>)
    requires id in s.callers
    ensures forall n :: n != id ==> (n in s.callers <==> n in Goes(s, id, s.callers[id], outcome).callers)
    ensures forall n :: n != id && n in s.callers ==> Goes(s, id, s.callers[id], outcome).callers[n] == s.callers[n]
  {
  }

  /** Where a check would refuse, a caller that is not past its own cannot get past it, and
      its row, if any, is no dead letter. */
  lemma ClosedGoes(s: Sys, id: nat, outcome: Option<string>, key: string)
    requires id in s.callers && !Unguarded(s, key) && !Busy(s.callers[id], key)
    ensures var s' := Goes(s, id, s.callers[id], outcome);
      !Unguarded(s', key) && !Busy(s'.callers[id], key) && s'.wins[key] == s.wins[key]
  {
    var row := GoesInserts(s, id, outcome);
    if row.Some? {
      LastRowIs(s.rows, row.value, key);
    }
  }

  lemma ClosedStays(s: Sys, step: Step, key: string)
    requires !Open(s, key)
    ensures !Open(Next(s, step), key) && Next(s, step).wins[key] == s.wins[key]
  {
    var s' := Next(s, step);
    if step.Go? && step.id in s.callers {
      OthersStand(s, step.id, step.outcome);
      ClosedGoes(s, step.id, step.outcome, key);
    }
    forall id | id in s'.callers ensures !Busy(s'.callers[id], key) {
      assert id != step.id ==> id in s.callers && s'.callers[id] == s.callers[id];
    }
  }

  lemma {:induction false} ClosedForGood(s: Sys, more: seq<Step>, key: string)
    requires !Open(s, key)
    ensures !Open(RunFrom(s, more), key) && RunFrom(s, more).wins[key] == s.wins[key]
  {
    if more != [] {
      ClosedForGood(s, more[..|more| - 1], key);
      ClosedStays(RunFrom(s, more[..|more| - 1]), more[|more| - 1], key);
    }
  }

  /** A caller that is not about to write for the key inserts nothing for it. */
  lemma InsertsNothing(s: Sys, id: nat, outcome: Option<string>, key: string)
    requires id in s.callers && !Writes(s.callers[id], key) && HasSuccess(s.rows, key)
    ensures History(Goes(s, id, s.callers[id], outcome).rows, key) == History(s.rows, key)
  {
    var row := GoesInserts(s, id, outcome);
    if row.Some? {
      LastRowIs(s.rows, row.value, key);
    }
  }

  lemma FrozenStays(s: Sys, step: Step, key: string)
    requires !Thawed(s, key)
    ensures !Thawed(Next(s, step), key) && History(Next(s, step).rows, key) == History(s.rows, key)
  {
    var s' := Next(s, step);
    assert !SomeBusy(s, key) by {
      assert forall id :: id in s.callers ==> !Writes(s.callers[id], key);
    }
    ClosedStays(s, step, key);
    if step.Go? && step.id in s.callers {
      OthersStand(s, step.id, step.outcome);
      InsertsNothing(s, step.id, step.outcome, key);
    }
    forall id | id in s'.callers ensures !Writes(s'.callers[id], key) {
      assert !Busy(s'.callers[id], key);
      assert id != step.id ==> id in s.callers && s'.callers[id] == s.callers[id];
    }
  }

  lemma {:induction false} FrozenForGood(s: Sys, more: seq<Step>, key: string)
    requires !Thawed(s, key)
    ensures !Thawed(RunFrom(s, more), key) && History(RunFrom(s, more).rows, key) == History(s.rows, key)
  {
    if more != [] {
      FrozenForGood(s, more[..|more| - 1], key);
      FrozenStays(RunFrom(s, more[..|more| - 1]), more[|more| - 1], key);
    }
  }

  // and one that is not can be driven to another success

  function StepsToWin(c: Caller): nat {
    if c.Trying? then 1 else if c.ReplayDead? then 3 else 2
  }

  predicate OnlyGoes(steps: seq<Step>, id: nat) {
    forall i :: 0 <= i < |steps| ==> steps[i] == Go(id, None)
  }

  /** A caller past its check, unless its last attempt has failed, can go on and succeed. */
  lemma {:induction false} CanWin(s: Sys, id: nat, key: string) returns (more: seq<Step>)
    requires id in s.callers && Busy(s.callers[id], key) && !Dying(s.callers[id])
    ensures OnlyGoes(more, id)
    ensures var s' := RunFrom(s, more);
      && s'.wins == s.wins + multiset{key} && HasSuccess(s'.rows, key) == HasSuccess(s.rows, key)
      && s'.callers - {id} == s.callers - {id} && id in s'.callers && Won(s'.callers[id]) && Past(s'.callers[id], key)
    decreases StepsToWin(s.callers[id])
  {
    var step := Go(id, None);
    var s' := Next(s, step);
    var rest: seq<Step> := [];
    if !s.callers[id].Trying? {
      var row := GoesInserts(s, id, None);
      if row.Some? {
        LastRowIs(s.rows, row.value, key);
      }
      rest := CanWin(s', id, key);
    }
    more := [step] + rest;
    StepThenMore(s, step, rest);
  }

  lemma SucceedsBy(s: Sys, more: seq<Step>, key: string)
    requires RunFrom(s, more).wins == s.wins + multiset{key}
    ensures CanSucceed(s, key)
  {
    assert RunFrom(s, more).wins[key] == s.wins[key] + 1;
  }

  /** What can succeed after a step that no success counted in can succeed before it. */
  lemma SucceedsAfter(s: Sys, step: Step, key: string)
    requires CanSucceed(Next(s, step), key) && Next(s, step).wins == s.wins
    ensures CanSucceed(s, key)
  {
    var more :| RunFrom(Next(s, step), more).wins[key] > s.wins[key];
    StepThenMore(s, step, more);
  }

  lemma UnguardedCanSucceed(s: Sys, key: string)
    requires Unguarded(s, key)
    ensures CanSucceed(s, key)
  {
    var id := Spare(s.callers);
    var c := if HasSuccess(s.rows, key) then ReplayAsked(key) else DeliverAsked(key);
    var asked := Next(s, Begin(id, c));
    var checked := Next(asked, Go(id, None));
    var more := CanWin(checked, id, key);
    SucceedsBy(checked, more, key);
    SucceedsAfter(asked, Go(id, None), key);
    SucceedsAfter(s, Begin(id, c), key);
  }

  /** Exactly when another attempt of the key can still succeed, from any state: when a check
      made now would let a caller through, which without a success row or with a dead letter
      on top it does, or when a caller is already past its check without having succeeded. */
  lemma AnotherSuccessIff(s: Sys, key: string)
    ensures CanSucceed(s, key) <==> Open(s, key)
  {
    if Unguarded(s, key) {
      UnguardedCanSucceed(s, key);
    } else if SomeBusy(s, key) {
      var id :| id in s.callers && Busy(s.callers[id], key);
      if Dying(s.callers[id]) {
        var dead := Next(s, Go(id, None));
        LastRowIs(s.rows, Row(key, DeadLetter, s.callers[id].attempt, s.callers[id].err.value), key);
        UnguardedCanSucceed(dead, key);
        SucceedsAfter(s, Go(id, None), key);
      } else {
        var more := CanWin(s, id, key);
        SucceedsBy(s, more, key);
      }
    } else if CanSucceed(s, key) {
      var more :| RunFrom(s, more).wins[key] > s.wins[key];
      ClosedForGood(s, more, key);
      assert false;
    }
  }

  lemma GrowsAfter(s: Sys, step: Step, key: string)
    requires Next(s, step).rows == s.rows && CanGrow(Next(s, step), key)
    ensures CanGrow(s, key)
  {
    var more :| History(RunFrom(Next(s, step), more).rows, key) != History(s.rows, key);
    StepThenMore(s, step, more);
  }

  lemma GrowsBy(s: Sys, step: Step, key: string, row: Row)
    requires Next(s, step).rows == s.rows + [row] && row.key == key
    ensures CanGrow(s, key)
  {
    LastRowIs(s.rows, row, key);
    assert |History(RunFrom(s, [step]).rows, key)| == |History(s.rows, key)| + 1 by {
      assert [step][..0] == [];
    }
  }

  /** A caller about to write for the key can go on and insert a row for it. */
  lemma {:induction false} WriterGrows(s: Sys, id: nat, key: string)
    requires id in s.callers && Writes(s.callers[id], key)
    ensures CanGrow(s, key)
    decreases StepsToWin(s.callers[id])
  {
    var c := s.callers[id];
    if c.ReplayDead? || c.Trying? {
      var step := Go(id, Some("failed"));
      if c.ReplayDead? {
        WriterGrows(Next(s, step), id, key);
      } else {
        var s' := Next(s, step);
        var row := GoesInserts(s', id, None);
        GrowsBy(s', Go(id, None), key, row.value);
      }
      GrowsAfter(s, step, key);
    } else {
      var row := GoesInserts(s, id, None);
      GrowsBy(s, Go(id, None), key, row.value);
    }
  }

  /** Delivered does not freeze a history while calls interleave. Exactly when its rows can
      still grow: when a check made now would let a caller through, or when a caller of the
      key is past its check and is not one whose success row the index will refuse. */
  lemma HistoryGrowsIff(s: Sys, key: string)
    ensures CanGrow(s, key) <==> Thawed(s, key)
  {
    if Unguarded(s, key) {
      var id := Spare(s.callers);
      var c := if HasSuccess(s.rows, key) then ReplayAsked(key) else DeliverAsked(key);
      var asked := Next(s, Begin(id, c));
      WriterGrows(Next(asked, Go(id, None)), id, key);
      GrowsAfter(asked, Go(id, None), key);
      GrowsAfter(s, Begin(id, c), key);
    } else if SomeWrites(s, key) {
      var id :| id in s.callers && Writes(s.callers[id], key);
      WriterGrows(s, id, key);
    } else if CanGrow(s, key) {
      var more :| History(RunFrom(s, more).rows, key) != History(s.rows, key);
      FrozenForGood(s, more, key);
      assert false;
    }
  }

  // ---- calls that never overlap

  /** At most one caller of the key is past its check. */
  ghost predicate Alone(s: Sys, key: string) {
    forall a, b :: a in s.callers && b in s.callers && Past(s.callers[a], key) && Past(s.callers[b], key) ==> a == b
  }

  ghost predicate NeverTogether(steps: seq<Step>, key: string) {
    forall n :: 0 <= n <= |steps| ==> Alone(Run(steps[..n]), key)
  }

  predicate SomeWon(s: Sys, key: string) {
    exists id :: id in s.callers && Past(s.callers[id], key) && Won(s.callers[id])
  }

  /** Nothing has succeeded; or the one success is about to be recorded; or the key is closed. */
  ghost predicate OneAtMost(s: Sys, key: string) {
    || (s.wins[key] == 0 && !HasSuccess(s.rows, key) && !SomeWon(s, key))
    || (s.wins[key] == 1 && !HasSuccess(s.rows, key) && SomeWon(s, key))
    || (s.wins[key] == 1 && !Open(s, key))
  }

  /** The caller that goes is the only one past its check, before or after. */
  lemma OneAtMostKeeps(s: Sys, step: Step, key: string)
    requires OneAtMost(s, key) && Alone(s, key) && Alone(Next(s, step), key)
    ensures OneAtMost(Next(s, step), key)
  {
    var s' := Next(s, step);
    if !Open(s, key) {
      ClosedStays(s, step, key);
    } else if step.Go? && step.id in s.callers {
      GoOneAtMost(s, step.id, step.outcome, key);
    } else if step.Begin? {
      assert forall id :: id in s'.callers && Past(s'.callers[id], key) ==> id in s.callers && s'.callers[id] == s.callers[id];
      assert forall id :: id in s.callers && Past(s.callers[id], key) ==> id in s'.callers && s'.callers[id] == s.callers[id];
    }
  }

  /** Recording the one success closes the key. */
  lemma RecordingCloses(s: Sys, id: nat, outcome: Option<string>, key: string)
    requires id in s.callers && Past(s.callers[id], key) && Won(s.callers[id])
    requires Alone(s, key) && !HasSuccess(s.rows, key)
    ensures var s' := Goes(s, id, s.callers[id], outcome); !Open(s', key) && s'.wins == s.wins
  {
    var c, s' := s.callers[id], Goes(s, id, s.callers[id], outcome);
    LastRowIs(s.rows, Row(key, Delivered, c.attempt, ""), key);
    OthersStand(s, id, outcome);
    assert s'.callers[id].Done?;
  }

  /** Any other step of a caller adds no success row, and a success only as its own. */
  lemma OthersRecordNothing(s: Sys, id: nat, outcome: Option<string>, key: string)
    requires id in s.callers && !(Past(s.callers[id], key) && Won(s.callers[id]))
    ensures var s' := Goes(s, id, s.callers[id], outcome);
      && HasSuccess(s'.rows, key) == HasSuccess(s.rows, key)
      && s'.wins[key] == s.wins[key] + (if Past(s'.callers[id], key) && Won(s'.callers[id]) then 1 else 0)
      && (Past(s'.callers[id], key) && Won(s'.callers[id]) ==> Past(s.callers[id], key))
  {
    var c := s.callers[id];
    if c.Trying? {
      assert Goes(s, id, c, outcome).rows == s.rows;
    } else {
      var row := GoesInserts(s, id, outcome);
      if row.Some? {
        LastRowIs(s.rows, row.value, key);
      }
    }
  }

  lemma GoOneAtMost(s: Sys, id: nat, outcome: Option<string>, key: string)
    requires id in s.callers && OneAtMost(s, key) && Open(s, key)
    requires Alone(s, key)
    ensures OneAtMost(Goes(s, id, s.callers[id], outcome), key)
  {
    var s' := Goes(s, id, s.callers[id], outcome);
    OthersStand(s, id, outcome);
    if Past(s.callers[id], key) && Won(s.callers[id]) {
      RecordingCloses(s, id, outcome, key);
    } else {
      OthersRecordNothing(s, id, outcome, key);
      if SomeWon(s, key) {
        var n :| n in s.callers && Past(s.callers[n], key) && Won(s.callers[n]);
        assert SomeWon(s', key);
      }
    }
  }

  lemma ApartBefore(steps: seq<Step>, key: string)
    requires NeverTogether(steps, key) && steps != []
    ensures var before := steps[..|steps| - 1];
      NeverTogether(before, key) && Alone(Run(before), key) && Alone(Run(steps), key)
  {
    var before := steps[..|steps| - 1];
    forall n | 0 <= n <= |before| ensures Alone(Run(before[..n]), key) {
      assert before[..n] == steps[..n];
    }
    assert steps[..|steps|] == steps && before[..|before|] == before;
  }

  /** Calls of one key that never overlap past their checks succeed at most once between them. */
  lemma {:induction false} ApartSucceedOnce(steps: seq<Step>, key: string)
    ensures NeverTogether(steps, key) ==> OneAtMost(Run(steps), key) && Run(steps).wins[key] <= 1
  {
    if steps != [] && NeverTogether(steps, key) {
      ApartBefore(steps, key);
      ApartSucceedOnce(steps[..|steps| - 1], key);
      OneAtMostKeeps(Run(steps[..|steps| - 1]), steps[|steps| - 1], key);
    }
  }

  /** And any two that do overlap, neither with its last attempt behind it, can both succeed
      with no other caller's help. */
  lemma TogetherBothSucceed(s: Sys, a: nat, b: nat, key: string) returns (more: seq<Step>)
    requires a != b && a in s.callers && b in s.callers
    requires Busy(s.callers[a], key) && !Dying(s.callers[a]) && Busy(s.callers[b], key) && !Dying(s.callers[b])
    ensures forall i :: 0 <= i < |more| ==> more[i] in {Go(a, None), Go(b, None)}
    ensures var s' := RunFrom(s, more);
      && s'.wins[key] == s.wins[key] + 2 && HasSuccess(s'.rows, key) == HasSuccess(s.rows, key)
      && a in s'.callers && Past(s'.callers[a], key) && Won(s'.callers[a])
      && b in s'.callers && Past(s'.callers[b], key) && Won(s'.callers[b])
  {
    var first := CanWin(s, a, key);
    var s' := RunFrom(s, first);
    assert b in s'.callers - {a};
    var second := CanWin(s', b, key);
    more := first + second;
    MoreThenMore(s, first, second);
    assert a in s'.callers - {b} && RunFrom(s', second).callers - {b} == s'.callers - {b};
    assert a in RunFrom(s', second).callers - {b};
  }

  /** Of two such successes the first to be recorded is, and the index refuses the other. */
  lemma SecondIsRefused(s: Sys, a: nat, b: nat, key: string)
    requires a != b && a in s.callers && b in s.callers && !HasSuccess(s.rows, key)
    requires Past(s.callers[a], key) && Won(s.callers[a]) && Past(s.callers[b], key) && Won(s.callers[b])
    ensures var s' := RunFrom(s, [Go(a, None), Go(b, None)]);
      && a in s'.callers && s'.callers[a] == Done(key, Succeeded, true)
      && b in s'.callers && s'.callers[b] == Done(key, Failed(INDEX_REFUSED), false)
      && s'.rows == s.rows + [Row(key, Delivered, s.callers[a].attempt, "")] && s'.wins == s.wins
  {
    LastRowIs(s.rows, Row(key, Delivered, s.callers[a].attempt, ""), key);
    assert [Go(a, None), Go(b, None)][..1] == [Go(a, None)] && [Go(a, None)][..0] == [];
    var once := Next(s, Go(a, None));
    assert RunFrom(s, [Go(a, None)]) == once;
    assert b in once.callers && once.callers[b] == s.callers[b];
  }

  lemma TwoAsk(key: string) returns (steps: seq<Step>)
    ensures Run(steps) == Sys([], map[0 := DeliverFree(key), 1 := DeliverFree(key)], multiset{})
  {
    steps := [Begin(0, DeliverAsked(key)), Begin(1, DeliverAsked(key)), Go(0, None), Go(1, None)];
    assert steps[..3][..2] == steps[..2] && steps[..2][..1] == [steps[0]] && steps[..1][..0] == [];
    var s1 := Next(EMPTY_SYS, steps[0]);
    var s2 := Next(s1, steps[1]);
    var s3 := Next(s2, steps[2]);
    assert RunFrom(EMPTY_SYS, steps[..1]) == s1;
    assert RunFrom(EMPTY_SYS, steps[..2]) == s2;
    assert RunFrom(EMPTY_SYS, steps[..3]) == s3;
  }

  /** So an attempt can succeed twice: two deliveries of a key both read no success, and only
      the first success is recorded. */
  lemma AttemptsMaySucceedTwice(key: string) returns (steps: seq<Step>)
    ensures Run(steps).wins[key] == 2
    ensures 0 in Run(steps).callers && Run(steps).callers[0] == Done(key, Succeeded, true)
    ensures 1 in Run(steps).callers && Run(steps).callers[1] == Done(key, Failed(INDEX_REFUSED), false)
  {
    var asked := TwoAsk(key);
    var more := TogetherBothSucceed(Run(asked), 0, 1, key);
    MoreThenMore(EMPTY_SYS, asked, more);
    var end := [Go(0, None), Go(1, None)];
    SecondIsRefused(Run(asked + more), 0, 1, key);
    MoreThenMore(EMPTY_SYS, asked + more, end);
    steps := asked + more + end;
  }
}
