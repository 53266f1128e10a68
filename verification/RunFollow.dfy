/** The run waiter's loop: it reads the row before every wait, so what it answers is always
    what the store says. */
module RunFollow {
  import opened Wrappers
  import opened WakeUp

  /** `rows` is the row at each turn and `late` whether the bound is over by then; a turn
      ends by a notification, a tick or the bound, which one does not matter. */
  method RunWait(rows: nat -> Option<string>, late: nat -> bool, last: nat) returns (answer: WaitAnswer, turn: nat)
    requires late(last)
    ensures turn <= last && answer == AnswerFor(rows(turn), late(turn)) && answer != Pending
    ensures forall t :: 0 <= t < turn ==> rows(t).Some? && !IsTerminalRunStatus(rows(t).value) && !late(t)
    ensures forall t :: 0 <= t < turn ==>
      rows(t).Some? && rows(t).value !in {"passed", "failed", "cancelled", "timed_out", "interrupted"} && !late(t)
    ensures rows(turn) == None || rows(turn).value in {"passed", "failed", "cancelled", "timed_out", "interrupted"} || late(turn)
    ensures answer ==
      if rows(turn) == None then NotFound
      else if rows(turn).value in {"passed", "failed", "cancelled", "timed_out", "interrupted"} then Finished(rows(turn).value)
      else TimedOut(rows(turn).value)
  {
    turn := 0;
    while true
      invariant turn <= last
      invariant forall t :: 0 <= t < turn ==> rows(t).Some? && !IsTerminalRunStatus(rows(t).value) && !late(t)
      decreases last - turn
    {
      var row := rows(turn);
      if row.None? {
        return NotFound, turn;
      }
      if IsTerminalRunStatus(row.value) {
        return Finished(row.value), turn;
      }
      if late(turn) {
        return TimedOut(row.value), turn;
      }
      turn := turn + 1;
    }
  }
}
