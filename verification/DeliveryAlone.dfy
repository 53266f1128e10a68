/** A caller that no other comes between writes the rows, and is given the answer, of the call
    taken as one step: the interleaved deliveries refine the atomic ones. */
module DeliveryAlone {
  import opened Wrappers
  import opened Delivery
  import R = DeliveryRace

  /** One caller's steps alone, with the outcome of each. */
  function Alone(s: R.Sys, id: nat, steps: seq<Option<string>>): R.Sys
    decreases |steps|
  {
    if steps == [] then s else Alone(R.Next(s, R.Go(id, steps[0])), id, steps[1..])
  }

  ghost predicate EndsBy(s: R.Sys, id: nat, steps: seq<Option<string>>, rows: seq<Row>, answer: Answer) {
    var end := Alone(s, id, steps);
    end.rows == rows && id in end.callers && end.callers[id].Done? && end.callers[id].answer == answer
  }

  /** Left alone, the caller can come to its end with these rows and this answer. */
  ghost predicate EndsIn(s: R.Sys, id: nat, rows: seq<Row>, answer: Answer) {
    exists steps :: EndsBy(s, id, steps, rows, answer)
  }

  lemma Ended(s: R.Sys, id: nat)
    requires id in s.callers && s.callers[id].Done?
    ensures EndsIn(s, id, s.rows, s.callers[id].answer)
  {
    assert EndsBy(s, id, [], s.rows, s.callers[id].answer);
  }

  lemma Steps(s: R.Sys, id: nat, outcome: Option<string>, s': R.Sys, rows: seq<Row>, answer: Answer)
    requires id in s.callers && R.Goes(s, id, s.callers[id], outcome) == s' && EndsIn(s', id, rows, answer)
    ensures EndsIn(s, id, rows, answer)
  {
    var steps :| EndsBy(s', id, steps, rows, answer);
    var all := [outcome] + steps;
    assert all[0] == outcome && all[1..] == steps;
    assert EndsBy(s, id, all, rows, answer);
  }

  lemma NoNewSuccess(rows: seq<Row>, row: Row, key: string)
    requires !IsSuccess(row.state)
    ensures R.Inserted(rows, row) == rows + [row] && HasSuccess(rows + [row], key) == HasSuccess(rows, key)
  {
    assert (rows + [row])[..|rows|] == rows;
  }

  lemma InTwoParts(rows: seq<Row>, row: Row, more: seq<Row>)
    ensures (rows + [row]) + more == rows + ([row] + more)
  {
  }

  /** Where an attempt and the insert after it leave the caller. */
  function AfterTry(s: R.Sys, id: nat, c: R.Caller, outcome: Option<string>): R.Sys
    requires c.Trying?
  {
    var judged := R.Judged(c.key, c.attempt, c.last, outcome);
    var tried := R.At(s, id, judged);
    R.Settled(if outcome.None? then tried.(wins := s.wins + multiset{c.key}) else tried, id, judged)
  }

  lemma TryThen(s: R.Sys, id: nat, outcome: Option<string>, rows: seq<Row>, answer: Answer)
    requires id in s.callers && s.callers[id].Trying? && EndsIn(AfterTry(s, id, s.callers[id], outcome), id, rows, answer)
    ensures EndsIn(s, id, rows, answer)
  {
    var tried := R.Goes(s, id, s.callers[id], outcome);
    Steps(tried, id, None, AfterTry(s, id, s.callers[id], outcome), rows, answer);
    Steps(s, id, outcome, tried, rows, answer);
  }

  /** An attempt that succeeds ends the loop, and so does one that fails and is the last. */
  lemma LastTryAlone(s: R.Sys, id: nat, key: string, next: nat, last: nat, outcomes: Outcomes)
    requires next <= last && id in s.callers && s.callers[id] == R.Trying(key, next, last)
    requires outcomes(next).None? || next == last
    ensures var taken := HasSuccess(s.rows, key);
      EndsIn(s, id, s.rows + Tries(key, next, last, outcomes, taken), AsAnswer(Outcome(next, last, outcomes, taken).0))
  {
    var settled := AfterTry(s, id, s.callers[id], outcomes(next));
    assert s.rows + [] == s.rows;
    Ended(settled, id);
    TryThen(s, id, outcomes(next), settled.rows, settled.callers[id].answer);
  }

  /** The attempts that are left. */
  lemma {:induction false} TriesAlone(s: R.Sys, id: nat, key: string, next: nat, last: nat, outcomes: Outcomes)
    requires next <= last && id in s.callers && s.callers[id] == R.Trying(key, next, last)
    ensures var taken := HasSuccess(s.rows, key);
      EndsIn(s, id, s.rows + Tries(key, next, last, outcomes, taken), AsAnswer(Outcome(next, last, outcomes, taken).0))
    decreases last - next
  {
    if outcomes(next).None? || next == last {
      LastTryAlone(s, id, key, next, last, outcomes);
    } else {
      var taken, row := HasSuccess(s.rows, key), Row(key, Retrying, next + 1, outcomes(next).value);
      var more := Tries(key, next + 1, last, outcomes, taken);
      var settled := AfterTry(s, id, s.callers[id], outcomes(next));
      NoNewSuccess(s.rows, row, key);
      assert settled.rows == s.rows + [row] && settled.callers[id] == R.Trying(key, next + 1, last);
      TriesAlone(settled, id, key, next + 1, last, outcomes);
      InTwoParts(s.rows, row, more);
      TryThen(s, id, outcomes(next), s.rows + ([row] + more), AsAnswer(Outcome(next + 1, last, outcomes, taken).0));
    }
  }

  /** An episode from its pending row on. */
  lemma EpisodeAlone(s: R.Sys, id: nat, key: string, start: nat, outcomes: Outcomes)
    requires id in s.callers
    ensures var taken := HasSuccess(s.rows, key);
      EndsIn(R.Begun(s, id, key, start), id, s.rows + Episode(key, start, outcomes, taken), EndOf(Episode(key, start, outcomes, taken)))
  {
    var taken, pending := HasSuccess(s.rows, key), Row(key, Pending, start, "");
    NoNewSuccess(s.rows, pending, key);
    TriesAlone(R.Begun(s, id, key, start), id, key, start, LastOf(start), outcomes);
    InTwoParts(s.rows, pending, Tries(key, start, LastOf(start), outcomes, taken));
    TriesEnd(key, start, LastOf(start), outcomes, taken);
  }

  /** A delivery alone is the one-step delivery, with the answer a critical call is given. */
  lemma DeliverAlone(s: R.Sys, id: nat, key: string, outcomes: Outcomes)
    requires id in s.callers && s.callers[id] == R.DeliverAsked(key)
    ensures EndsIn(s, id, s.rows + DeliveredRows(s.rows, key, outcomes), DeliveredAnswer(s.rows, key, true, outcomes))
  {
    var rows, answer := s.rows + DeliveredRows(s.rows, key, outcomes), DeliveredAnswer(s.rows, key, true, outcomes);
    var asked := R.Goes(s, id, s.callers[id], None);
    if HasSuccess(s.rows, key) {
      assert s.rows + [] == s.rows;
      Ended(asked, id);
    } else {
      EpisodeAlone(asked, id, key, 1, outcomes);
      Steps(asked, id, None, R.Begun(asked, id, key, 1), rows, answer);
    }
    Steps(s, id, None, asked, rows, answer);
  }

  /** A replay alone is the one-step replay. */
  lemma ReplayAlone(s: R.Sys, id: nat, key: string, outcomes: Outcomes)
    requires id in s.callers && s.callers[id] == R.ReplayAsked(key)
    ensures EndsIn(s, id, s.rows + ReplayedRows(s.rows, key, outcomes), ReplayedAnswer(s.rows, key, outcomes))
  {
    var rows, answer := s.rows + ReplayedRows(s.rows, key, outcomes), ReplayedAnswer(s.rows, key, outcomes);
    var asked := R.Goes(s, id, s.callers[id], None);
    if Latest(s.rows, key) == Some(DeadLetter) {
      var start := ReplayStart(s.rows, key);
      var from := R.Goes(asked, id, asked.callers[id], None);
      EpisodeAlone(from, id, key, start, outcomes);
      Steps(from, id, None, R.Begun(from, id, key, start), rows, answer);
      Steps(asked, id, None, from, rows, answer);
    } else {
      assert s.rows + [] == s.rows;
      Ended(asked, id);
    }
    Steps(s, id, None, asked, rows, answer);
  }

  /** A quarantine alone is the one-step quarantine. */
  lemma QuarantineAlone(s: R.Sys, id: nat, key: string, reason: string)
    requires id in s.callers && s.callers[id] == R.QuarantineAsked(key, reason)
    ensures EndsIn(s, id, s.rows + QuarantinedRows(s.rows, key, reason), QuarantinedAnswer(s.rows, key))
  {
    var rows, answer := s.rows + QuarantinedRows(s.rows, key, reason), QuarantinedAnswer(s.rows, key);
    var asked := R.Goes(s, id, s.callers[id], None);
    if Latest(s.rows, key) == Some(DeadLetter) {
      NoNewSuccess(s.rows, Row(key, Quarantined, 0, reason), key);
      var done := R.Goes(asked, id, asked.callers[id], None);
      Ended(done, id);
      Steps(asked, id, None, done, rows, answer);
    } else {
      assert s.rows + [] == s.rows;
      Ended(asked, id);
    }
    Steps(s, id, None, asked, rows, answer);
  }
}
