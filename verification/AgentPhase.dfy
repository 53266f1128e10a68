/** One agent phase: a bounded retry loop that records every attempt under its own id, the
    first over the "running" record written before the agent starts, and hands each
    finished attempt's envelope over through the delivery log. */
module AgentPhase {
  import opened Wrappers
  import opened Delivery

  datatype Status = Running | Passed | FailedPhase | Cancelled

  /** Attempt 1 is recorded under the id of the call itself. */
  datatype PhaseID = PhaseID(call: nat, attempt: nat)

  datatype PhaseRecord = PhaseRecord(id: PhaseID, repo: string, name: string, status: Status, attempt: nat)

  /** How one attempt went: the run was cancelled under it, or the agent exited, and the
      tries of handing over its envelope came out as `tries`. */
  datatype AttemptEnd = Interrupted | Exited(ok: bool, tries: Outcomes)

  /** What the world answers to the attempts of one call, and the key of each envelope. */
  datatype World = World(ends: nat -> AttemptEnd, keys: nat -> string)

  /** What one call leaves: the status of each attempt, how often each finished attempt
      tried its delivery, the delivery log, and whether the call returned without an error. */
  datatype Report = Report(statuses: seq<Status>, tries: seq<nat>, log: seq<Row>, ok: bool)

  // ---- the phases table

  function Without(phases: seq<PhaseRecord>, id: PhaseID): seq<PhaseRecord> {
    if phases == [] then []
    else (if phases[0].id == id then [] else [phases[0]]) + Without(phases[1..], id)
  }

  /** INSERT OR REPLACE, in the order of creation times. */
  function Upserted(phases: seq<PhaseRecord>, p: PhaseRecord): seq<PhaseRecord> {
    Without(phases, p.id) + [p]
  }

  predicate Unused(phases: seq<PhaseRecord>, call: nat) {
    forall i :: 0 <= i < |phases| ==> phases[i].id.call != call
  }

  function Recorded(call: nat, repo: string, name: string, statuses: seq<Status>): seq<PhaseRecord> {
    seq(|statuses|, i requires 0 <= i < |statuses| =>
      PhaseRecord(PhaseID(call, i + 1), repo, name, statuses[i], i + 1))
  }

  lemma {:induction false} WithoutAbsent(phases: seq<PhaseRecord>, id: PhaseID)
    requires forall i :: 0 <= i < |phases| ==> phases[i].id != id
    ensures Without(phases, id) == phases
  {
    if phases != [] {
      WithoutAbsent(phases[1..], id);
      assert phases == [phases[0]] + phases[1..];
    }
  }

  lemma {:induction false} WithoutLast(phases: seq<PhaseRecord>, p: PhaseRecord)
    requires forall i :: 0 <= i < |phases| ==> phases[i].id != p.id
    ensures Without(phases + [p], p.id) == phases
  {
    if phases == [] {
      assert phases + [p] == [p];
      assert [p][1..] == [];
    } else {
      WithoutLast(phases[1..], p);
      assert (phases + [p])[1..] == phases[1..] + [p];
      assert phases == [phases[0]] + phases[1..];
    }
  }

  // ---- the loop

  /** What handing over one envelope leaves: the delivery log, an answer, and the tries. */
  datatype Handed = Handed(log: seq<Row>, answer: Answer, calls: nat)

  /** How the envelope of each attempt is handed over, whatever the log is by then. */
  type Hand = (seq<Row>, nat) -> Handed

  type Ends = nat -> AttemptEnd

  /** A critical delivery under the key of that attempt's envelope. */
  function HandEnvelope(log: seq<Row>, attempt: nat, w: World): Handed {
    match w.ends(attempt)
    case Interrupted => Handed(log, Refused, 0)
    case Exited(_, tries) =>
      var key := w.keys(attempt);
      Handed(log + DeliveredRows(log, key, tries), DeliveredAnswer(log, key, true, tries), DeliveredCalls(log, key, tries))
  }

  function HandOf(w: World): Hand {
    (log: seq<Row>, attempt: nat) => HandEnvelope(log, attempt, w)
  }

  /** `hand` is how the world's envelopes are handed over. */
  ghost predicate Hands(hand: Hand, w: World) {
    forall log, attempt {:trigger HandEnvelope(log, attempt, w)} :: hand(log, attempt) == HandEnvelope(log, attempt, w)
  }

  function AttemptsBy(hand: Hand, ends: Ends, log: seq<Row>, attempt: nat, retries: int): Report
    decreases retries - attempt
  {
    if attempt > retries then Report([], [], log, true) else
    match ends(attempt)
    case Interrupted => Report([Cancelled], [], log, false)
    case Exited(ok, _) =>
      var h := hand(log, attempt);
      if ok then Report([Passed], [h.calls], h.log, h.answer == Succeeded)
      else if attempt == retries then Report([FailedPhase], [h.calls], h.log, false)
      else
        var rest := AttemptsBy(hand, ends, h.log, attempt + 1, retries);
        Report([FailedPhase] + rest.statuses, [h.calls] + rest.tries, rest.log, rest.ok)
  }

  function Attempts(log: seq<Row>, retries: int, w: World): Report {
    AttemptsBy(HandOf(w), w.ends, log, 0, retries)
  }

  /** A report with the attempts already made put in front. */
  function After(done: seq<Status>, tries: seq<nat>, rest: Report): Report {
    Report(done + rest.statuses, tries + rest.tries, rest.log, rest.ok)
  }

  lemma FailedAttempt(done: seq<Status>, tries: seq<nat>, log: seq<Row>, attempt: nat, retries: int, hand: Hand, ends: Ends)
    requires attempt < retries && ends(attempt).Exited? && !ends(attempt).ok
    ensures After(done, tries, AttemptsBy(hand, ends, log, attempt, retries))
         == After(done + [FailedPhase], tries + [hand(log, attempt).calls],
                  AttemptsBy(hand, ends, hand(log, attempt).log, attempt + 1, retries))
  {
    var h := hand(log, attempt);
    var rest := AttemptsBy(hand, ends, h.log, attempt + 1, retries);
    assert done + ([FailedPhase] + rest.statuses) == (done + [FailedPhase]) + rest.statuses;
    assert tries + ([h.calls] + rest.tries) == (tries + [h.calls]) + rest.tries;
  }

  lemma LastAttempt(done: seq<Status>, tries: seq<nat>, log: seq<Row>, attempt: nat, retries: int, hand: Hand, ends: Ends)
    requires attempt <= retries
    requires ends(attempt).Interrupted? || ends(attempt).ok || attempt == retries
    ensures After(done, tries, AttemptsBy(hand, ends, log, attempt, retries)) ==
      match ends(attempt)
      case Interrupted => Report(done + [Cancelled], tries, log, false)
      case Exited(ok, _) =>
        var h := hand(log, attempt);
        Report(done + [if ok then Passed else FailedPhase], tries + [h.calls], h.log, ok && h.answer == Succeeded)
  {
    assert tries + [] == tries;
  }

  function StatusesLeft(retries: int, report: Report): seq<Status> {
    if retries < 0 then [Running] else report.statuses
  }

  predicate Ended(status: Status) {
    status == Passed || status == FailedPhase || status == Cancelled
  }

  lemma {:induction false} CallsAreBounded(next: nat, last: nat, outcomes: Outcomes)
    requires next <= last
    ensures 1 <= Calls(next, last, outcomes) <= last - next + 1
    decreases last - next
  {
    if outcomes(next).Some? && next < last {
      CallsAreBounded(next + 1, last, outcomes);
    }
  }

  lemma HandIsBounded(log: seq<Row>, attempt: nat, w: World)
    ensures HandEnvelope(log, attempt, w).calls <= DELIVERY_MAX_ATTEMPTS
  {
    if w.ends(attempt).Exited? {
      CallsAreBounded(1, LastOf(1), w.ends(attempt).tries);
    }
  }

  /** What a report of attempts `attempt`..`retries` must look like. */
  ghost predicate Accounts(r: Report, attempt: nat, retries: int) {
    var k := |r.statuses|;
    && 1 <= k <= retries - attempt + 1
    && (forall i :: 0 <= i < k - 1 ==> r.statuses[i] == FailedPhase)
    && Ended(r.statuses[k - 1])
    && (r.statuses[k - 1] == FailedPhase ==> k == retries - attempt + 1)
    && |r.tries| == (if r.statuses[k - 1] == Cancelled then k - 1 else k)
    && (forall i :: 0 <= i < |r.tries| ==> r.tries[i] <= DELIVERY_MAX_ATTEMPTS)
    && (r.ok ==> r.statuses[k - 1] == Passed)
  }

  lemma OneMoreFailed(rest: Report, calls: nat, attempt: nat, retries: int)
    requires Accounts(rest, attempt + 1, retries) && calls <= DELIVERY_MAX_ATTEMPTS
    ensures Accounts(After([FailedPhase], [calls], rest), attempt, retries)
  {
    var r := After([FailedPhase], [calls], rest);
    assert forall i :: 0 < i < |r.statuses| ==> r.statuses[i] == rest.statuses[i - 1];
    assert forall i :: 0 < i < |r.tries| ==> r.tries[i] == rest.tries[i - 1];
  }

  /** The accounting of one call: between one and retries + 1 attempts, every one before the
      last failed, the last one passed, failed or cancelled, failed only when the retries
      are used up, and at most three delivery tries for each attempt that was not cancelled. */
  lemma AttemptAccounting(log: seq<Row>, retries: int, w: World)
    requires 0 <= retries
    ensures Accounts(Attempts(log, retries, w), 0, retries)
  {
    forall l, i: nat ensures HandOf(w)(l, i).calls <= DELIVERY_MAX_ATTEMPTS {
      HandIsBounded(l, i, w);
    }
    AccountingBy(HandOf(w), w.ends, log, 0, retries);
  }

  lemma {:induction false} AccountingBy(hand: Hand, ends: Ends, log: seq<Row>, attempt: nat, retries: int)
    requires attempt <= retries
    requires forall l, i: nat :: hand(l, i).calls <= DELIVERY_MAX_ATTEMPTS
    ensures Accounts(AttemptsBy(hand, ends, log, attempt, retries), attempt, retries)
    decreases retries - attempt
  {
    if ends(attempt).Exited? && !ends(attempt).ok && attempt < retries {
      var h := hand(log, attempt);
      AccountingBy(hand, ends, h.log, attempt + 1, retries);
      OneMoreFailed(AttemptsBy(hand, ends, h.log, attempt + 1, retries), h.calls, attempt, retries);
    }
  }

  function StatusOf(end: AttemptEnd): Status {
    match end
    case Interrupted => Cancelled
    case Exited(ok, _) => if ok then Passed else FailedPhase
  }

  /** How the attempts from number `first` ended: one that failed is followed by the next
      while retries are left, and any other is the last. */
  ghost predicate Follows(statuses: seq<Status>, first: nat, retries: int, ends: Ends)
    decreases |statuses|
  {
    && statuses != [] && statuses[0] == StatusOf(ends(first))
    && if statuses[0] == FailedPhase && first < retries then Follows(statuses[1..], first + 1, retries, ends)
       else |statuses| == 1
  }

  ghost predicate HandsOver(log: seq<Row>, log': seq<Row>, attempt: nat, calls: nat, w: World, answer: Answer) {
    w.ends(attempt).Exited? && Delivers(log, log', w.keys(attempt), true, w.ends(attempt).tries, answer, calls)
  }

  /** The attempts that exited each handed over their own envelope, one after the other. */
  ghost predicate HandedOver(log: seq<Row>, log': seq<Row>, first: nat, tries: seq<nat>, w: World)
    decreases |tries|
  {
    if tries == [] then log' == log
    else exists mid, answer :: HandsOver(log, mid, first, tries[0], w, answer) && HandedOver(mid, log', first + 1, tries[1..], w)
  }

  lemma OneMoreHanded(log: seq<Row>, mid: seq<Row>, log': seq<Row>, first: nat, calls: nat, tries: seq<nat>, w: World,
                      answer: Answer)
    requires HandsOver(log, mid, first, calls, w, answer) && HandedOver(mid, log', first + 1, tries, w)
    ensures HandedOver(log, log', first, [calls] + tries, w)
  {
    var all := [calls] + tries;
    assert all[0] == calls && all[1..] == tries;
    assert HandsOver(log, mid, first, all[0], w, answer) && HandedOver(mid, log', first + 1, all[1..], w);
  }

  lemma EnvelopeIsHandedOver(log: seq<Row>, attempt: nat, w: World)
    requires w.ends(attempt).Exited?
    ensures var h := HandEnvelope(log, attempt, w);
      && HandsOver(log, h.log, attempt, h.calls, w, h.answer)
      && (h.answer == Succeeded <==> Succeeds(h.log, w.keys(attempt)))
  {
    var h := HandEnvelope(log, attempt, w);
    DeliverMeans(log, w.keys(attempt), true, w.ends(attempt).tries);
    CriticalAnswer(log, h.log, w.keys(attempt), w.ends(attempt).tries, h.answer, h.calls);
  }

  /** Each attempt that exited hands its envelope over, before the next one starts. */
  lemma {:induction false} HandedBy(hand: Hand, log: seq<Row>, attempt: nat, retries: int, w: World)
    requires attempt <= retries
    requires forall l, i: nat :: w.ends(i).Exited? ==> HandsOver(l, hand(l, i).log, i, hand(l, i).calls, w, hand(l, i).answer)
    ensures var r := AttemptsBy(hand, w.ends, log, attempt, retries); HandedOver(log, r.log, attempt, r.tries, w)
    decreases retries - attempt
  {
    if w.ends(attempt).Exited? {
      var h := hand(log, attempt);
      if !w.ends(attempt).ok && attempt < retries {
        HandedBy(hand, h.log, attempt + 1, retries, w);
        var rest := AttemptsBy(hand, w.ends, h.log, attempt + 1, retries);
        OneMoreHanded(log, h.log, rest.log, attempt, h.calls, rest.tries, w, h.answer);
      } else {
        assert HandedOver(h.log, h.log, attempt + 1, [], w);
        OneMoreHanded(log, h.log, h.log, attempt, h.calls, [], w, h.answer);
        assert [h.calls] + [] == [h.calls];
      }
    }
  }

  /** Each attempt is recorded as it ended, and a failed one is followed by another while
      retries are left. */
  lemma {:induction false} FollowedBy(hand: Hand, ends: Ends, log: seq<Row>, attempt: nat, retries: int)
    requires attempt <= retries
    ensures Follows(AttemptsBy(hand, ends, log, attempt, retries).statuses, attempt, retries, ends)
    decreases retries - attempt
  {
    if ends(attempt).Exited? && !ends(attempt).ok && attempt < retries {
      FollowedBy(hand, ends, hand(log, attempt).log, attempt + 1, retries);
      var rest := AttemptsBy(hand, ends, hand(log, attempt).log, attempt + 1, retries).statuses;
      assert ([FailedPhase] + rest)[1..] == rest;
    }
  }

  /** There is no error exactly when the last attempt passed and its hand-over succeeded. */
  lemma {:induction false} OkBy(hand: Hand, ends: Ends, log: seq<Row>, attempt: nat, retries: int,
                                good: (seq<Row>, nat) -> bool)
    requires attempt <= retries
    requires forall l, i: nat :: ends(i).Exited? ==> (hand(l, i).answer == Succeeded <==> good(hand(l, i).log, i))
    ensures var r := AttemptsBy(hand, ends, log, attempt, retries);
      && r.statuses != []
      && (r.ok <==> r.statuses[|r.statuses| - 1] == Passed && good(r.log, attempt + |r.statuses| - 1))
    decreases retries - attempt
  {
    if ends(attempt).Exited? && !ends(attempt).ok && attempt < retries {
      OkBy(hand, ends, hand(log, attempt).log, attempt + 1, retries, good);
    }
  }

  lemma HandsOverEach(hand: Hand, w: World)
    requires Hands(hand, w)
    ensures forall l, i: nat :: w.ends(i).Exited? ==> HandsOver(l, hand(l, i).log, i, hand(l, i).calls, w, hand(l, i).answer)
    ensures forall l, i: nat :: w.ends(i).Exited? ==> (hand(l, i).answer == Succeeded <==> HasSuccess(hand(l, i).log, w.keys(i)))
  {
    forall l, i: nat | w.ends(i).Exited?
      ensures HandsOver(l, hand(l, i).log, i, hand(l, i).calls, w, hand(l, i).answer)
      ensures hand(l, i).answer == Succeeded <==> HasSuccess(hand(l, i).log, w.keys(i))
    {
      EnvelopeIsHandedOver(l, i, w);
      SuccessMeans(hand(l, i).log, w.keys(i));
    }
  }

  /** What a call does, attempt by attempt: each is recorded as it ended, a failed one is
      followed by another while retries are left, each that exited hands its envelope over,
      and the call has no error exactly when the last passed and its envelope was delivered. */
  lemma AttemptsFollow(hand: Hand, log: seq<Row>, retries: int, w: World)
    requires 0 <= retries && Hands(hand, w)
    ensures var r := AttemptsBy(hand, w.ends, log, 0, retries);
      && Follows(r.statuses, 0, retries, w.ends)
      && HandedOver(log, r.log, 0, r.tries, w)
      && (r.ok <==> r.statuses[|r.statuses| - 1] == Passed && Succeeds(r.log, w.keys(|r.statuses| - 1)))
  {
    HandsOverEach(hand, w);
    FollowedBy(hand, w.ends, log, 0, retries);
    HandedBy(hand, log, 0, retries, w);
    OkBy(hand, w.ends, log, 0, retries, (l: seq<Row>, i: nat) => HasSuccess(l, w.keys(i)));
    var r := AttemptsBy(hand, w.ends, log, 0, retries);
    SuccessMeans(r.log, w.keys(|r.statuses| - 1));
  }

  lemma RecordedAt(call: nat, repo: string, name: string, statuses: seq<Status>)
    ensures var records := Recorded(call, repo, name, statuses);
      |records| == |statuses| && forall i :: 0 <= i < |records| ==>
        records[i] == PhaseRecord(PhaseID(call, i + 1), repo, name, statuses[i], i + 1)
  {
  }

  lemma RecordsBy(r: Report, retries: int, call: nat, repo: string, name: string)
    requires if retries >= 0 then Accounts(r, 0, retries) else r.ok && r.statuses == []
    ensures var records := Recorded(call, repo, name, StatusesLeft(retries, r));
      && (forall i :: 0 <= i < |records| ==> records[i].id == PhaseID(call, i + 1) && records[i].attempt == i + 1)
      && (retries >= 0 <==> forall i :: 0 <= i < |records| ==> records[i].status != Running)
      && (retries >= 0 ==> 1 <= |records| <= retries + 1)
      && (retries < 0 ==> r.ok && |records| == 1)
  {
    RecordedAt(call, repo, name, StatusesLeft(retries, r));
    if retries >= 0 {
      assert forall i :: 0 <= i < |r.statuses| ==> r.statuses[i] != Running;
    } else {
      assert Recorded(call, repo, name, [Running])[0].status == Running;
    }
  }

  /** A call with the retries of a valid configuration leaves records 1..k without a gap and
      none still running; with negative retries it leaves the running record and no error. */
  lemma RecordsAreExact(log: seq<Row>, retries: int, w: World, call: nat, repo: string, name: string)
    ensures var r := Attempts(log, retries, w);
      var records := Recorded(call, repo, name, StatusesLeft(retries, r));
      && (forall i :: 0 <= i < |records| ==> records[i].id == PhaseID(call, i + 1) && records[i].attempt == i + 1)
      && (retries >= 0 <==> forall i :: 0 <= i < |records| ==> records[i].status != Running)
      && (retries >= 0 ==> 1 <= |records| <= retries + 1)
      && (retries < 0 ==> r.ok && |records| == 1)
  {
    if retries >= 0 {
      AttemptAccounting(log, retries, w);
    }
    RecordsBy(Attempts(log, retries, w), retries, call, repo, name);
  }

  function StatusesOf(records: seq<PhaseRecord>): seq<Status> {
    seq(|records|, i requires 0 <= i < |records| => records[i].status)
  }

  /** What a call leaves, over the two tables alone: its records at the end of the phases, one
      for each attempt as that ended; an envelope handed over for each attempt that exited;
      and no error exactly when the last passed and its envelope was delivered. */
  ghost predicate Called(before: seq<PhaseRecord>, after: seq<PhaseRecord>, log: seq<Row>, log': seq<Row>,
                         call: nat, repo: string, name: string, retries: int, w: World, ok: bool, tries: seq<nat>) {
    && before < after
    && var mine := after[|before|..];
      && (forall i :: 0 <= i < |mine| ==> mine[i] == PhaseRecord(PhaseID(call, i + 1), repo, name, mine[i].status, i + 1))
      && if retries < 0 then ok && tries == [] && log' == log && |mine| == 1 && mine[0].status == Running
         else
           && Follows(StatusesOf(mine), 0, retries, w.ends) && HandedOver(log, log', 0, tries, w)
           && (ok <==> mine[|mine| - 1].status == Passed && Succeeds(log', w.keys(|mine| - 1)))
  }

  lemma RecordsTell(before: seq<PhaseRecord>, mine: seq<PhaseRecord>, statuses: seq<Status>, log: seq<Row>, log': seq<Row>,
                    call: nat, repo: string, name: string, retries: int, w: World, ok: bool, tries: seq<nat>)
    requires retries >= 0 && |mine| == |statuses| > 0
    requires forall i :: 0 <= i < |mine| ==> mine[i] == PhaseRecord(PhaseID(call, i + 1), repo, name, statuses[i], i + 1)
    requires Follows(statuses, 0, retries, w.ends) && HandedOver(log, log', 0, tries, w)
    requires ok <==> statuses[|statuses| - 1] == Passed && Succeeds(log', w.keys(|statuses| - 1))
    ensures Called(before, before + mine, log, log', call, repo, name, retries, w, ok, tries)
  {
    assert (before + mine)[|before|..] == mine;
    assert StatusesOf(mine) == statuses;
  }

  lemma RecordedTell(before: seq<PhaseRecord>, statuses: seq<Status>, log: seq<Row>, log': seq<Row>,
                     call: nat, repo: string, name: string, retries: int, w: World, ok: bool, tries: seq<nat>)
    requires retries >= 0 && |statuses| > 0
    requires Follows(statuses, 0, retries, w.ends) && HandedOver(log, log', 0, tries, w)
    requires ok <==> statuses[|statuses| - 1] == Passed && Succeeds(log', w.keys(|statuses| - 1))
    ensures Called(before, before + Recorded(call, repo, name, statuses), log, log', call, repo, name, retries, w, ok, tries)
  {
    RecordedAt(call, repo, name, statuses);
    RecordsTell(before, Recorded(call, repo, name, statuses), statuses, log, log', call, repo, name, retries, w, ok, tries);
  }

  lemma CallMeans(before: seq<PhaseRecord>, log: seq<Row>, r: Report, call: nat, repo: string, name: string, retries: int, w: World)
    requires r == Attempts(log, retries, w) && retries >= 0
    ensures Called(before, before + Recorded(call, repo, name, r.statuses), log, r.log,
                   call, repo, name, retries, w, r.ok, r.tries)
  {
    AttemptsFollow(HandOf(w), log, retries, w);
    RecordedTell(before, r.statuses, log, r.log, call, repo, name, retries, w, r.ok, r.tries);
  }

  /** With negative retries it is one record left running, nothing handed over and no error. */
  lemma NoAttemptMeans(before: seq<PhaseRecord>, log: seq<Row>, call: nat, repo: string, name: string, retries: int, w: World)
    requires retries < 0
    ensures Attempts(log, retries, w) == Report([], [], log, true)
    ensures Called(before, before + Recorded(call, repo, name, StatusesLeft(retries, Attempts(log, retries, w))), log, log,
                   call, repo, name, retries, w, true, [])
  {
    var mine := Recorded(call, repo, name, [Running]);
    assert (before + mine)[|before|..] == mine;
  }

  class PhaseRunner {
    const repo: string
    const deliveries: DeliveryStore
    var phases: seq<PhaseRecord>

    constructor (repo: string, deliveries: DeliveryStore)
      ensures this.repo == repo && this.deliveries == deliveries && phases == []
    {
      this.repo, this.deliveries, phases := repo, deliveries, [];
    }

    method RecordPhase(p: PhaseRecord)
      modifies this
      ensures phases == Upserted(old(phases), p)
    {
      var kept := [];
      var i := 0;
      while i < |phases|
        invariant 0 <= i <= |phases| && phases == old(phases)
        invariant kept + Without(phases[i..], p.id) == Without(phases, p.id)
      {
        assert phases[i..][1..] == phases[i + 1..];
        if phases[i].id != p.id {
          assert kept + ([phases[i]] + Without(phases[i + 1..], p.id)) == (kept + [phases[i]]) + Without(phases[i + 1..], p.id);
          kept := kept + [phases[i]];
        } else {
          assert [] + Without(phases[i + 1..], p.id) == Without(phases[i + 1..], p.id);
        }
        i := i + 1;
      }
      assert kept == Without(phases, p.id);
      phases := kept + [p];
    }

    method RunAgentPhase(call: nat, name: string, retries: int, w: World) returns (ok: bool, tries: seq<nat>)
      requires deliveries.Valid() && Unused(phases, call)
      modifies this, deliveries
      ensures deliveries.Valid()
      ensures var r := Attempts(old(deliveries.rows), retries, w);
        && phases == old(phases) + Recorded(call, repo, name, StatusesLeft(retries, r))
        && ok == r.ok && tries == r.tries && deliveries.rows == r.log
    {
      ghost var before := phases;
      var running := PhaseRecord(PhaseID(call, 1), repo, name, Running, 1);
      WithoutAbsent(phases, running.id);
      RecordPhase(running);
      ok, tries := RunAttempts(call, name, retries, w, HandOf(w), before);
    }

    /** The retry loop, over the running record written before it. */
    method RunAttempts(call: nat, name: string, retries: int, w: World, ghost hand: Hand, ghost before: seq<PhaseRecord>)
      returns (ok: bool, tries: seq<nat>)
      requires deliveries.Valid() && Unused(before, call) && Hands(hand, w)
      requires phases == before + [PhaseRecord(PhaseID(call, 1), repo, name, Running, 1)]
      modifies this, deliveries
      ensures deliveries.Valid()
      ensures var r := AttemptsBy(hand, w.ends, old(deliveries.rows), 0, retries);
        && phases == before + Recorded(call, repo, name, StatusesLeft(retries, r))
        && ok == r.ok && tries == r.tries && deliveries.rows == r.log
    {
      ghost var all := AttemptsBy(hand, w.ends, deliveries.rows, 0, retries);
      ghost var done: seq<Status> := [];
      tries := [];
      var attempt := 0;
      while attempt <= retries
        invariant 0 <= attempt && (retries >= 0 ==> attempt <= retries)
        invariant deliveries.Valid() && attempt == |done|
        invariant phases == before + if attempt == 0 then [PhaseRecord(PhaseID(call, 1), repo, name, Running, 1)]
                                     else Recorded(call, repo, name, done)
        invariant all == After(done, tries, AttemptsBy(hand, w.ends, deliveries.rows, attempt, retries))
        invariant retries < 0 ==> attempt == 0
        decreases retries - attempt
      {
        ghost var log := deliveries.rows;
        if w.ends(attempt).Interrupted? {
          LastAttempt(done, tries, log, attempt, retries, hand, w.ends);
          RecordAttempt(call, name, Cancelled, attempt, before, done);
          ok := false;
          return;
        }
        var delivered, calls := HandOver(attempt, w, hand);
        var failed := !w.ends(attempt).ok;
        var status := if failed then FailedPhase else Passed;
        RecordAttempt(call, name, status, attempt, before, done);
        if failed && attempt < retries {
          FailedAttempt(done, tries, log, attempt, retries, hand, w.ends);
          tries, done := tries + [calls], done + [status];
          attempt := attempt + 1;
          continue;
        }
        LastAttempt(done, tries, log, attempt, retries, hand, w.ends);
        tries := tries + [calls];
        ok := !failed && delivered == Succeeded;
        return;
      }
      ok := true;
      assert Recorded(call, repo, name, [Running]) == [PhaseRecord(PhaseID(call, 1), repo, name, Running, 1)];
    }

    /** The envelope of a finished attempt, a critical delivery. */
    method HandOver(attempt: nat, w: World, ghost hand: Hand) returns (delivered: Answer, calls: nat)
      requires deliveries.Valid() && w.ends(attempt).Exited? && Hands(hand, w)
      modifies deliveries
      ensures deliveries.Valid()
      ensures Handed(deliveries.rows, delivered, calls) == hand(old(deliveries.rows), attempt)
    {
      assert hand(deliveries.rows, attempt) == HandEnvelope(deliveries.rows, attempt, w);
      delivered, calls := deliveries.DeliverEnvelope(w.keys(attempt), true, w.ends(attempt).tries);
    }

    /** An attempt's record takes the place of the running one, or of none. */
    method RecordAttempt(call: nat, name: string, status: Status, attempt: nat,
                         ghost before: seq<PhaseRecord>, ghost done: seq<Status>)
      requires Unused(before, call) && attempt == |done|
      requires phases == before + if attempt == 0 then [PhaseRecord(PhaseID(call, 1), repo, name, Running, 1)]
                                  else Recorded(call, repo, name, done)
      modifies this
      ensures phases == before + Recorded(call, repo, name, done + [status])
    {
      var p := PhaseRecord(PhaseID(call, attempt + 1), repo, name, status, attempt + 1);
      ghost var earlier := Recorded(call, repo, name, done);
      if attempt == 0 {
        WithoutLast(before, phases[|before|]);
        assert earlier == [];
      } else {
        WithoutAbsent(phases, p.id);
      }
      assert before + (earlier + [p]) == (before + earlier) + [p];
      assert Recorded(call, repo, name, done + [status]) == earlier + [p];
      RecordPhase(p);
    }
  }
}
