/** The export runner: a poll over the change log that hands intent and bullet changes to
    a target in order and saves a durable cursor past what was delivered. */
module Export {
  import opened Wrappers
  import opened ChangeLog

  /** What one attempt to hand over a change came to. */
  datatype Outcome = Delivered | RecordUnavailable | TargetFailed

  predicate Exportable(c: Change) {
    c.channel == IntentChannel || c.channel == BulletChannel
  }

  function NumberOf(c: Change): seq<nat> {
    if Exportable(c) then [c.seqNo] else []
  }

  /** The numbers of the exportable changes, in order. */
  function Wanted(changes: seq<Change>): seq<nat> {
    if changes == [] then []
    else NumberOf(changes[0]) + Wanted(changes[1..])
  }

  predicate Fails(c: Change, attempts: nat -> Outcome) {
    Exportable(c) && attempts(c.seqNo) != Delivered
  }

  /** Where a pass over a page that has come to `i` stops: at the first exportable change that
      is not delivered. `attempts` holds the outcome for each number. */
  function StopAt(page: seq<Change>, attempts: nat -> Outcome, i: nat): (n: nat)
    requires i <= |page|
    ensures i <= n <= |page|
    ensures forall k :: i <= k < n ==> !Fails(page[k], attempts)
    ensures n < |page| ==> Fails(page[n], attempts)
    decreases |page| - i
  {
    if i == |page| || Fails(page[i], attempts) then i else StopAt(page, attempts, i + 1)
  }

  /** How many leading changes of a page one pass gets through. */
  function Handled(page: seq<Change>, attempts: nat -> Outcome): (n: nat)
    ensures n <= |page|
  {
    StopAt(page, attempts, 0)
  }

  /** The numbers a pass that has come to `i` still hands over with success. */
  function Accepted(page: seq<Change>, attempts: nat -> Outcome, i: nat): seq<nat>
    requires i <= |page|
    decreases |page| - i
  {
    if i == |page| || Fails(page[i], attempts) then []
    else NumberOf(page[i]) + Accepted(page, attempts, i + 1)
  }

  /** They are every exportable change of the stretch the pass gets through. */
  lemma {:induction false} AcceptedIsWanted(page: seq<Change>, attempts: nat -> Outcome, i: nat)
    requires i <= |page|
    ensures Accepted(page, attempts, i) == Wanted(page[i..StopAt(page, attempts, i)])
    decreases |page| - i
  {
    if i < |page| && !Fails(page[i], attempts) {
      AcceptedIsWanted(page, attempts, i + 1);
      var stretch := page[i..StopAt(page, attempts, i)];
      assert stretch[1..] == page[i + 1..StopAt(page, attempts, i)];
    }
  }

  lemma {:induction false} WantedWithin(changes: seq<Change>, n: nat)
    ensures n in Wanted(changes) <==>
      exists c :: c in changes && (c.channel == IntentChannel || c.channel == BulletChannel) && c.seqNo == n
  {
    if changes != [] {
      WantedWithin(changes[1..], n);
      if n in Wanted(changes[1..]) {
        var c :| c in changes[1..] && Exportable(c) && c.seqNo == n;
        assert c in changes;
      }
      assert changes == [changes[0]] + changes[1..];
    }
  }

  /** What a pass over a page hands over with success. */
  function HandedOf(page: seq<Change>, attempts: nat -> Outcome): seq<nat> {
    Wanted(page[..Handled(page, attempts)])
  }

  lemma AcceptedIsHanded(page: seq<Change>, attempts: nat -> Outcome)
    ensures Accepted(page, attempts, 0) == HandedOf(page, attempts)
  {
    AcceptedIsWanted(page, attempts, 0);
    assert page[0..Handled(page, attempts)] == page[..Handled(page, attempts)];
  }

  /** The first `n` changes of a page are done with: every intent or bullet change among them
      was handed over with success, and the next change, if there is one, is one that was not. */
  ghost predicate DoneWith(page: seq<Change>, attempts: nat -> Outcome, n: nat, more: seq<nat>) {
    && n <= |page|
    && (forall k :: 0 <= k < n && page[k].channel in {IntentChannel, BulletChannel} ==> attempts(page[k].seqNo) == Delivered)
    && (n < |page| ==> page[n].channel in {IntentChannel, BulletChannel} && attempts(page[n].seqNo) != Delivered)
    && (forall m :: m in more <==> exists c :: c in page[..n] && c.channel in {IntentChannel, BulletChannel} && c.seqNo == m)
  }

  lemma HandledIsDone(page: seq<Change>, attempts: nat -> Outcome)
    ensures DoneWith(page, attempts, Handled(page, attempts), HandedOf(page, attempts))
  {
    var n := Handled(page, attempts);
    forall m ensures m in Wanted(page[..n]) <==>
      exists c :: c in page[..n] && c.channel in {IntentChannel, BulletChannel} && c.seqNo == m
    {
      WantedWithin(page[..n], m);
    }
  }

  class Runner {
    const store: ChangeStore
    var cursor: nat
    var delivered: seq<nat>

    constructor (store: ChangeStore)
      ensures this.store == store && cursor == 0 && delivered == []
    {
      this.store, cursor, delivered := store, 0, [];
    }

    /** Hands over a page in order, up to the first exportable change that fails, and answers
        how far it got. */
    method HandOver(changes: seq<Change>, attempts: nat -> Outcome) returns (advanced: nat)
      modifies this`delivered
      ensures delivered == old(delivered) + Accepted(changes, attempts, 0)
      ensures var n := Handled(changes, attempts);
        advanced == if n == 0 then cursor else changes[n - 1].seqNo
    {
      advanced := cursor;
      var i := 0;
      while i < |changes|
        invariant 0 <= i <= |changes| && cursor == old(cursor)
        invariant StopAt(changes, attempts, 0) == StopAt(changes, attempts, i)
        invariant advanced == if i == 0 then cursor else changes[i - 1].seqNo
        invariant delivered + Accepted(changes, attempts, i) == old(delivered) + Accepted(changes, attempts, 0)
      {
        var change := changes[i];
        if Exportable(change) {
          if attempts(change.seqNo) == RecordUnavailable {
            break;
          }
          if attempts(change.seqNo) == TargetFailed {
            break;
          }
          InTwoParts(delivered, [change.seqNo], Accepted(changes, attempts, i + 1));
          delivered := delivered + [change.seqNo];
        }
        advanced := change.seqNo;
        i := i + 1;
      }
      assert delivered + [] == delivered;
    }

    /** `saves` says whether the process survives up to the cursor write and it succeeds. */
    method Tick(attempts: nat -> Outcome, saves: bool)
      modifies this
      ensures Exporter(store.Contents(), cursor, delivered)
           == Ticked(Exporter(old(store.Contents()), old(cursor), old(delivered)), attempts, saves)
      ensures old(ValidLog(store.Contents())) && old(store.watermark - |store.rows| <= cursor <= store.watermark) ==>
        exists top: nat, more ::
          && DeliversTo(old(store.Contents()), old(cursor), attempts, top, more)
          && delivered == old(delivered) + more && cursor == (if saves then top else old(cursor))
    {
      if ValidLog(store.Contents()) && store.watermark - |store.rows| <= cursor <= store.watermark {
        ghost var top, more := TickMeans(Exporter(store.Contents(), cursor, delivered), attempts, saves);
      }
      var changes := store.ListChangesSince(cursor, 0);
      AcceptedIsHanded(changes, attempts);
      var advanced := HandOver(changes, attempts);
      if advanced != cursor && saves {
        cursor := advanced;
      }
    }
  }

  /** `delivered` is every number handed over with success, in the order it happened. */
  datatype Exporter = Exporter(log: Log, cursor: nat, delivered: seq<nat>)

  function Ticked(x: Exporter, attempts: nat -> Outcome, saves: bool): Exporter {
    var page := Page(x.log, x.cursor, 0);
    var n := Handled(page, attempts);
    Exporter(x.log,
             if n == 0 || !saves then x.cursor else page[n - 1].seqNo,
             x.delivered + HandedOf(page, attempts))
  }

  /** A tick that starts above number `from` gets to number `top`: it hands over, in order,
      exactly the intent and bullet changes between the two, all with success, and stops only at
      the end of the log, after 500 changes, or before such a change that is not delivered. */
  ghost predicate DeliversTo(l: Log, from: nat, attempts: nat -> Outcome, top: nat, more: seq<nat>) {
    && from <= top <= l.watermark && top <= from + 500
    && (forall i, j :: 0 <= i < j < |more| ==> more[i] < more[j])
    && (forall m :: m in more <==>
      exists c :: c in l.rows && from < c.seqNo <= top && c.channel in {IntentChannel, BulletChannel} && c.seqNo == m)
    && (forall m :: m in more ==> attempts(m) == Delivered)
    && (top == l.watermark || top == from + 500
        || exists c :: c in l.rows && c.seqNo == top + 1 && c.channel in {IntentChannel, BulletChannel} && attempts(top + 1) != Delivered)
  }

  lemma TickMeans(x: Exporter, attempts: nat -> Outcome, saves: bool) returns (top: nat, more: seq<nat>)
    requires ValidLog(x.log) && x.log.watermark - |x.log.rows| <= x.cursor <= x.log.watermark
    ensures DeliversTo(x.log, x.cursor, attempts, top, more)
    ensures Ticked(x, attempts, saves) == Exporter(x.log, if saves then top else x.cursor, x.delivered + more)
  {
    var page := Page(x.log, x.cursor, 0);
    var n := Handled(page, attempts);
    top, more := x.cursor + n, HandedOf(page, attempts);
    HandedIsDelivered(x.log, x.cursor, attempts, page, n);
  }

  lemma HandedIsDelivered(l: Log, from: nat, attempts: nat -> Outcome, page: seq<Change>, n: nat)
    requires ValidLog(l) && l.watermark - |l.rows| <= from <= l.watermark
    requires page == Page(l, from, 0) && n == Handled(page, attempts)
    ensures DeliversTo(l, from, attempts, from + n, HandedOf(page, attempts))
    ensures n > 0 ==> page[n - 1].seqNo == from + n
  {
    PageIsNextRun(l, from, 0);
    HandledIsDone(page, attempts);
    WantedAscends(page[..n]);
    DoneIsDelivered(l, from, attempts, page, Passed(l, from), n, HandedOf(page, attempts));
  }

  lemma DoneIsDelivered(l: Log, from: nat, attempts: nat -> Outcome, page: seq<Change>, k: nat, n: nat, more: seq<nat>)
    requires ValidLog(l) && k == from - (l.watermark - |l.rows|) && k + |page| <= |l.rows| && page == l.rows[k..k + |page|]
    requires |page| <= 500 && (|page| < 500 ==> k + |page| == |l.rows|)
    requires DoneWith(page, attempts, n, more) && Ascends(more)
    ensures DeliversTo(l, from, attempts, from + n, more)
  {
    forall c ensures c in page[..n] <==> c in l.rows && from < c.seqNo <= from + n {
      NumbersBetween(l, from, k, n, c);
      assert page[..n] == l.rows[k..k + n];
    }
    forall m | m in more ensures attempts(m) == Delivered {
      var c :| c in page[..n] && c.channel in {IntentChannel, BulletChannel} && c.seqNo == m;
      var i :| 0 <= i < n && page[i] == c;
    }
    if n < |page| {
      assert page[n] == l.rows[k + n];
    }
  }

  /** The changes of a stretch of the log are those with its numbers. */
  lemma NumbersBetween(l: Log, from: nat, k: nat, n: nat, c: Change)
    requires ValidLog(l) && k == from - (l.watermark - |l.rows|) && k + n <= |l.rows|
    ensures c in l.rows[k..k + n] <==> c in l.rows && from < c.seqNo <= from + n
  {
    if c in l.rows[k..k + n] {
      var i :| k <= i < k + n && l.rows[i] == c;
    }
    if c in l.rows && from < c.seqNo <= from + n {
      var j :| 0 <= j < |l.rows| && l.rows[j] == c;
      assert l.rows[k..k + n][j - k] == c;
    }
  }

  /** A crash between a delivery and the save of its cursor is a tick that does not save;
      rows at or below the saved cursor may be pruned. */
  datatype Step =
    | Append(channel: Channel, entity: string)
    | Prune(count: nat)
    | Tick(attempts: nat -> Outcome, saves: bool)

  function Next(x: Exporter, step: Step): Exporter {
    match step
    case Append(channel, entity) => x.(log := Appended(x.log, channel, entity))
    case Prune(count) =>
      if count <= |x.log.rows| && x.log.watermark - |x.log.rows| + count <= x.cursor
      then x.(log := Pruned(x.log, count)) else x
    case Tick(attempts, saves) => Ticked(x, attempts, saves)
  }

  function Recorded(history: seq<Change>, step: Step): seq<Change> {
    if step.Append? then history + [Change(|history| + 1, step.channel, step.entity)] else history
  }

  /** Every change ever appended over a run, pruned or not. */
  function History(steps: seq<Step>): seq<Change> {
    if steps == [] then [] else Recorded(History(steps[..|steps| - 1]), steps[|steps| - 1])
  }

  function Run(steps: seq<Step>): Exporter {
    if steps == [] then Exporter(EMPTY_LOG, 0, [])
    else Next(Run(steps[..|steps| - 1]), steps[|steps| - 1])
  }

  /** The deliveries with every repeat of an earlier one taken out. */
  function Firsts(ns: seq<nat>): seq<nat> {
    if ns == [] then []
    else
      var firsts := Firsts(ns[..|ns| - 1]);
      if ns[|ns| - 1] in firsts then firsts else firsts + [ns[|ns| - 1]]
  }

  /** The highest number any tick got past, saved or not. */
  ghost predicate Reached(x: Exporter, history: seq<Change>, top: nat) {
    && x.cursor <= top <= |history|
    && Firsts(x.delivered) == Wanted(history[..top])
  }

  ghost predicate Inv(x: Exporter, history: seq<Change>) {
    && ValidLog(x.log)
    && |history| == x.log.watermark
    && x.log.rows == history[|history| - |x.log.rows|..]
    && (forall i :: 0 <= i < |history| ==> history[i].seqNo == i + 1)
    && x.log.watermark - |x.log.rows| <= x.cursor
    && exists top: nat :: Reached(x, history, top)
  }

  lemma {:induction false} WantedConcat(a: seq<Change>, b: seq<Change>)
    ensures Wanted(a + b) == Wanted(a) + Wanted(b)
  {
    if a == [] {
      assert a + b == b;
    } else {
      WantedConcat(a[1..], b);
      InTwoParts(NumberOf(a[0]), Wanted(a[1..]), Wanted(b));
      assert (a + b)[1..] == a[1..] + b && (a + b)[0] == a[0];
    }
  }

  lemma {:induction false} FirstsKeep(ns: seq<nat>, n: nat)
    ensures n in Firsts(ns) <==> n in ns
  {
    if ns != [] {
      FirstsKeep(ns[..|ns| - 1], n);
      assert ns == ns[..|ns| - 1] + [ns[|ns| - 1]];
    }
  }

  /** Repeats of what was already delivered leave the first deliveries alone. */
  lemma {:induction false} FirstsOfRepeats(ns: seq<nat>, again: seq<nat>)
    requires forall n :: n in again ==> n in Firsts(ns)
    ensures Firsts(ns + again) == Firsts(ns)
  {
    if again == [] {
      assert ns + again == ns;
    } else {
      var last := |again| - 1;
      FirstsOfRepeats(ns, again[..last]);
      assert (ns + again)[..|ns + again| - 1] == ns + again[..last];
      assert again[last] in again;
    }
  }

  /** Numbers not delivered before, each once, are appended as they come. */
  lemma {:induction false} FirstsOfNew(ns: seq<nat>, more: seq<nat>)
    requires forall n :: n in more ==> n !in Firsts(ns)
    requires forall i, j :: 0 <= i < j < |more| ==> more[i] != more[j]
    ensures Firsts(ns + more) == Firsts(ns) + more
  {
    if more == [] {
      assert ns + more == ns;
    } else {
      var last := |more| - 1;
      FirstsOfNew(ns, more[..last]);
      assert (ns + more)[..|ns + more| - 1] == ns + more[..last];
      assert more[last] in more;
      assert more == more[..last] + [more[last]];
    }
  }

  predicate Ascends(ns: seq<nat>) {
    forall i, j :: 0 <= i < j < |ns| ==> ns[i] < ns[j]
  }

  lemma AscendsWith(n: nat, rest: seq<nat>)
    requires Ascends(rest) && forall i :: 0 <= i < |rest| ==> n < rest[i]
    ensures Ascends([n] + rest)
  {
  }

  lemma {:induction false} WantedAscends(changes: seq<Change>)
    requires forall i, j :: 0 <= i < j < |changes| ==> changes[i].seqNo < changes[j].seqNo
    ensures Ascends(Wanted(changes))
  {
    if changes != [] {
      var rest := Wanted(changes[1..]);
      WantedAscends(changes[1..]);
      forall i | 0 <= i < |rest| ensures changes[0].seqNo < rest[i] {
        WantedWithin(changes[1..], rest[i]);
      }
      AscendsWith(changes[0].seqNo, rest);
      assert [] + rest == rest;
    }
  }

  /** The page a tick works on is the next stretch of the history. */
  lemma PageIsHistory(x: Exporter, history: seq<Change>)
    requires Inv(x, history)
    ensures var p := Page(x.log, x.cursor, 0);
      x.cursor + |p| <= |history| && p == history[x.cursor..x.cursor + |p|]
  {
    PageIsNextRun(x.log, x.cursor, 0);
  }

  lemma WantedOfPart(history: seq<Change>, from: nat, to: nat, n: nat)
    requires forall i :: 0 <= i < |history| ==> history[i].seqNo == i + 1
    requires from <= to <= |history|
    ensures n in Wanted(history[from..to]) <==> from < n <= to && Exportable(history[n - 1])
  {
    WantedWithin(history[from..to], n);
    if from < n <= to {
      assert history[from..to][n - 1 - from] == history[n - 1];
    }
  }

  /** Delivering a stretch inside what was reached adds no first delivery. */
  lemma StretchRepeated(delivered: seq<nat>, history: seq<Change>, top: nat, from: nat, to: nat)
    requires forall i :: 0 <= i < |history| ==> history[i].seqNo == i + 1
    requires from <= to <= top <= |history|
    requires Firsts(delivered) == Wanted(history[..top])
    ensures Firsts(delivered + Wanted(history[from..to])) == Wanted(history[..top])
  {
    assert history[..top] == history[0..top];
    forall n | n in Wanted(history[from..to]) ensures n in Firsts(delivered) {
      WantedOfPart(history, from, to, n);
      WantedOfPart(history, 0, top, n);
    }
    FirstsOfRepeats(delivered, Wanted(history[from..to]));
  }

  /** Delivering the stretch right above what was reached adds exactly that stretch. */
  lemma StretchAdded(delivered: seq<nat>, history: seq<Change>, top: nat, to: nat)
    requires forall i :: 0 <= i < |history| ==> history[i].seqNo == i + 1
    requires top <= to <= |history|
    requires Firsts(delivered) == Wanted(history[..top])
    ensures Firsts(delivered + Wanted(history[top..to])) == Wanted(history[..to])
  {
    assert history[..top] == history[0..top];
    var more := Wanted(history[top..to]);
    forall n | n in more ensures n !in Firsts(delivered) {
      WantedOfPart(history, top, to, n);
      WantedOfPart(history, 0, top, n);
    }
    WantedAscends(history[top..to]);
    FirstsOfNew(delivered, more);
    WantedConcat(history[..top], history[top..to]);
    assert history[..to] == history[..top] + history[top..to];
  }

  lemma InTwoParts(delivered: seq<nat>, a: seq<nat>, b: seq<nat>)
    ensures delivered + (a + b) == (delivered + a) + b
  {
  }

  lemma WantedSplit(history: seq<Change>, from: nat, mid: nat, to: nat)
    requires from <= mid <= to <= |history|
    ensures Wanted(history[from..to]) == Wanted(history[from..mid]) + Wanted(history[mid..to])
  {
    WantedConcat(history[from..mid], history[mid..to]);
    assert history[from..to] == history[from..mid] + history[mid..to];
  }

  /** A stretch that starts inside what was reached only adds what lies beyond. */
  lemma StretchDelivered(delivered: seq<nat>, history: seq<Change>, top: nat, from: nat, to: nat)
    requires forall i :: 0 <= i < |history| ==> history[i].seqNo == i + 1
    requires from <= top <= |history| && from <= to <= |history|
    requires Firsts(delivered) == Wanted(history[..top])
    ensures Firsts(delivered + Wanted(history[from..to])) == Wanted(history[..if to <= top then top else to])
  {
    if to <= top {
      StretchRepeated(delivered, history, top, from, to);
    } else {
      StretchRepeated(delivered, history, top, from, top);
      StretchAdded(delivered + Wanted(history[from..top]), history, top, to);
      WantedSplit(history, from, top, to);
      InTwoParts(delivered, Wanted(history[from..top]), Wanted(history[top..to]));
    }
  }

  /** What a tick hands over with success. */
  function HandedOver(x: Exporter, attempts: nat -> Outcome): seq<nat> {
    HandedOf(Page(x.log, x.cursor, 0), attempts)
  }

  lemma TickedIs(x: Exporter, history: seq<Change>, attempts: nat -> Outcome, saves: bool, page: seq<Change>, n: nat)
    requires page == Page(x.log, x.cursor, 0) && n == Handled(page, attempts)
    requires x.cursor + n <= |history| && page[..n] == history[x.cursor..x.cursor + n]
    requires n > 0 ==> page[n - 1].seqNo == x.cursor + n
    ensures Ticked(x, attempts, saves) == Stretched(x, history, n, saves)
    ensures HandedOver(x, attempts) == Wanted(history[x.cursor..x.cursor + n])
  {
  }

  /** What a tick gets through is the stretch of the history right above its cursor. */
  lemma TickedStretch(x: Exporter, history: seq<Change>, attempts: nat -> Outcome, saves: bool) returns (n: nat)
    requires Inv(x, history)
    ensures x.cursor + n <= |history|
    ensures Ticked(x, attempts, saves) == Stretched(x, history, n, saves)
    ensures HandedOver(x, attempts) == Wanted(history[x.cursor..x.cursor + n])
  {
    var page := Page(x.log, x.cursor, 0);
    n := Handled(page, attempts);
    PageIsHistory(x, history);
    StretchOf(history, x.cursor, page, n);
    TickedIs(x, history, attempts, saves, page, n);
  }

  /** An exporter that delivered the next `n` changes of the history. */
  function Stretched(x: Exporter, history: seq<Change>, n: nat, saves: bool): Exporter
    requires x.cursor + n <= |history|
  {
    Exporter(x.log, if saves then x.cursor + n else x.cursor, x.delivered + Wanted(history[x.cursor..x.cursor + n]))
  }

  lemma StretchOf(history: seq<Change>, from: nat, page: seq<Change>, n: nat)
    requires forall i :: 0 <= i < |history| ==> history[i].seqNo == i + 1
    requires from + |page| <= |history| && page == history[from..from + |page|] && n <= |page|
    ensures page[..n] == history[from..from + n]
    ensures n > 0 ==> page[n - 1].seqNo == from + n
  {
  }

  /** More delivered and a cursor further on, over the same log. */
  lemma FurtherKeeps(x: Exporter, x': Exporter, history: seq<Change>, top: nat)
    requires Inv(x, history) && x'.log == x.log && x.cursor <= x'.cursor && Reached(x', history, top)
    ensures Inv(x', history)
  {
  }

  lemma StretchKeeps(x: Exporter, history: seq<Change>, n: nat, saves: bool)
    requires Inv(x, history) && x.cursor + n <= |history|
    ensures Inv(Stretched(x, history, n, saves), history)
  {
    var top: nat :| Reached(x, history, top);
    StretchDelivered(x.delivered, history, top, x.cursor, x.cursor + n);
    FurtherKeeps(x, Stretched(x, history, n, saves), history, if x.cursor + n <= top then top else x.cursor + n);
  }

  lemma TickKeeps(x: Exporter, history: seq<Change>, attempts: nat -> Outcome, saves: bool)
    requires Inv(x, history)
    ensures Inv(Ticked(x, attempts, saves), history)
    ensures Ticked(x, attempts, saves).cursor >= x.cursor
  {
    var n := TickedStretch(x, history, attempts, saves);
    StretchKeeps(x, history, n, saves);
  }

  lemma AppendKeeps(x: Exporter, history: seq<Change>, channel: Channel, entity: string)
    requires Inv(x, history)
    ensures Inv(Next(x, Append(channel, entity)), history + [Change(|history| + 1, channel, entity)])
  {
    var c := Change(|history| + 1, channel, entity);
    var longer, x' := history + [c], Next(x, Append(channel, entity));
    AppendedIsValid(x.log, channel, entity);
    assert x'.log.rows == x.log.rows + [c];
    assert longer[|longer| - |x'.log.rows|..] == history[|history| - |x.log.rows|..] + [c];
    var top: nat :| Reached(x, history, top);
    assert longer[..top] == history[..top];
    assert Reached(x', longer, top);
  }

  lemma PruneKeeps(x: Exporter, history: seq<Change>, count: nat)
    requires Inv(x, history)
    ensures Inv(Next(x, Prune(count)), history)
  {
    var top: nat :| Reached(x, history, top);
    assert Reached(Next(x, Prune(count)), history, top);
  }

  lemma NextKeeps(x: Exporter, history: seq<Change>, step: Step)
    requires Inv(x, history)
    ensures Inv(Next(x, step), Recorded(history, step))
  {
    match step
    case Append(channel, entity) => AppendKeeps(x, history, channel, entity);
    case Prune(count) => PruneKeeps(x, history, count);
    case Tick(attempts, saves) => TickKeeps(x, history, attempts, saves);
  }

  lemma NothingYet()
    ensures Inv(Exporter(EMPTY_LOG, 0, []), [])
  {
    assert Reached(Exporter(EMPTY_LOG, 0, []), [], 0);
  }

  lemma {:induction false} RunKeeps(steps: seq<Step>)
    ensures Inv(Run(steps), History(steps))
  {
    if steps == [] {
      NothingYet();
    } else {
      RunKeeps(steps[..|steps| - 1]);
      NextKeeps(Run(steps[..|steps| - 1]), History(steps[..|steps| - 1]), steps[|steps| - 1]);
    }
  }

  /** The cursor never goes back. */
  lemma CursorNeverDecreases(steps: seq<Step>, step: Step)
    ensures Next(Run(steps), step).cursor >= Run(steps).cursor
  {
    RunKeeps(steps);
    if step.Tick? {
      TickKeeps(Run(steps), History(steps), step.attempts, step.saves);
    }
  }

  /** At least once: whatever crashed or failed, every intent or bullet change at or below
      the cursor has been delivered. */
  lemma BelowCursorIsDelivered(steps: seq<Step>, i: nat)
    requires i < |History(steps)| && i + 1 <= Run(steps).cursor
    requires History(steps)[i].channel == IntentChannel || History(steps)[i].channel == BulletChannel
    ensures History(steps)[i].seqNo == i + 1 && i + 1 in Run(steps).delivered
  {
    RunKeeps(steps);
    var x, h := Run(steps), History(steps);
    var top: nat :| Reached(x, h, top);
    assert h[..top] == h[0..top];
    WantedOfPart(h, 0, top, i + 1);
    FirstsKeep(x.delivered, i + 1);
  }

  /** Whatever was delivered is an intent or a bullet change that was appended. */
  lemma OnlyTheTwoChannels(steps: seq<Step>, n: nat)
    requires n in Run(steps).delivered
    ensures 1 <= n <= |History(steps)| && History(steps)[n - 1].seqNo == n
      && (History(steps)[n - 1].channel == IntentChannel || History(steps)[n - 1].channel == BulletChannel)
  {
    RunKeeps(steps);
    var x, h := Run(steps), History(steps);
    var top: nat :| Reached(x, h, top);
    assert h[..top] == h[0..top];
    FirstsKeep(x.delivered, n);
    WantedOfPart(h, 0, top, n);
  }

  /** In order: first deliveries happen in strictly ascending sequence order, skip no
      exportable change, and nothing else is ever delivered. */
  lemma FirstDeliveriesAscend(steps: seq<Step>)
    ensures var firsts := Firsts(Run(steps).delivered);
      && (forall i, j :: 0 <= i < j < |firsts| ==> firsts[i] < firsts[j])
      && exists top: nat :: Run(steps).cursor <= top <= |History(steps)| && firsts == Wanted(History(steps)[..top])
  {
    RunKeeps(steps);
    var x, h := Run(steps), History(steps);
    var top: nat :| Reached(x, h, top);
    WantedAscends(h[..top]);
  }

  /** Everything exportable up to the cursor was delivered once, and nothing else. */
  ghost predicate Exact(x: Exporter, history: seq<Change>) {
    x.cursor <= |history| && x.delivered == Wanted(history[..x.cursor])
  }

  lemma StretchIsExact(x: Exporter, history: seq<Change>, n: nat)
    requires Exact(x, history) && x.cursor + n <= |history|
    ensures Exact(Stretched(x, history, n, true), history)
  {
    WantedConcat(history[..x.cursor], history[x.cursor..x.cursor + n]);
    assert history[..x.cursor + n] == history[..x.cursor] + history[x.cursor..x.cursor + n];
  }

  lemma TickIsExact(x: Exporter, history: seq<Change>, attempts: nat -> Outcome)
    requires Inv(x, history) && Exact(x, history)
    ensures Exact(Ticked(x, attempts, true), history)
  {
    var n := TickedStretch(x, history, attempts, true);
    StretchIsExact(x, history, n);
  }

  lemma NextIsExact(x: Exporter, history: seq<Change>, step: Step)
    requires Inv(x, history) && Exact(x, history) && (step.Tick? ==> step.saves)
    ensures Exact(Next(x, step), Recorded(history, step))
  {
    match step
    case Append(_, _) => assert Recorded(history, step)[..x.cursor] == history[..x.cursor];
    case Prune(_) =>
    case Tick(attempts, _) => TickIsExact(x, history, attempts);
  }

  /** Exactly once: when every cursor save succeeds, the deliveries are exactly the
      exportable changes at or below the cursor, in order and without repeats. */
  lemma {:induction false} ExactlyOnceWhenSavesSucceed(steps: seq<Step>)
    requires forall i :: 0 <= i < |steps| && steps[i].Tick? ==> steps[i].saves
    ensures Run(steps).cursor <= |History(steps)|
    ensures Run(steps).delivered == Wanted(History(steps)[..Run(steps).cursor])
  {
    if steps != [] {
      ExactlyOnceWhenSavesSucceed(steps[..|steps| - 1]);
      RunKeeps(steps[..|steps| - 1]);
      NextIsExact(Run(steps[..|steps| - 1]), History(steps[..|steps| - 1]), steps[|steps| - 1]);
    }
  }

  /** How many deliveries were made by ticks whose cursor was not saved. */
  function Unsaved(steps: seq<Step>): nat {
    if steps == [] then 0
    else
      var before, last := steps[..|steps| - 1], steps[|steps| - 1];
      Unsaved(before) + if last.Tick? && !last.saves then |HandedOver(Run(before), last.attempts)| else 0
  }

  lemma WantedUpTo(history: seq<Change>, from: nat, n: nat)
    requires from + n <= |history|
    ensures |Wanted(history[..from + n])| == |Wanted(history[..from])| + |Wanted(history[from..from + n])|
  {
    WantedConcat(history[..from], history[from..from + n]);
    assert history[..from + n] == history[..from] + history[from..from + n];
  }

  /** A saved tick takes its deliveries below the cursor; an unsaved one leaves them above. */
  lemma TickCounts(x: Exporter, history: seq<Change>, attempts: nat -> Outcome, saves: bool)
    requires Inv(x, history)
    ensures var x' := Ticked(x, attempts, saves);
      && x'.cursor <= |history| && x.cursor <= |history|
      && |x'.delivered| == |x.delivered| + |HandedOver(x, attempts)|
      && |Wanted(history[..x'.cursor])| == |Wanted(history[..x.cursor])| + if saves then |HandedOver(x, attempts)| else 0
  {
    var n := TickedStretch(x, history, attempts, saves);
    WantedUpTo(history, x.cursor, n);
  }

  /** However ticks fail and crash, the deliveries outnumber the exportable changes at or
      below the cursor by exactly those of the ticks that were not saved. */
  lemma {:induction false} DeliveriesCount(steps: seq<Step>)
    ensures Run(steps).cursor <= |History(steps)|
    ensures |Run(steps).delivered| == |Wanted(History(steps)[..Run(steps).cursor])| + Unsaved(steps)
  {
    if steps != [] {
      var before, last := steps[..|steps| - 1], steps[|steps| - 1];
      DeliveriesCount(before);
      RunKeeps(before);
      match last
      case Append(_, _) => assert History(steps)[..Run(before).cursor] == History(before)[..Run(before).cursor];
      case Prune(_) =>
      case Tick(attempts, saves) => TickCounts(Run(before), History(before), attempts, saves);
    }
  }

  lemma IdleTick(x: Exporter, history: seq<Change>, attempts: nat -> Outcome)
    requires HandedOver(x, attempts) == [] && Exact(x, history)
    ensures Exact(Ticked(x, attempts, false), history)
  {
  }

  /** Exactly when each exportable change at or below the cursor was delivered once and
      nothing else was: when no tick that handed something over missed its save. */
  lemma {:induction false} ExactlyOnceIff(steps: seq<Step>)
    ensures Exact(Run(steps), History(steps)) <==> Unsaved(steps) == 0
  {
    DeliveriesCount(steps);
    if steps != [] && Unsaved(steps) == 0 {
      var before, last := steps[..|steps| - 1], steps[|steps| - 1];
      ExactlyOnceIff(before);
      RunKeeps(before);
      if last.Tick? && !last.saves {
        IdleTick(Run(before), History(before), last.attempts);
      } else {
        NextIsExact(Run(before), History(before), last);
      }
    }
  }
}
