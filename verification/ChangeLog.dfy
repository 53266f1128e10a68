/** The ordered change log: an append-only table with a high-water mark that
    survives deletes, and the in-process notification of its appends. */
module ChangeLog {

  datatype Channel =
    | RunChannel | IntentChannel | BulletChannel
    | PhaseChannel | EnvelopeChannel | ProgressChannel

  datatype Change = Change(seqNo: nat, channel: Channel, entity: string)

  /** `rows` is what the table holds; `watermark` is the highest number ever assigned. */
  datatype Log = Log(rows: seq<Change>, watermark: nat)

  const DEFAULT_REPLAY_LIMIT: nat := 500

  const EMPTY_LOG := Log([], 0)

  /** Numbers are assigned one above the watermark and rows only ever leave from the front. */
  ghost predicate ValidLog(l: Log) {
    && |l.rows| <= l.watermark
    && forall i :: 0 <= i < |l.rows| ==> l.rows[i].seqNo == l.watermark - |l.rows| + 1 + i
  }

  ghost predicate Holds(l: Log, n: int) {
    exists c :: c in l.rows && c.seqNo == n
  }

  function Appended(l: Log, channel: Channel, entity: string): Log {
    Log(l.rows + [Change(l.watermark + 1, channel, entity)], l.watermark + 1)
  }

  /** Rows deleted from the front; the watermark stays. */
  function Pruned(l: Log, count: nat): Log
    requires count <= |l.rows|
  {
    Log(l.rows[count..], l.watermark)
  }

  /** WHERE seq > from. */
  function Above(rows: seq<Change>, from: int): seq<Change> {
    if rows == [] then []
    else (if rows[0].seqNo > from then [rows[0]] else []) + Above(rows[1..], from)
  }

  function PageSize(limit: int): nat {
    if limit <= 0 then DEFAULT_REPLAY_LIMIT else limit
  }

  /** WHERE seq > from ORDER BY seq LIMIT limit, over rows already in sequence order. */
  function Page(l: Log, from: int, limit: int): seq<Change> {
    var above := Above(l.rows, from);
    if |above| <= PageSize(limit) then above else above[..PageSize(limit)]
  }

  /** How many held rows a cursor has already passed. */
  function Passed(l: Log, from: int): nat
    requires |l.rows| <= l.watermark
  {
    var before := l.watermark - |l.rows|;
    if from <= before then 0
    else if from >= l.watermark then |l.rows|
    else from - before
  }

  lemma AppendedIsValid(l: Log, channel: Channel, entity: string)
    requires ValidLog(l)
    ensures ValidLog(Appended(l, channel, entity))
    ensures forall n :: Holds(Appended(l, channel, entity), n) <==> Holds(l, n) || n == l.watermark + 1
  {
    var c := Change(l.watermark + 1, channel, entity);
    assert c in Appended(l, channel, entity).rows;
    forall n
      ensures Holds(Appended(l, channel, entity), n) <==> Holds(l, n) || n == l.watermark + 1
    {
      if Holds(l, n) {
        var d :| d in l.rows && d.seqNo == n;
        assert d in Appended(l, channel, entity).rows;
      }
    }
  }

  /** A number is held exactly when it lies in the unpruned range. */
  lemma HeldRange(l: Log, n: int)
    requires ValidLog(l)
    ensures Holds(l, n) <==> l.watermark - |l.rows| < n <= l.watermark
  {
    if l.watermark - |l.rows| < n <= l.watermark {
      assert l.rows[n - (l.watermark - |l.rows|) - 1] in l.rows;
    }
  }

  lemma {:induction false} AboveAll(rows: seq<Change>, from: int)
    requires forall i :: 0 <= i < |rows| ==> rows[i].seqNo > from
    ensures Above(rows, from) == rows
  {
    if rows != [] {
      AboveAll(rows[1..], from);
      assert rows == [rows[0]] + rows[1..];
    }
  }

  /** The rows above a cursor are a suffix of the table, so replay keeps the assigned order. */
  lemma {:induction false} AboveIsSuffix(l: Log, from: int)
    requires ValidLog(l)
    ensures Above(l.rows, from) == l.rows[Passed(l, from)..]
    decreases |l.rows|
  {
    if l.rows == [] {
    } else if l.rows[0].seqNo > from {
      AboveAll(l.rows, from);
    } else {
      AboveIsSuffix(Log(l.rows[1..], l.watermark), from);
    }
  }

  /** A page is the stretch of the table right above its cursor. */
  lemma PageIsStretch(l: Log, from: int, limit: int)
    requires ValidLog(l)
    ensures var p, k := Page(l, from, limit), Passed(l, from);
      && k + |p| <= |l.rows| && p == l.rows[k..k + |p|]
      && |p| <= PageSize(limit) && (|p| < PageSize(limit) ==> k + |p| == |l.rows|)
  {
    AboveIsSuffix(l, from);
    var above, p, k := Above(l.rows, from), Page(l, from, limit), Passed(l, from);
    assert above == l.rows[k..];
    assert above[..|p|] == l.rows[k..k + |p|];
  }

  lemma {:induction false} AboveMeans(rows: seq<Change>, from: int)
    ensures forall c :: c in Above(rows, from) <==> c in rows && c.seqNo > from
  {
    if rows != [] {
      AboveMeans(rows[1..], from);
      assert rows == [rows[0]] + rows[1..];
    }
  }

  predicate Ascending(list: seq<Change>) {
    forall i, j :: 0 <= i < j < |list| ==> list[i].seqNo < list[j].seqNo
  }

  /** What a page holds of any table: rows above the cursor, at most the limit of them (500
      where none is given), all of them when they are fewer. */
  lemma PageMeans(l: Log, from: int, limit: int)
    ensures var p, bound := Page(l, from, limit), if limit > 0 then limit else 500;
      && |p| <= bound
      && (forall c :: c in p ==> c in l.rows && c.seqNo > from)
      && (|p| < bound ==> forall c :: c in l.rows && c.seqNo > from ==> c in p)
  {
    var p, above := Page(l, from, limit), Above(l.rows, from);
    AboveMeans(l.rows, from);
    assert forall i :: 0 <= i < |p| ==> p[i] in above;
  }

  /** Of a valid log it holds the lowest ones, in ascending order. */
  lemma PageIsLowest(l: Log, from: int, limit: int)
    requires ValidLog(l)
    ensures var p := Page(l, from, limit);
      && Ascending(p)
      && forall c, d :: c in p && d in l.rows && d.seqNo > from && d !in p ==> c.seqNo < d.seqNo
  {
    var p, k := Page(l, from, limit), Passed(l, from);
    PageIsStretch(l, from, limit);
    forall j | k <= j < k + |p| ensures l.rows[j] in p {
      assert p[j - k] == l.rows[j];
    }
    forall c, d | c in p && d in l.rows && d.seqNo > from && d !in p ensures c.seqNo < d.seqNo {
      var i :| 0 <= i < |p| && p[i] == c;
      var j :| 0 <= j < |l.rows| && l.rows[j] == d;
      assert c == l.rows[k + i];
    }
  }

  /** A page holds the next consecutive numbers, stops at the limit, and a page that is
      not full reaches the watermark. */
  lemma PageIsNextRun(l: Log, from: int, limit: int)
    requires ValidLog(l)
    requires l.watermark - |l.rows| <= from <= l.watermark
    ensures var p := Page(l, from, limit);
      && |p| <= PageSize(limit)
      && (forall i :: 0 <= i < |p| ==> p[i].seqNo == from + 1 + i)
      && (|p| < PageSize(limit) ==> from + |p| == l.watermark)
      && from + |p| <= l.watermark
      && p == l.rows[Passed(l, from)..Passed(l, from) + |p|]
  {
    PageIsStretch(l, from, limit);
    var p, k := Page(l, from, limit), Passed(l, from);
    assert k == from - (l.watermark - |l.rows|);
    forall i | 0 <= i < |p| ensures p[i].seqNo == from + 1 + i {
      assert p[i] == l.rows[k + i];
    }
  }

  /** Two pages in a row are one longer page: resuming from the last number of a page
      loses nothing and repeats nothing. */
  lemma PagesCompose(l: Log, from: int, first: int, second: int)
    requires ValidLog(l) && first > 0 && second > 0
    requires l.watermark - |l.rows| <= from <= l.watermark
    ensures var p := Page(l, from, first);
      p + Page(l, from + |p|, second) == Page(l, from, first + second)
  {
    var p := Page(l, from, first);
    PageIsStretch(l, from, first);
    PageIsStretch(l, from + |p|, second);
    PageIsStretch(l, from, first + second);
    var q, whole, k := Page(l, from + |p|, second), Page(l, from, first + second), Passed(l, from);
    assert k == from - (l.watermark - |l.rows|) && Passed(l, from + |p|) == k + |p|;
    assert |whole| == |p| + |q|;
    TwoStretches(l.rows, k, |p|, |q|);
  }

  lemma TwoStretches(rows: seq<Change>, k: nat, m: nat, n: nat)
    requires k + m + n <= |rows|
    ensures rows[k..k + m] + rows[k + m..k + m + n] == rows[k..k + (m + n)]
  {
  }

  /** The answer CanReplayFrom computes from the watermark and the earliest held number. */
  predicate CanReplay(l: Log, from: int) {
    && 0 < from <= l.watermark
    && if l.rows == [] then from == l.watermark else from >= l.rows[0].seqNo - 1
  }

  /** It is true exactly when the cursor was assigned and nothing after it has been pruned. */
  lemma CanReplayIsExact(l: Log, from: int)
    requires ValidLog(l)
    ensures CanReplay(l, from) <==>
      1 <= from <= l.watermark && forall n :: from < n <= l.watermark ==> Holds(l, n)
  {
    forall n ensures Holds(l, n) <==> l.watermark - |l.rows| < n <= l.watermark { HeldRange(l, n); }
    if 1 <= from <= l.watermark && !CanReplay(l, from) {
      assert !Holds(l, from + 1);
    }
  }

  lemma AboveFrom(rows: seq<Change>, i: nat, from: int)
    requires i < |rows|
    ensures Above(rows[i..], from) == (if rows[i].seqNo > from then [rows[i]] else []) + Above(rows[i + 1..], from)
  {
    assert rows[i..][1..] == rows[i + 1..];
  }

  lemma Reassociate(a: seq<Change>, b: seq<Change>, c: seq<Change>)
    ensures a + (b + c) == (a + b) + c
  {
  }

  /** A list that is full or complete is the page. */
  lemma FirstOf(above: seq<Change>, list: seq<Change>, rest: seq<Change>, bound: nat)
    requires above == list + rest && |list| <= bound && (rest == [] || |list| == bound)
    ensures list == if |above| <= bound then above else above[..bound]
  {
  }

  /** What a drop-if-full send to every subscriber leaves in each capacity-one channel. */
  function Notified(subs: map<nat, seq<nat>>, seqNo: nat): map<nat, seq<nat>> {
    map id | id in subs :: if subs[id] == [] then [seqNo] else subs[id]
  }

  class ChangeStore {
    var rows: seq<Change>
    var watermark: nat
    var subs: map<nat, seq<nat>>
    var nextSubID: nat

    ghost predicate Valid()
      reads this
    {
      && ValidLog(Contents())
      && forall id :: id in subs ==> 1 <= id <= nextSubID && |subs[id]| <= 1
    }

    function Contents(): Log
      reads this
    {
      Log(rows, watermark)
    }

    constructor ()
      ensures Valid() && Contents() == EMPTY_LOG && subs == map[] && nextSubID == 0
    {
      rows, watermark, subs, nextSubID := [], 0, map[], 0;
    }

    method AppendChange(channel: Channel, entity: string) returns (seqNo: nat)
      requires Valid()
      modifies this
      ensures Valid()
      ensures seqNo == old(watermark) + 1
      ensures rows == old(rows) + [Change(seqNo, channel, entity)] && watermark == seqNo
      ensures Contents() == Appended(old(Contents()), channel, entity)
      ensures subs == Notified(old(subs), seqNo) && nextSubID == old(nextSubID)
      ensures subs.Keys == old(subs).Keys
      ensures forall id :: id in subs ==> subs[id] == if |old(subs)[id]| == 1 then old(subs)[id] else [seqNo]
    {
      AppendedIsValid(Contents(), channel, entity);
      seqNo := watermark + 1;
      rows := rows + [Change(seqNo, channel, entity)];
      watermark := seqNo;
      NotifyChange(seqNo);
    }

    method NotifyChange(seqNo: nat)
      requires Valid()
      modifies this`subs
      ensures Valid() && subs == Notified(old(subs), seqNo)
      ensures subs.Keys == old(subs).Keys
      ensures forall id :: id in subs ==> |subs[id]| == 1
      ensures forall id :: id in subs && old(subs)[id] != [] ==> subs[id] == old(subs)[id]
      ensures forall id :: id in subs && old(subs)[id] == [] ==> subs[id] == [seqNo]
    {
      var todo := subs.Keys;
      while todo != {}
        invariant todo <= subs.Keys == old(subs).Keys
        invariant forall id :: id in subs ==>
          subs[id] == if id in todo then old(subs)[id] else Notified(old(subs), seqNo)[id]
        decreases |todo|
      {
        var id :| id in todo;
        if subs[id] == [] {
          subs := subs[id := [seqNo]];
        }
        todo := todo - {id};
      }
    }

    method SubscribeChanges() returns (id: nat)
      requires Valid()
      modifies this`subs, this`nextSubID
      ensures Valid() && id !in old(subs) && subs == old(subs)[id := []]
      ensures nextSubID == id == old(nextSubID) + 1
    {
      nextSubID := nextSubID + 1;
      id := nextSubID;
      subs := subs[id := []];
    }

    /** Running it a second time changes nothing. */
    method Unsubscribe(id: nat)
      requires Valid()
      modifies this`subs
      ensures Valid() && subs == old(subs) - {id}
    {
      subs := subs - {id};
    }

    method ListChangesSince(from: int, limit: int) returns (list: seq<Change>)
      ensures list == Page(Contents(), from, limit)
      ensures |list| <= if limit > 0 then limit else 500
      ensures forall c :: c in list ==> c in rows && c.seqNo > from
      ensures |list| < (if limit > 0 then limit else 500) ==> forall c :: c in rows && c.seqNo > from ==> c in list
      ensures ValidLog(Contents()) ==> Ascending(list)
      ensures ValidLog(Contents()) ==>
        forall c, d :: c in list && d in rows && d.seqNo > from && d !in list ==> c.seqNo < d.seqNo
    {
      var bound := limit;
      if bound <= 0 {
        bound := DEFAULT_REPLAY_LIMIT;
      }
      list := [];
      var i := 0;
      assert rows[0..] == rows;
      ghost var above := Above(rows, from);
      while i < |rows| && |list| < bound
        invariant 0 <= i <= |rows| && |list| <= bound
        invariant above == list + Above(rows[i..], from)
      {
        AboveFrom(rows, i, from);
        if rows[i].seqNo > from {
          Reassociate(list, [rows[i]], Above(rows[i + 1..], from));
          list := list + [rows[i]];
        } else {
          assert [] + Above(rows[i + 1..], from) == Above(rows[i + 1..], from);
        }
        i := i + 1;
      }
      FirstOf(above, list, Above(rows[i..], from), bound);
      PageMeans(Contents(), from, limit);
      if ValidLog(Contents()) {
        PageIsLowest(Contents(), from, limit);
      }
    }

    method CurrentSequence() returns (highest: nat)
      requires Valid()
      ensures highest == watermark
    {
      highest := if rows == [] then 0 else rows[|rows| - 1].seqNo;
      if watermark > highest {
        highest := watermark;
      }
    }

    method EarliestSequence() returns (earliest: nat)
      requires Valid()
      ensures if rows == [] then earliest == 0
              else Holds(Contents(), earliest) && forall n :: n < earliest ==> !Holds(Contents(), n)
      ensures rows != [] ==> earliest == rows[0].seqNo
    {
      earliest := if rows == [] then 0 else rows[0].seqNo;
      if rows != [] {
        assert rows[0] in Contents().rows;
      }
    }

    method CanReplayFrom(from: int) returns (ok: bool)
      requires Valid()
      ensures ok <==> 1 <= from <= watermark && forall n :: from < n <= watermark ==> Holds(Contents(), n)
      ensures ok == CanReplay(Contents(), from)
    {
      CanReplayIsExact(Contents(), from);
      if from <= 0 {
        return false;
      }
      var current := CurrentSequence();
      if from > current {
        return false;
      }
      var earliest := EarliestSequence();
      if earliest == 0 {
        return from == current;
      }
      return from >= earliest - 1;
    }
  }
}
